/**
 * The last lines of a log, read backwards in blocks. Lines end at a newline, a carriage
 * return, or both together.
 */
module LogTail {
  type Byte = b: int | 0 <= b < 256
  type Line = seq<Byte>

  const NEWLINE: Byte := 10
  const RETURN: Byte := 13

  predicate EndsLine(b: Byte) {
    b == NEWLINE || b == RETURN
  }

  /** Where the first line ends, without what ends it. */
  function End(text: seq<Byte>): (k: nat)
    ensures k <= |text| && forall i | 0 <= i < k :: !EndsLine(text[i])
    ensures k < |text| ==> EndsLine(text[k])
  {
    if text == [] || EndsLine(text[0]) then 0 else 1 + End(text[1..])
  }

  /** Where the next line begins. */
  function Next(text: seq<Byte>): (k: nat)
    ensures k <= |text| && (text != [] ==> k > 0)
  {
    var k := End(text);
    if k == |text| then k
    else if text[k] == RETURN && k + 1 < |text| && text[k + 1] == NEWLINE then k + 2
    else k + 1
  }

  function Lines(text: seq<Byte>): seq<Line>
    decreases |text|
  {
    if text == [] then [] else [text[..End(text)]] + Lines(text[Next(text)..])
  }

  function Newlines(text: seq<Byte>): nat {
    if text == [] then 0 else (if text[0] == NEWLINE then 1 else 0) + Newlines(text[1..])
  }

  function Last(lines: seq<Line>, n: nat): seq<Line> {
    if n >= |lines| then lines else lines[|lines| - n..]
  }

  function Join(lines: seq<Line>): seq<Byte> {
    if lines == [] then []
    else if |lines| == 1 then lines[0]
    else Join(lines[..|lines| - 1]) + [NEWLINE] + lines[|lines| - 1]
  }

  lemma NewlinesJoin(a: seq<Byte>, b: seq<Byte>)
    ensures Newlines(a + b) == Newlines(a) + Newlines(b)
  {
    if a == [] {
      assert a + b == b;
    } else {
      NewlinesJoin(a[1..], b);
      assert (a + b)[1..] == a[1..] + b;
    }
  }

  lemma {:induction false} NoNewlines(text: seq<Byte>)
    requires forall i | 0 <= i < |text| :: text[i] != NEWLINE
    ensures Newlines(text) == 0
  {
    if text != [] { NoNewlines(text[1..]); }
  }

  lemma LineByLine(text: seq<Byte>)
    requires text != []
    ensures Lines(text) == [text[..End(text)]] + Lines(text[Next(text)..])
  {
  }

  /** A newline, a carriage return, or the two together end one line. */
  lemma EachEndingEndsOneLine(first: Line, ending: seq<Byte>, rest: seq<Byte>)
    requires forall i | 0 <= i < |first| :: !EndsLine(first[i])
    requires ending == [10] || ending == [13, 10] || (ending == [13] && (rest == [] || rest[0] != 10))
    ensures Lines(first + ending + rest) == [first] + Lines(rest)
  {
    var text := first + ending + rest;
    assert text == first + (ending + rest);
    NoEndingIn(first);
    EndBefore(first, ending + rest);
    assert End(text) == |first| && text[|first|] == ending[0];
    assert |ending| == 2 ==> text[|first| + 1] == NEWLINE;
    assert |ending| == 1 && rest != [] ==> text[|first| + 1] == rest[0];
    assert Next(text) == |first| + |ending|;
    assert text[..|first|] == first && text[Next(text)..] == rest;
    LineByLine(text);
  }

  lemma {:induction false} NoEndingIn(text: seq<Byte>)
    requires forall i | 0 <= i < |text| :: !EndsLine(text[i])
    ensures End(text) == |text|
  {
    if text != [] { NoEndingIn(text[1..]); }
  }

  /** What ends a line is at most one newline. */
  lemma OneEnding(text: seq<Byte>)
    requires text != []
    ensures End(text) <= Next(text) && Newlines(text[End(text)..Next(text)]) <= 1
  {
    var k, ending := End(text), text[End(text)..Next(text)];
    if k < |text| {
      assert ending[0] == text[k];
      assert ending == if |ending| == 1 then [text[k]] else [RETURN] + [NEWLINE];
      NewlinesJoin([RETURN], [NEWLINE]);
      assert Newlines([NEWLINE]) == 1 && Newlines([RETURN]) == 0;
    }
  }

  /** Every newline ends a line. */
  lemma {:induction false} LinesForNewlines(text: seq<Byte>)
    ensures |Lines(text)| >= Newlines(text)
    decreases |text|
  {
    if text != [] {
      var k, next := End(text), Next(text);
      OneEnding(text);
      NoNewlines(text[..k]);
      NewlinesJoin(text[..k], text[k..next]);
      NewlinesJoin(text[..next], text[next..]);
      assert text[..next] == text[..k] + text[k..next] && text == text[..next] + text[next..];
      LinesForNewlines(text[next..]);
    }
  }

  /** The first line of a text that begins before its last part. */
  lemma EndBefore(a: seq<Byte>, b: seq<Byte>)
    ensures End(a + b) == if End(a) < |a| then End(a) else |a| + End(b)
  {
    if a == [] {
      assert a + b == b;
    } else if !EndsLine(a[0]) {
      EndBefore(a[1..], b);
      assert (a + b)[1..] == a[1..] + b;
    }
  }

  /** One list of lines ends with the other, but for the other's first line. */
  predicate EndsWithRest(all: seq<Line>, some: seq<Line>) {
    |all| >= |some| > 0 && all[|all| - |some| + 1..] == some[1..]
  }

  lemma OneMoreBefore(first: Line, all: seq<Line>, some: seq<Line>)
    requires EndsWithRest(all, some)
    ensures EndsWithRest([first] + all, some)
  {
    var more := [first] + all;
    assert more[|more| - |some| + 1..] == all[|all| - |some| + 1..];
  }

  lemma OtherFirst(first: Line, other: Line, rest: seq<Line>)
    ensures EndsWithRest([first] + rest, [other] + rest)
  {
  }

  lemma SameLast(all: seq<Line>, some: seq<Line>, n: nat)
    requires EndsWithRest(all, some) && n < |some|
    ensures Last(all, n) == Last(some, n)
  {
    assert all[|all| - |some| + 1..][|some| - 1 - n..] == all[|all| - n..];
    assert some[1..][|some| - 1 - n..] == some[|some| - n..];
  }

  /** What comes before a part of a text changes at most the first line of that part. */
  lemma {:induction false} OnlyTheFirstLineChanges(a: seq<Byte>, b: seq<Byte>)
    requires b != []
    ensures EndsWithRest(Lines(a + b), Lines(b))
    decreases |a|
  {
    hide Lines, EndsWithRest;
    EndBefore(a, b);
    var text := a + b;
    LineByLine(text);
    LineByLine(b);
    var first := text[..End(text)];
    if Next(text) <= |a| {
      var rest := a[Next(text)..];
      assert text[Next(text)..] == rest + b;
      OnlyTheFirstLineChanges(rest, b);
      OneMoreBefore(first, Lines(rest + b), Lines(b));
    } else {
      AcrossTheCut(a, b);
      OtherFirst(first, b[..End(b)], Lines(b[Next(b)..]));
    }
  }

  /** A first line that is not over before the cut ends where the part's first line does. */
  lemma AcrossTheCut(a: seq<Byte>, b: seq<Byte>)
    requires b != [] && Next(a + b) > |a|
    ensures (a + b)[Next(a + b)..] == b[Next(b)..]
  {
    EndBefore(a, b);
    NextAcross(a, b);
    DropBoth(a, b, Next(b));
  }

  lemma DropBoth(a: seq<Byte>, b: seq<Byte>, m: nat)
    requires m <= |b|
    ensures (a + b)[|a| + m..] == b[m..]
  {
  }

  lemma NextAcross(a: seq<Byte>, b: seq<Byte>)
    requires b != [] && Next(a + b) > |a|
    ensures Next(a + b) == |a| + Next(b)
  {
    EndBefore(a, b);
    var text := a + b;
    if End(text) < |a| {
      // A carriage return and a newline on either side of the cut.
      assert text[|a|] == b[0] == NEWLINE;
      assert End(b) == 0 && Next(b) == 1 && Next(text) == |a| + 1;
    } else {
      var k := End(b);
      assert End(text) == |a| + k;
      assert k < |b| ==> text[|a| + k] == b[k];
      assert k + 1 < |b| ==> text[|a| + k + 1] == b[k + 1];
    }
  }

  /** Once a part holds more newlines than lines are asked for, its last lines are the file's. */
  lemma EnoughRead(a: seq<Byte>, b: seq<Byte>, lines: nat)
    requires Newlines(b) > lines
    ensures Last(Lines(a + b), lines) == Last(Lines(b), lines)
  {
    LinesForNewlines(b);
    OnlyTheFirstLineChanges(a, b);
    SameLast(Lines(a + b), Lines(b), lines);
  }

  method Tail(file: seq<Byte>, lines: nat, block: nat) returns (text: seq<Byte>)
    requires lines >= 1 && block >= 1
    ensures text == Join(Last(Lines(file), lines)) + [NEWLINE]
  {
    var end, data := |file|, [];
    while end > 0 && Newlines(data) <= lines
      invariant 0 <= end <= |file| && data == file[end..]
    {
      var start := if end > block then end - block else 0;
      data := file[start..end] + data;
      end := start;
    }
    assert file == file[..end] + data;
    if end > 0 {
      EnoughRead(file[..end], data, lines);
    } else {
      assert file == data;
    }
    text := Join(Last(Lines(data), lines)) + [NEWLINE];
  }

  lemma OneLine(text: seq<Byte>)
    requires text != [] && Next(text) == |text|
    ensures Lines(text) == [text[..End(text)]]
  {
    hide End, Next;
    LineByLine(text);
    NoLines();
    assert text[Next(text)..] == [];
  }

  lemma LastBytes(text: seq<Byte>)
    requires RETURN !in text && text != [] && Next(text) == |text|
    ensures text[..End(text)] + [NEWLINE] == if text[|text| - 1] == NEWLINE then text else text + [NEWLINE]
  {
    var k := End(text);
    if k < |text| {
      assert text[k] in text;
      CutAtOne(text, k);
    } else {
      assert text[..k] == text;
    }
  }

  /** The last line of a log, with a newline at its end. */
  lemma LastLineIsTheRest(text: seq<Byte>)
    requires RETURN !in text && text != [] && Next(text) == |text|
    ensures Join(Lines(text)) + [NEWLINE] == if text[|text| - 1] == NEWLINE then text else text + [NEWLINE]
  {
    hide Lines, Join, End, Next;
    OneLine(text);
    JoinOne(text[..End(text)]);
    LastBytes(text);
  }

  lemma FirstLineAndRest(text: seq<Byte>)
    requires RETURN !in text && Next(text) < |text|
    ensures text == text[..End(text)] + [NEWLINE] + text[Next(text)..]
  {
    var k := End(text);
    assert k < |text| && text[k] in text && Next(text) == k + 1;
    CutAtOne(text, k);
  }

  lemma CutAtOne(text: seq<Byte>, k: nat)
    requires k < |text|
    ensures text == text[..k] + [text[k]] + text[k + 1..]
  {
  }

  /** Without carriage returns, all the lines of a log are the log, with a newline at the end. */
  lemma {:induction false} LinesAreTheLog(text: seq<Byte>)
    requires RETURN !in text && text != []
    ensures Lines(text) != []
    ensures Join(Lines(text)) + [NEWLINE] == if text[|text| - 1] == NEWLINE then text else text + [NEWLINE]
    decreases |text|
  {
    hide Lines, Join, End;
    LineByLine(text);
    var next := Next(text);
    if next == |text| {
      LastLineIsTheRest(text);
    } else {
      var first, rest := text[..End(text)], text[next..];
      LinesAreTheLog(rest);
      JoinFirst(first, Lines(rest));
      FirstLineAndRest(text);
      Rejoin(first + [NEWLINE], Join(Lines(rest)), rest);
      assert rest[|rest| - 1] == text[|text| - 1];
    }
  }

  lemma Rejoin(front: seq<Byte>, joined: seq<Byte>, rest: seq<Byte>)
    requires rest != [] && joined + [NEWLINE] == if rest[|rest| - 1] == NEWLINE then rest else rest + [NEWLINE]
    ensures front + joined + [NEWLINE] == if rest[|rest| - 1] == NEWLINE then front + rest else front + rest + [NEWLINE]
  {
    assert front + joined + [NEWLINE] == front + (joined + [NEWLINE]);
    assert front + (rest + [NEWLINE]) == front + rest + [NEWLINE];
  }

  lemma JoinOne(first: Line)
    ensures Join([first]) == first
  {
  }

  lemma NoLines()
    ensures Lines([]) == []
  {
  }

  lemma {:induction false} JoinFirst(first: Line, rest: seq<Line>)
    requires rest != []
    ensures Join([first] + rest) == first + [NEWLINE] + Join(rest)
    decreases |rest|
  {
    var all := [first] + rest;
    assert all[..|all| - 1] == [first] + rest[..|rest| - 1];
    if |rest| > 1 {
      JoinFirst(first, rest[..|rest| - 1]);
    } else {
      assert all[..1] == [first];
    }
  }

  /** A log of no more lines than were asked for comes back whole. */
  lemma ShortLogsComeBackWhole(file: seq<Byte>, lines: nat)
    requires RETURN !in file && file != [] && |Lines(file)| <= lines
    ensures Join(Last(Lines(file), lines)) + [NEWLINE] == if file[|file| - 1] == NEWLINE then file else file + [NEWLINE]
  {
    LinesAreTheLog(file);
  }
}
