/**
 * Matching names against what the person said: loose about case, punctuation and spacing,
 * strict about the words themselves. Text is ASCII, where folding is lower-casing.
 */
module Words {
  predicate IsPlain(c: char) {
    'a' <= c <= 'z' || '0' <= c <= '9'
  }

  function Lower(c: char): char {
    if 'A' <= c <= 'Z' then 'a' + (c - 'A') else c
  }

  function Fold(text: string): (r: string)
    ensures |r| == |text|
  {
    seq(|text|, i requires 0 <= i < |text| => Lower(text[i]))
  }

  /** The same character, or the same letter in the other case. */
  predicate SameButCase(a: char, b: char) {
    || a == b
    || ('A' <= a <= 'Z' && b as int == a as int + 32)
    || ('A' <= b <= 'Z' && a as int == b as int + 32)
  }

  /** Texts fold alike exactly when they differ in nothing but case. */
  lemma FoldedAlike(a: string, b: string)
    ensures Fold(a) == Fold(b) <==> |a| == |b| && forall i | 0 <= i < |a| :: SameButCase(a[i], b[i])
  {
    if Fold(a) == Fold(b) {
      forall i | 0 <= i < |a| ensures SameButCase(a[i], b[i]) {
        assert Fold(a)[i] == Fold(b)[i];
      }
    }
  }

  /** What words are made of, of either case. */
  lemma LettersAndDigits(c: char)
    ensures IsPlain(Lower(c)) <==> 'a' <= c <= 'z' || 'A' <= c <= 'Z' || '0' <= c <= '9'
  {
  }

  /** A string of letters and digits only, all folded. */
  predicate Plain(text: string) {
    forall i | 0 <= i < |text| :: IsPlain(text[i])
  }

  /** What is left of a folded text without everything but letters and digits. */
  function Kept(text: string): (r: string)
    ensures Plain(r)
  {
    if text == [] then []
    else if IsPlain(text[0]) then [text[0]] + Kept(text[1..])
    else Kept(text[1..])
  }

  function Normalize(text: string): (r: string)
    ensures Plain(r)
  {
    Kept(Fold(text))
  }

  /** How many letters and digits a folded text begins with. */
  function Run(text: string): (n: nat)
    ensures n <= |text| && Plain(text[..n])
    ensures n < |text| ==> !IsPlain(text[n])
  {
    if text == [] || !IsPlain(text[0]) then 0
    else
      assert text[..1 + Run(text[1..])] == [text[0]] + text[1..][..Run(text[1..])];
      1 + Run(text[1..])
  }

  /** The words of a folded text: what lies between anything else. */
  function Split(text: string): (words: seq<string>)
    ensures AreWords(words)
    decreases |text|
  {
    if text == [] then []
    else if !IsPlain(text[0]) then Split(text[1..])
    else [text[..Run(text)]] + Split(text[Run(text)..])
  }

  function WordsOf(text: string): (words: seq<string>)
    ensures AreWords(words)
  {
    Split(Fold(text))
  }

  predicate AreWords(words: seq<string>) {
    forall i | 0 <= i < |words| :: words[i] != [] && Plain(words[i])
  }

  /** Words run together. */
  function Flat(words: seq<string>): string {
    if words == [] then [] else Flat(words[..|words| - 1]) + words[|words| - 1]
  }

  lemma {:induction false} FlatJoin(a: seq<string>, b: seq<string>)
    ensures Flat(a + b) == Flat(a) + Flat(b)
    decreases |b|
  {
    if b == [] {
      assert a + b == a;
    } else {
      FlatJoin(a, b[..|b| - 1]);
      assert (a + b)[..|a + b| - 1] == a + b[..|b| - 1];
      assert (a + b)[|a + b| - 1] == b[|b| - 1];
    }
  }

  /** The words of a text, run together, are its letters and digits: no word is lost, cut or invented. */
  lemma {:induction false} SplitKeepsAll(text: string)
    ensures Flat(Split(text)) == Kept(text)
    decreases |text|
  {
    if text == [] {
    } else if !IsPlain(text[0]) {
      SplitKeepsAll(text[1..]);
    } else {
      var n := Run(text);
      SplitKeepsAll(text[n..]);
      FlatJoin([text[..n]], Split(text[n..]));
      KeptPlain(text[..n], text[n..]);
      assert Flat([text[..n]]) == Flat([]) + text[..n];
      assert text == text[..n] + text[n..];
    }
  }

  lemma {:induction false} KeptPlain(a: string, b: string)
    requires Plain(a)
    ensures Kept(a + b) == a + Kept(b)
  {
    if a == [] {
      assert a + b == b;
    } else {
      KeptPlain(a[1..], b);
      assert (a + b)[1..] == a[1..] + b;
      assert a == [a[0]] + a[1..];
    }
  }

  lemma RunStops(a: string, sep: char, b: string)
    requires !IsPlain(sep)
    ensures Run(a + [sep] + b) == Run(a)
  {
    if a == [] || !IsPlain(a[0]) {
    } else {
      RunStops(a[1..], sep, b);
      assert (a + [sep] + b)[1..] == a[1..] + [sep] + b;
    }
  }

  /** Anything but a letter or digit ends a word. */
  lemma {:induction false} SplitAt(a: string, sep: char, b: string)
    requires !IsPlain(sep)
    ensures Split(a + [sep] + b) == Split(a) + Split(b)
    decreases |a|
  {
    var all := a + [sep] + b;
    SplitUnrolled(all);
    SplitUnrolled(a);
    RunStops(a, sep, b);
    hide Split, Run;
    if a == [] {
      assert all[1..] == b && Split(a) + Split(b) == Split(b);
    } else if !IsPlain(a[0]) {
      SplitAt(a[1..], sep, b);
      assert all[1..] == a[1..] + [sep] + b;
    } else {
      var n := Run(a);
      SplitAt(a[n..], sep, b);
      assert all[..n] == a[..n] && all[n..] == a[n..] + [sep] + b;
    }
  }

  lemma SplitUnrolled(text: string)
    ensures Split([]) == []
    ensures text != [] && !IsPlain(text[0]) ==> Split(text) == Split(text[1..])
    ensures text != [] && IsPlain(text[0]) ==> Run(text) > 0 && Split(text) == [text[..Run(text)]] + Split(text[Run(text)..])
  {
  }

  lemma SplitOne(text: string)
    requires Plain(text) && text != []
    ensures Split(text) == [text]
  {
    assert Run(text) == |text|;
    assert text[..|text|] == text && Split(text[|text|..]) == [];
  }

  lemma FoldJoin(a: string, b: string)
    ensures Fold(a + b) == Fold(a) + Fold(b)
  {
  }

  /** Words said in two stretches, with a space between them, are the words of both. */
  lemma WordsOfBoth(a: string, b: string)
    ensures WordsOf(a + " " + b) == WordsOf(a) + WordsOf(b)
  {
    FoldJoin(a + " ", b);
    FoldJoin(a, " ");
    assert Fold(" ") == " ";
    SplitAt(Fold(a), ' ', Fold(b));
  }

  /** How many letters and digits, of either case, a text ends with. */
  function Ending(text: string): (n: nat)
    ensures n <= |text| && forall i | |text| - n <= i < |text| :: IsPlain(Lower(text[i]))
    ensures n < |text| ==> !IsPlain(Lower(text[|text| - n - 1]))
  {
    if text == [] || !IsPlain(Lower(text[|text| - 1])) then 0
    else 1 + Ending(text[..|text| - 1])
  }

  const MAX_EXTENSION := 6

  /** A file name's extension at position k: a dot, and one to six letters and digits to the end. */
  predicate ExtensionAt(name: string, k: nat) {
    && k < |name| && name[k] == '.'
    && 1 <= |name| - k - 1 <= 6
    && forall i | k < i < |name| :: IsPlain(Lower(name[i]))
  }

  /** The name without its extension, if it has one. */
  function Stem(name: string): string {
    var n := Ending(name);
    if 1 <= n <= MAX_EXTENSION && n < |name| && name[|name| - n - 1] == '.' then name[..|name| - n - 1] else name
  }

  /** There is at most one extension, and the stem is what comes before it. */
  lemma StemCutsTheExtension(name: string)
    ensures forall k: nat | ExtensionAt(name, k) :: Stem(name) == name[..k]
    ensures (forall k: nat | k < |name| :: !ExtensionAt(name, k)) ==> Stem(name) == name
  {
    var n := Ending(name);
    forall k: nat | ExtensionAt(name, k) ensures Stem(name) == name[..k] {
      assert !IsPlain(Lower('.'));
      assert k == |name| - n - 1;
    }
    if Stem(name) != name {
      assert ExtensionAt(name, |name| - n - 1);
    }
  }

  /** What counts as the name: all of it, or its stem. */
  function Wanted(name: string): (w: set<string>)
    ensures [] !in w
  {
    {Normalize(name), Normalize(Stem(name))} - {[]}
  }

  /** Words i to j of what was said, run together, are the name or its stem. */
  predicate RunNames(said: seq<string>, i: nat, j: nat, wanted: set<string>) {
    i < j <= |said| && Flat(said[i..j]) in wanted
  }

  /** The name is one of the words said, or several of them in a row. */
  predicate Named(name: string, words: string) {
    var said := WordsOf(words);
    Normalize(name) != [] && exists i, j | 0 <= i < j <= |said| :: RunNames(said, i, j, Wanted(name))
  }

  /** Neither a name nor what is said depends on case. */
  lemma CaseMakesNoDifference(name: string, name': string, words: string, words': string)
    requires Fold(name) == Fold(name') && Fold(words) == Fold(words')
    ensures Normalize(name) == Normalize(name') && WordsOf(words) == WordsOf(words')
    ensures Named(name, words) == Named(name', words')
  {
    FoldedAlike(name, name');
    EndingAlike(name, name');
    var n := Ending(name);
    assert Fold(Stem(name)) == Fold(Stem(name')) by {
      if n < |name| { assert Fold(name)[|name| - n - 1] == Fold(name')[|name| - n - 1]; }
      FoldedAlike(Stem(name), Stem(name'));
    }
    assert Wanted(name) == Wanted(name') && WordsOf(words) == WordsOf(words');
    NamedByWanted(name, words);
    NamedByWanted(name', words');
  }

  lemma NamedByWanted(name: string, words: string)
    ensures Named(name, words) <==> Normalize(name) != [] && NamedIn(WordsOf(words), Wanted(name))
  {
  }

  predicate NamedIn(said: seq<string>, wanted: set<string>) {
    exists i, j | 0 <= i < j <= |said| :: RunNames(said, i, j, wanted)
  }

  lemma {:induction false} EndingAlike(a: string, b: string)
    requires |a| == |b| && forall i | 0 <= i < |a| :: SameButCase(a[i], b[i])
    ensures Ending(a) == Ending(b)
  {
    if a != [] { EndingAlike(a[..|a| - 1], b[..|b| - 1]); }
  }

  /** Words are not empty, so a longer run of them is a longer text. */
  lemma {:induction false} LongerRuns(said: seq<string>, i: nat, j: nat, k: nat)
    requires AreWords(said) && i <= j <= k <= |said|
    ensures |Flat(said[i..k])| >= |Flat(said[i..j])| + (k - j)
    decreases k
  {
    if j < k {
      LongerRuns(said, i, j, k - 1);
      assert said[i..k][..k - i - 1] == said[i..k - 1];
    }
  }

  lemma OneMoreWord(said: seq<string>, i: nat, j: nat)
    requires i <= j < |said|
    ensures Flat(said[i..j + 1]) == Flat(said[i..j]) + said[j]
  {
    assert said[i..j + 1][..j - i] == said[i..j];
  }

  /** The search: from every word, grow a run until it matches or is too long to. */
  method SaidIn(name: string, words: string) returns (named: bool)
    ensures named == Named(name, words)
  {
    var whole := Normalize(name);
    if whole == [] { return false; }
    var stem := Normalize(Stem(name));
    var wanted := {whole, stem} - {[]};
    assert wanted == Wanted(name);
    var longest := if |stem| > |whole| then |stem| else |whole|;
    var said := WordsOf(words);
    var i := 0;
    while i < |said|
      invariant 0 <= i <= |said|
      invariant forall a, b | 0 <= a < i && a < b <= |said| :: !RunNames(said, a, b, wanted)
    {
      var run: string := [];
      var j := i;
      while j < |said| && |run| < longest
        invariant i <= j <= |said| && run == Flat(said[i..j])
        invariant forall b | i < b <= j :: !RunNames(said, i, b, wanted)
      {
        OneMoreWord(said, i, j);
        run := run + said[j];
        j := j + 1;
        if run in wanted {
          assert RunNames(said, i, j, wanted);
          return true;
        }
      }
      forall b | i < b <= |said| ensures !RunNames(said, i, b, wanted) {
        if b > j {
          LongerRuns(said, i, j, b);
          assert |Flat(said[i..b])| > longest;
        }
      }
      i := i + 1;
    }
    return false;
  }

  /** Saying a name, with its punctuation and spacing or without, names it. */
  lemma NameNamesItself(name: string)
    requires Normalize(name) != []
    ensures Named(name, name)
  {
    SplitKeepsAll(Fold(name));
    var said := WordsOf(name);
    assert said[0..|said|] == said;
    assert RunNames(said, 0, |said|, Wanted(name));
  }

  /** Saying more, before or after, never takes a name back. */
  lemma SayingMoreStillNames(name: string, before: string, words: string, after: string)
    requires Named(name, words)
    ensures Named(name, before + " " + words + " " + after)
  {
    WordsOfBoth(before + " " + words, after);
    WordsOfBoth(before, words);
    var some, all := WordsOf(words), WordsOf(before + " " + words + " " + after);
    var lead := |WordsOf(before)|;
    var i, j :| 0 <= i < j <= |some| && RunNames(some, i, j, Wanted(name));
    assert all[lead + i..lead + j] == some[i..j];
    assert RunNames(all, lead + i, lead + j, Wanted(name));
  }

  /** A piece of a word never names anything: a name inside one word is that whole word. */
  lemma PieceOfAWordIsNoName(name: string, word: string)
    requires Plain(word) && word != []
    ensures Named(name, word) <==> Normalize(name) != [] && word in Wanted(name)
  {
    assert Fold(word) == word;
    SplitOne(word);
    var said := WordsOf(word);
    assert said[0..1] == said == [word] && said[..0] == [];
    assert Flat(said) == [] + word == word;
    if Normalize(name) != [] && word in Wanted(name) {
      assert RunNames(said, 0, 1, Wanted(name));
    }
  }
}
