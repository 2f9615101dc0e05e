/**
 * Which web addresses the person asked for: the real address of a well-known site they
 * named, or one they spelled out. Hosts are ASCII; the tables of well-known sites and of
 * shared endings are parameters.
 */
module Sites {
  import opened Words

  /** The labels of a host: what lies between its dots. */
  function Label(text: string): (n: nat)
    ensures n <= |text| && '.' !in text[..n]
    ensures n < |text| ==> text[n] == '.'
  {
    if text == [] || text[0] == '.' then 0
    else
      assert text[..1 + Label(text[1..])] == [text[0]] + text[1..][..Label(text[1..])];
      1 + Label(text[1..])
  }

  function SplitDots(text: string): (labels: seq<string>)
    ensures AreLabels(labels)
    decreases |text|
  {
    if text == [] then []
    else if text[0] == '.' then SplitDots(text[1..])
    else [text[..Label(text)]] + SplitDots(text[Label(text)..])
  }

  predicate AreLabels(labels: seq<string>) {
    forall i | 0 <= i < |labels| :: labels[i] != [] && '.' !in labels[i]
  }

  function WithoutFinalDot(host: string): string {
    if host != [] && host[|host| - 1] == '.' then host[..|host| - 1] else host
  }

  function WithoutWww(host: string): string {
    if "www." <= host then host[4..] else host
  }

  function Labels(host: string): (labels: seq<string>)
    ensures AreLabels(labels)
  {
    SplitDots(WithoutWww(WithoutFinalDot(Fold(host))))
  }

  function Join(labels: seq<string>, sep: string): string {
    if labels == [] then []
    else if |labels| == 1 then labels[0]
    else Join(labels[..|labels| - 1], sep) + sep + labels[|labels| - 1]
  }

  /** The last n labels, or all there are. */
  function Last(labels: seq<string>, n: nat): seq<string> {
    if n >= |labels| then labels else labels[|labels| - n..]
  }

  predicate Numeric(text: string) {
    text != [] && forall i | 0 <= i < |text| :: '0' <= text[i] <= '9'
  }

  predicate IsAddress(labels: seq<string>) {
    labels != [] && forall i | 0 <= i < |labels| :: Numeric(labels[i])
  }

  predicate SharedAt(labels: seq<string>, endings: set<string>, n: nat) {
    Join(Last(labels, n), ".") in endings
  }

  const MAX_ENDING := 3

  /** How many labels an ending can have here: up to three, with one label left to own it. */
  function MostLabels(labels: seq<string>): (n: nat)
    ensures labels != [] ==> n < |labels|
  {
    if labels == [] then 0 else if |labels| - 1 < MAX_ENDING then |labels| - 1 else MAX_ENDING
  }

  /** The longest ending of up to n labels under which names belong to different people; 0 if none. */
  function SharedLabels(labels: seq<string>, endings: set<string>, n: nat): (r: nat)
    ensures r <= n && (r > 0 ==> SharedAt(labels, endings, r))
    ensures forall m: nat | r < m <= n :: !SharedAt(labels, endings, m)
  {
    if n == 0 then 0
    else if SharedAt(labels, endings, n) then n
    else SharedLabels(labels, endings, n - 1)
  }

  /** The labels that name one owner's site. */
  function Site(labels: seq<string>, endings: set<string>): seq<string> {
    if IsAddress(labels) then labels
    else
      var n := SharedLabels(labels, endings, MostLabels(labels));
      Last(labels, if n > 0 then n + 1 else 2)
  }

  /** The last n labels are the longest shared ending, of at most three labels and with one left before it; 0 if none is. */
  ghost predicate LongestEnding(labels: seq<string>, endings: set<string>, n: nat) {
    && n < |labels| && n <= 3 && (n > 0 ==> TextOfLast(labels, n) in endings)
    && forall m | n < m <= 3 && m < |labels| :: TextOfLast(labels, m) !in endings
  }

  ghost function TextOfLast(labels: seq<string>, n: nat): string
    requires n <= |labels|
  {
    Join(labels[|labels| - n..], ".")
  }

  /** A host of numbers is its own site; of any other, the site is one label more than the longest shared ending, or else two. */
  lemma SiteMeans(labels: seq<string>, endings: set<string>) returns (n: nat)
    requires labels != []
    ensures LongestEnding(labels, endings, n)
    ensures Site(labels, endings) ==
            if forall k | 0 <= k < |labels| :: Numeric(labels[k]) then labels
            else if n > 0 then labels[|labels| - n - 1..]
            else if |labels| <= 2 then labels
            else labels[|labels| - 2..]
  {
    hide Join, Numeric;
    n := SharedLabels(labels, endings, MostLabels(labels));
    assert n > 0 ==> SharedAt(labels, endings, n);
    forall m | n < m <= 3 && m < |labels| ensures TextOfLast(labels, m) !in endings {
      assert !SharedAt(labels, endings, m);
    }
  }

  // A host is read as its labels: what is between its dots, whatever its case, its "www." and its final dot.

  lemma {:induction false} LabelOf(text: string, rest: string)
    requires '.' !in text && (rest == [] || rest[0] == '.')
    ensures Label(text + rest) == |text|
  {
    if text != [] {
      assert (text + rest)[1..] == text[1..] + rest;
      LabelOf(text[1..], rest);
    } else {
      assert text + rest == rest;
    }
  }

  /** Splitting at dots keeps the labels on both sides apart. */
  lemma {:induction false} SplitDotsAt(front: string, rest: string)
    ensures SplitDots(front + "." + rest) == SplitDots(front) + SplitDots(rest)
    decreases |front|
  {
    var all := front + "." + rest;
    if front == [] {
      assert all[1..] == rest;
    } else if front[0] == '.' {
      assert all[1..] == front[1..] + "." + rest;
      SplitDotsAt(front[1..], rest);
    } else {
      var n := Label(front);
      assert front == front[..n] + front[n..];
      assert all == front[..n] + (front[n..] + "." + rest);
      LabelOf(front[..n], front[n..] + "." + rest);
      assert all[..n] == front[..n] && all[n..] == front[n..] + "." + rest;
      SplitDotsAt(front[n..], rest);
    }
  }

  lemma SplitOneLabel(text: string)
    requires text != [] && '.' !in text
    ensures SplitDots(text) == [text]
  {
    LabelOf(text, []);
    assert text + [] == text && text[|text|..] == [];
  }

  lemma {:induction false} SplitJoined(labels: seq<string>)
    requires AreLabels(labels)
    ensures SplitDots(Join(labels, ".")) == labels
    decreases |labels|
  {
    if |labels| == 1 {
      SplitOneLabel(labels[0]);
    } else if labels != [] {
      var front, last := labels[..|labels| - 1], labels[|labels| - 1];
      SplitJoined(front);
      SplitOneLabel(last);
      SplitDotsAt(Join(front, "."), last);
    }
  }

  lemma {:induction false} JoinBeginsAndEnds(labels: seq<string>)
    requires AreLabels(labels) && labels != []
    ensures var host := Join(labels, ".");
            && host != [] && host[|host| - 1] != '.'
            && labels[0] <= host && (|host| > |labels[0]| ==> host[|labels[0]|] == '.')
    decreases |labels|
  {
    if |labels| > 1 { JoinBeginsAndEnds(labels[..|labels| - 1]); }
  }

  lemma WwwIsALabel(host: string, first: string)
    requires '.' !in first && first != [] && first <= host && (|host| > |first| ==> host[|first|] == '.')
    requires "www." <= host
    ensures first == "www"
  {
    assert host[..4] == "www.";
    assert host[0] == 'w' && host[1] == 'w' && host[2] == 'w' && host[3] == '.';
    assert first == host[..|first|];
    assert |first| == 3;
  }

  lemma NoWww(labels: seq<string>)
    requires AreLabels(labels) && labels != [] && labels[0] != "www"
    ensures !("www." <= Join(labels, "."))
  {
    JoinBeginsAndEnds(labels);
    if "www." <= Join(labels, ".") { WwwIsALabel(Join(labels, "."), labels[0]); }
  }

  /** What a host is read as: its labels, in whatever case, with or without "www." and a final dot. */
  lemma LabelsOfHost(labels: seq<string>, host: string)
    requires AreLabels(labels) && labels != [] && labels[0] != "www"
    requires Fold(host) == Join(labels, ".")
    ensures Labels(host) == labels
    ensures Labels("www." + host) == labels
    ensures Labels(host + ".") == labels
    ensures Labels("www." + host + ".") == labels
  {
    JoinBeginsAndEnds(labels);
    NoWww(labels);
    SplitJoined(labels);
    hide Join, SplitDots, Lower;
    FoldJoin("www.", host);
    FoldJoin(host, ".");
    FoldJoin("www." + host, ".");
    DotsAreFolded();
    Stripped(Fold(host));
  }

  lemma DotsAreFolded()
    ensures Fold("www.") == "www." && Fold(".") == "."
  {
  }

  lemma Stripped(host: string)
    requires host != [] && host[|host| - 1] != '.' && !("www." <= host)
    ensures WithoutWww(WithoutFinalDot(host)) == host
    ensures WithoutWww(WithoutFinalDot("www." + host)) == host
    ensures WithoutWww(WithoutFinalDot(host + ".")) == host
    ensures WithoutWww(WithoutFinalDot("www." + host + ".")) == host
  {
    assert WithoutFinalDot(host + ".") == host;
    assert WithoutFinalDot("www." + host + ".") == "www." + host;
    assert WithoutFinalDot("www." + host) == "www." + host;
    assert WithoutWww("www." + host) == host;
  }

  method SiteOf(host: string, endings: set<string>) returns (site: seq<string>)
    ensures site == Site(Labels(host), endings)
  {
    var labels := Labels(host);
    if IsAddress(labels) { return labels; }
    var n := MostLabels(labels);
    while n >= 1
      invariant 0 <= n <= MostLabels(labels)
      invariant SharedLabels(labels, endings, MostLabels(labels)) == SharedLabels(labels, endings, n)
    {
      if Join(Last(labels, n), ".") in endings { return Last(labels, n + 1); }
      n := n - 1;
    }
    return Last(labels, 2);
  }

  lemma LastOfLast(labels: seq<string>, n: nat, m: nat)
    requires m <= n <= |labels|
    ensures |Last(labels, n)| == n && Last(Last(labels, n), m) == Last(labels, m)
  {
  }

  /** A site is the end of the host, and its own site: naming it again finds the same owner. */
  lemma SiteIsItsOwnSite(labels: seq<string>, endings: set<string>)
    ensures var site := Site(labels, endings);
            && Last(labels, |site|) == site
            && Site(site, endings) == site
            && (labels != [] ==> site != [])
  {
    hide Join;
    var site, most := Site(labels, endings), MostLabels(labels);
    if !IsAddress(labels) && labels != [] {
      var n := SharedLabels(labels, endings, most);
      if n > 0 {
        LastOfLast(labels, n + 1, n);
        LastOfLast(labels, n + 1, n + 1);
        assert MostLabels(site) == n && SharedAt(site, endings, n);
      } else if |labels| >= 2 {
        LastOfLast(labels, 2, 1);
        LastOfLast(labels, 2, 2);
        assert MostLabels(site) == 1 && !SharedAt(labels, endings, 1);
        assert !SharedAt(site, endings, 1);
      }
    }
  }

  /** A dot inside an address, not a full stop between sentences. */
  predicate AddressDot(text: string, i: nat)
    requires i < |text|
  {
    text[i] == '.' && 0 < i && IsPlain(Lower(text[i - 1])) && i + 1 < |text| && IsPlain(Lower(text[i + 1]))
  }

  /** The first n characters of a text, with the dots of addresses spoken. */
  function Spoken(text: string, n: nat): string
    requires n <= |text|
  {
    if n == 0 then []
    else Spoken(text, n - 1) + if AddressDot(text, n - 1) then " dot " else [text[n - 1]]
  }

  function SpokenDots(text: string): string {
    Spoken(text, |text|)
  }

  /** Where one label is said: words lo up to hi. */
  datatype Cut = Cut(lo: nat, hi: nat)

  /** These words, run together, are the label. */
  ghost predicate CutAt(said: seq<string>, w: string, c: Cut) {
    c.lo < c.hi <= |said| && Flat(said[c.lo..c.hi]) == w
  }

  /** One label is said right after another, with "dot" in between. */
  ghost predicate DotBetween(said: seq<string>, c: Cut, d: Cut) {
    c.hi < |said| && said[c.hi] == "dot" && d.lo == c.hi + 1
  }

  /** One label after the other, each one word or several in a row, with "dot" in between. */
  ghost predicate Cuts(said: seq<string>, want: seq<string>, cuts: seq<Cut>) {
    && |cuts| == |want|
    && (forall k | 0 <= k < |cuts| :: CutAt(said, want[k], cuts[k]))
    && (forall k | 0 <= k < |cuts| - 1 :: DotBetween(said, cuts[k], cuts[k + 1]))
  }

  ghost predicate CutsFrom(said: seq<string>, want: seq<string>, i: nat) {
    exists cuts: seq<Cut> :: Cuts(said, want, cuts) && cuts != [] && cuts[0].lo == i
  }

  function Normalized(labels: seq<string>): (want: seq<string>)
    ensures |want| == |labels|
  {
    seq(|labels|, k requires 0 <= k < |labels| => Normalize(labels[k]))
  }

  /** The labels are said somewhere, and every one has a letter or digit to say. */
  ghost predicate Spelled(labels: seq<string>, said: seq<string>) {
    [] !in Normalized(labels) && exists cuts: seq<Cut> :: Cuts(said, Normalized(labels), cuts)
  }

  /** Only one run of words from here can be the label, so the first found is the only one to try. */
  lemma OneRunMatches(said: seq<string>, i: nat, j: nat, k: nat)
    requires AreWords(said) && i <= j <= |said| && i <= k <= |said|
    requires Flat(said[i..j]) == Flat(said[i..k])
    ensures j == k
  {
    if j <= k { LongerRuns(said, i, j, k); } else { LongerRuns(said, i, k, j); }
  }

  lemma CutsBegin(said: seq<string>, want: seq<string>, i: nat, e: nat)
    requires AreWords(said) && i < e <= |said| && |want| > 1 && Flat(said[i..e]) == want[0]
    ensures CutsFrom(said, want, i) <==> e < |said| && said[e] == "dot" && CutsFrom(said, want[1..], e + 1)
  {
    forall cuts: seq<Cut> | Cuts(said, want, cuts) && cuts != [] && cuts[0].lo == i
      ensures e < |said| && said[e] == "dot" && CutsFrom(said, want[1..], e + 1)
    {
      OneRunMatches(said, i, e, cuts[0].hi);
      CutsRest(said, want, cuts);
    }
    if e < |said| && said[e] == "dot" && CutsFrom(said, want[1..], e + 1) {
      var rest: seq<Cut> :| Cuts(said, want[1..], rest) && rest != [] && rest[0].lo == e + 1;
      CutsLonger(said, want, Cut(i, e), rest);
      assert ([Cut(i, e)] + rest)[0].lo == i;
    }
  }

  lemma CutsRest(said: seq<string>, want: seq<string>, cuts: seq<Cut>)
    requires Cuts(said, want, cuts) && |cuts| > 1
    ensures Cuts(said, want[1..], cuts[1..]) && cuts[1..][0].lo == cuts[0].hi + 1
  {
    assert DotBetween(said, cuts[0], cuts[1]);
    hide CutAt, DotBetween;
    var rest := cuts[1..];
    assert forall k | 0 <= k < |rest| :: rest[k] == cuts[k + 1] && want[1..][k] == want[k + 1];
  }

  lemma CutsLonger(said: seq<string>, want: seq<string>, first: Cut, rest: seq<Cut>)
    requires |want| > 1 && Cuts(said, want[1..], rest)
    requires CutAt(said, want[0], first) && DotBetween(said, first, rest[0])
    ensures Cuts(said, want, [first] + rest)
  {
    hide CutAt, DotBetween;
    var cuts := [first] + rest;
    assert forall k | 1 <= k < |cuts| :: cuts[k] == rest[k - 1] && want[k] == want[1..][k - 1];
    forall k | 0 <= k < |cuts| - 1 ensures DotBetween(said, cuts[k], cuts[k + 1]) {
      if k > 0 { assert cuts[k] == rest[k - 1] && cuts[k + 1] == rest[k]; }
    }
  }

  /** The labels from the k-th on, said from word i on: stops at the first run that is the label. */
  method From(said: seq<string>, want: seq<string>, i: nat, k: nat) returns (found: bool)
    requires AreWords(said) && k < |want| && [] !in want
    ensures found <==> CutsFrom(said, want[k..], i)
    decreases |want| - k
  {
    var run: string := [];
    var j := i;
    assert i <= |said| ==> said[i..i] == [];
    while j < |said| && |run| < |want[k]|
      invariant i <= j && (j <= |said| || j == i) && (j <= |said| ==> run == Flat(said[i..j]))
      invariant forall b | i < b <= j :: b <= |said| && Flat(said[i..b]) != want[k]
    {
      OneMoreWord(said, i, j);
      run := run + said[j];
      if run == want[k] {
        if k == |want| - 1 {
          assert Cuts(said, want[k..], [Cut(i, j + 1)]) && [Cut(i, j + 1)][0].lo == i;
          return true;
        }
        CutsBegin(said, want[k..], i, j + 1);
        assert want[k..][1..] == want[k + 1..];
        if j + 1 < |said| && said[j + 1] == "dot" {
          found := From(said, want, j + 2, k + 1);
          return;
        }
        return false;
      }
      j := j + 1;
    }
    NoneLater(said, want[k..], i, j, run);
    return false;
  }

  /** Once the run is as long as the label and no run so far was the label, no longer one is. */
  lemma NoneLater(said: seq<string>, want: seq<string>, i: nat, j: nat, run: string)
    requires AreWords(said) && want != [] && want[0] != []
    requires i <= j && (j <= |said| || j == i) && (j <= |said| ==> run == Flat(said[i..j]))
    requires j >= |said| || |run| >= |want[0]|
    requires forall b | i < b <= j :: b <= |said| && Flat(said[i..b]) != want[0]
    ensures !CutsFrom(said, want, i)
  {
    if CutsFrom(said, want, i) {
      var cuts: seq<Cut> :| Cuts(said, want, cuts) && cuts != [] && cuts[0].lo == i;
      LongerRuns(said, i, j, cuts[0].hi);
      assert false;
    }
  }

  lemma CutsStartSomewhere(said: seq<string>, want: seq<string>)
    requires want != []
    ensures (exists cuts: seq<Cut> :: Cuts(said, want, cuts)) ==> exists i: nat | i < |said| :: CutsFrom(said, want, i)
  {
    forall cuts: seq<Cut> | Cuts(said, want, cuts) ensures exists i: nat | i < |said| :: CutsFrom(said, want, i) {
      assert cuts[0].lo < |said| && CutsFrom(said, want, cuts[0].lo);
    }
  }

  method SpelledOut(labels: seq<string>, said: seq<string>) returns (found: bool)
    requires labels != [] && AreWords(said)
    ensures found <==> Spelled(labels, said)
  {
    var want := Normalized(labels);
    if [] in want { return false; }
    var i := 0;
    while i < |said|
      invariant 0 <= i <= |said|
      invariant forall a: nat | a < i :: !CutsFrom(said, want, a)
    {
      var here := From(said, want, i, 0);
      assert want[0..] == want;
      if here { return true; }
      i := i + 1;
    }
    CutsStartSomewhere(said, want);
    return false;
  }

  /** A well-known site: the names people call it, and the domains that are its own. */
  datatype KnownSite = KnownSite(names: seq<string>, domains: set<string>)

  /** One of the names of a site that owns the domain was said. */
  ghost predicate KnownBy(known: KnownSite, domain: string, words: string) {
    domain in known.domains && exists n | 0 <= n < |known.names| :: Named(known.names[n], words)
  }

  /** The person asked for this address. */
  ghost predicate SiteNamed(host: string, words: string, endings: set<string>, sites: seq<KnownSite>) {
    var site := Site(Labels(host), endings);
    && site != []
    && (|| Spelled(site, WordsOf(SpokenDots(words)))
        || exists s | 0 <= s < |sites| :: KnownBy(sites[s], Join(site, "."), words))
  }

  method NameSaid(known: KnownSite, domain: string, words: string) returns (said: bool)
    ensures said <==> KnownBy(known, domain, words)
  {
    hide Named;
    if domain !in known.domains { return false; }
    for n := 0 to |known.names|
      invariant forall p | 0 <= p < n :: !Named(known.names[p], words)
    {
      var named := SaidIn(known.names[n], words);
      if named { return true; }
    }
    return false;
  }

  method SiteSaidIn(host: string, words: string, endings: set<string>, sites: seq<KnownSite>) returns (said: bool)
    ensures said <==> SiteNamed(host, words, endings, sites)
  {
    hide Spelled, KnownBy, Site, SpokenDots;
    var site := SiteOf(host, endings);
    if |site| == 0 { return false; }
    var spelled := SpelledOut(site, WordsOf(SpokenDots(words)));
    if spelled { return true; }
    var domain := Join(site, ".");
    for s := 0 to |sites|
      invariant forall p | 0 <= p < s :: !KnownBy(sites[p], domain, words)
    {
      var known := NameSaid(sites[s], domain, words);
      if known { return true; }
    }
    return false;
  }

  // Saying more never takes an address back.

  lemma {:induction false} SpokenPrefix(a: string, b: string, n: nat)
    requires n <= |a| && (b == [] || !IsPlain(Lower(b[0])))
    ensures Spoken(a + b, n) == Spoken(a, n)
  {
    if n > 0 { SpokenPrefix(a, b, n - 1); }
  }

  lemma {:induction false} SpokenSuffix(a: string, b: string, n: nat)
    requires n <= |b| && (a == [] || !IsPlain(Lower(a[|a| - 1])))
    ensures Spoken(a + b, |a| + n) == Spoken(a + b, |a|) + Spoken(b, n)
  {
    if n > 0 {
      SpokenSuffix(a, b, n - 1);
      assert (a + b)[|a| + n - 1] == b[n - 1];
    }
  }

  lemma SpokenBoth(a: string, b: string)
    ensures SpokenDots(a + " " + b) == SpokenDots(a) + " " + SpokenDots(b)
  {
    SpokenSuffix(a + " ", b, |b|);
    assert a + " " + b == a + (" " + b);
    SpokenPrefix(a, " " + b, |a|);
    assert Spoken(a + " " + b, |a| + 1) == Spoken(a + " " + b, |a|) + " ";
  }

  function Moved(c: Cut, words: nat): Cut {
    Cut(c.lo + words, c.hi + words)
  }

  lemma CutMoves(before: seq<string>, said: seq<string>, after: seq<string>, w: string, c: Cut)
    requires CutAt(said, w, c)
    ensures CutAt(before + said + after, w, Moved(c, |before|))
  {
    var all, m := before + said + after, Moved(c, |before|);
    assert all[m.lo..m.hi] == said[c.lo..c.hi];
  }

  lemma DotMoves(before: seq<string>, said: seq<string>, after: seq<string>, c: Cut, d: Cut)
    requires DotBetween(said, c, d)
    ensures DotBetween(before + said + after, Moved(c, |before|), Moved(d, |before|))
  {
  }

  lemma CutsMove(before: seq<string>, said: seq<string>, after: seq<string>, want: seq<string>, cuts: seq<Cut>)
    requires Cuts(said, want, cuts)
    ensures Cuts(before + said + after, want, seq(|cuts|, k requires 0 <= k < |cuts| => Moved(cuts[k], |before|)))
  {
    hide CutAt, DotBetween, Moved;
    var moved := seq(|cuts|, k requires 0 <= k < |cuts| => Moved(cuts[k], |before|));
    forall k | 0 <= k < |moved| ensures CutAt(before + said + after, want[k], moved[k]) {
      CutMoves(before, said, after, want[k], cuts[k]);
    }
    forall k | 0 <= k < |moved| - 1 ensures DotBetween(before + said + after, moved[k], moved[k + 1]) {
      DotMoves(before, said, after, cuts[k], cuts[k + 1]);
    }
  }

  /** A full stop between sentences is not a "dot". */
  lemma SentenceEndIsNoDot(a: string, b: string)
    ensures WordsOf(SpokenDots(a + ". " + b)) == WordsOf(SpokenDots(a)) + WordsOf(SpokenDots(b))
  {
    assert a + ". " + b == (a + ".") + " " + b;
    SpokenBoth(a + ".", b);
    SpokenUpToStop(a);
    WordsOfBoth(SpokenDots(a) + ".", SpokenDots(b));
    FoldJoin(SpokenDots(a), ".");
    assert Fold(".") == "." && Split([]) == [];
    SplitAt(Fold(SpokenDots(a)), '.', []);
    assert Fold(SpokenDots(a)) + "." + [] == Fold(SpokenDots(a)) + ".";
  }

  lemma SpokenUpToStop(a: string)
    ensures SpokenDots(a + ".") == SpokenDots(a) + "."
  {
    SpokenPrefix(a, ".", |a|);
  }

  lemma MoreWordsStillSpelled(labels: seq<string>, before: seq<string>, said: seq<string>, after: seq<string>)
    requires Spelled(labels, said)
    ensures Spelled(labels, before + said + after)
  {
    hide Cuts;
    var cuts: seq<Cut> :| Cuts(said, Normalized(labels), cuts);
    CutsMove(before, said, after, Normalized(labels), cuts);
  }

  lemma SayingMoreStillAsks(host: string, before: string, words: string, after: string,
                            endings: set<string>, sites: seq<KnownSite>)
    requires SiteNamed(host, words, endings, sites)
    ensures SiteNamed(host, before + " " + words + " " + after, endings, sites)
  {
    var site, all := Site(Labels(host), endings), before + " " + words + " " + after;
    if Spelled(site, WordsOf(SpokenDots(words))) {
      SpokenBoth(before + " " + words, after);
      SpokenBoth(before, words);
      WordsOfBoth(SpokenDots(before) + " " + SpokenDots(words), SpokenDots(after));
      WordsOfBoth(SpokenDots(before), SpokenDots(words));
      MoreWordsStillSpelled(site, WordsOf(SpokenDots(before)), WordsOf(SpokenDots(words)), WordsOf(SpokenDots(after)));
    } else {
      var s :| 0 <= s < |sites| && KnownBy(sites[s], Join(site, "."), words);
      var n :| 0 <= n < |sites[s].names| && Named(sites[s].names[n], words);
      SayingMoreStillNames(sites[s].names[n], before, words, after);
      assert KnownBy(sites[s], Join(site, "."), all);
    }
  }

  // An address as it is written, read out of a transcript, asks for itself.

  /** A label as hosts have them: no dots, and a letter or digit at both ends. */
  predicate HostLabel(text: string) {
    text != [] && '.' !in text && IsPlain(Lower(text[0])) && IsPlain(Lower(text[|text| - 1]))
  }

  lemma {:induction false} SpokenCopies(text: string, m: nat, n: nat)
    requires m <= n <= |text| && '.' !in text[m..n]
    ensures Spoken(text, n) == Spoken(text, m) + text[m..n]
  {
    if m < n {
      assert text[m..n] == text[m..n - 1] + [text[n - 1]];
      SpokenCopies(text, m, n - 1);
    }
  }

  lemma {:induction false} SpokenUpTo(a: string, b: string, n: nat)
    requires n < |a| || (n == |a| && (a == [] || a[|a| - 1] != '.'))
    ensures Spoken(a + b, n) == Spoken(a, n)
    decreases n
  {
    if n > 0 { SpokenUpTo(a, b, n - 1); }
  }

  lemma DotIsSpoken(front: string, last: string)
    requires front != [] && IsPlain(Lower(front[|front| - 1])) && HostLabel(last)
    ensures SpokenDots(front + "." + last) == SpokenDots(front) + " dot " + last
  {
    var all := front + "." + last;
    assert all == front + ("." + last);
    SpokenUpTo(front, "." + last, |front|);
    assert AddressDot(all, |front|);
    assert all[|front| + 1..|all|] == last;
    SpokenCopies(all, |front| + 1, |all|);
  }

  /** The dots between host labels are all spoken. */
  lemma {:induction false} SpokenJoin(labels: seq<string>)
    requires labels != [] && forall k | 0 <= k < |labels| :: HostLabel(labels[k])
    ensures SpokenDots(Join(labels, ".")) == Join(labels, " dot ")
    ensures var joined := Join(labels, "."); joined != [] && IsPlain(Lower(joined[|joined| - 1]))
    decreases |labels|
  {
    var last := labels[|labels| - 1];
    if |labels| == 1 {
      SpokenCopies(last, 0, |last|);
      assert last[0..|last|] == last;
    } else {
      var front := Join(labels[..|labels| - 1], ".");
      var all := Join(labels, ".");
      SpokenJoin(labels[..|labels| - 1]);
      DotIsSpoken(front, last);
    }
  }

  /** The words said for labels: each label's words, with "dot" in between. */
  function LabelWords(labels: seq<string>): (said: seq<string>)
    ensures AreWords(said)
  {
    if labels == [] then []
    else if |labels| == 1 then WordsOf(labels[0])
    else LabelWords(labels[..|labels| - 1]) + ["dot"] + WordsOf(labels[|labels| - 1])
  }

  lemma {:induction false} WordsOfJoin(labels: seq<string>)
    ensures WordsOf(Join(labels, " dot ")) == LabelWords(labels)
    decreases |labels|
  {
    if |labels| > 1 {
      var front, last := Join(labels[..|labels| - 1], " dot "), labels[|labels| - 1];
      WordsOfJoin(labels[..|labels| - 1]);
      assert Join(labels, " dot ") == front + " " + "dot" + " " + last;
      WordsOfBoth(front + " " + "dot", last);
      WordsOfBoth(front, "dot");
      assert Fold("dot") == "dot";
      SplitOne("dot");
    }
  }

  lemma CutStays(said: seq<string>, more: seq<string>, w: string, c: Cut)
    requires CutAt(said, w, c)
    ensures CutAt(said + more, w, c)
  {
    assert (said + more)[c.lo..c.hi] == said[c.lo..c.hi];
  }

  lemma DotStays(said: seq<string>, more: seq<string>, c: Cut, d: Cut)
    requires DotBetween(said, c, d)
    ensures DotBetween(said + more, c, d)
  {
  }

  lemma CutAtTheEnd(front: seq<string>, last: seq<string>, w: string)
    requires last != [] && Flat(last) == w
    ensures CutAt(front + last, w, Cut(|front|, |front| + |last|))
  {
    hide Flat;
    assert (front + last)[|front|..|front| + |last|] == last;
  }

  lemma DotAtTheEnd(said: seq<string>, c: Cut, last: seq<string>, d: Cut)
    requires c.hi == |said| && d.lo == |said| + 1
    ensures DotBetween(said + ["dot"] + last, c, d)
  {
    assert (said + ["dot"])[|said|] == "dot";
  }

  lemma CutsStay(said: seq<string>, want: seq<string>, more: seq<string>, cuts: seq<Cut>)
    requires Cuts(said, want, cuts)
    ensures Cuts(said + more, want, cuts)
  {
    hide CutAt, DotBetween;
    forall k | 0 <= k < |cuts| ensures CutAt(said + more, want[k], cuts[k]) {
      CutStays(said, more, want[k], cuts[k]);
    }
    forall k | 0 <= k < |cuts| - 1 ensures DotBetween(said + more, cuts[k], cuts[k + 1]) {
      DotStays(said, more, cuts[k], cuts[k + 1]);
    }
  }

  lemma CutsEnd(all: seq<string>, want: seq<string>, cuts: seq<Cut>, w: string, end: Cut)
    requires Cuts(all, want, cuts) && cuts != []
    requires CutAt(all, w, end) && DotBetween(all, cuts[|cuts| - 1], end)
    ensures Cuts(all, want + [w], cuts + [end])
  {
    hide CutAt, DotBetween;
    var more := cuts + [end];
    forall k | 0 <= k < |more| - 1 ensures DotBetween(all, more[k], more[k + 1]) {
      assert more[k] == cuts[k];
    }
  }

  lemma OneMoreCut(said: seq<string>, want: seq<string>, cuts: seq<Cut>, last: seq<string>, w: string)
    requires Cuts(said, want, cuts) && cuts != [] && cuts[|cuts| - 1].hi == |said|
    requires last != [] && Flat(last) == w
    ensures Cuts(said + ["dot"] + last, want + [w], cuts + [Cut(|said| + 1, |said| + 1 + |last|)])
  {
    hide Cuts, CutAt, DotBetween, Flat;
    CutsStay(said, want, ["dot"], cuts);
    CutsStay(said + ["dot"], want, last, cuts);
    CutAtTheEnd(said + ["dot"], last, w);
    DotAtTheEnd(said, cuts[|cuts| - 1], last, Cut(|said| + 1, |said| + 1 + |last|));
    CutsEnd(said + ["dot"] + last, want, cuts, w, Cut(|said| + 1, |said| + 1 + |last|));
  }

  /** The cuts go to the last word said. */
  ghost predicate SpellsAll(said: seq<string>, want: seq<string>) {
    exists cuts: seq<Cut> :: Cuts(said, want, cuts) && cuts != [] && cuts[|cuts| - 1].hi == |said|
  }

  lemma OneMoreSpelled(said: seq<string>, want: seq<string>, last: seq<string>, w: string)
    requires SpellsAll(said, want) && last != [] && Flat(last) == w
    ensures SpellsAll(said + ["dot"] + last, want + [w])
  {
    hide Cuts, Flat;
    var cuts: seq<Cut> :| Cuts(said, want, cuts) && cuts != [] && cuts[|cuts| - 1].hi == |said|;
    OneMoreCut(said, want, cuts, last, w);
    assert (cuts + [Cut(|said| + 1, |said| + 1 + |last|)])[|cuts|].hi == |said + ["dot"] + last|;
  }

  lemma OneSpelled(said: seq<string>, w: string)
    requires said != [] && Flat(said) == w
    ensures SpellsAll(said, [w])
  {
    assert said[0..|said|] == said;
    var cuts := [Cut(0, |said|)];
    assert Cuts(said, [w], cuts) && cuts[|cuts| - 1].hi == |said|;
  }

  lemma {:induction false} LabelWordsSpell(labels: seq<string>)
    requires labels != [] && forall k | 0 <= k < |labels| :: Normalize(labels[k]) != []
    ensures SpellsAll(LabelWords(labels), Normalized(labels))
    decreases |labels|
  {
    hide Normalize, WordsOf, SpellsAll;
    var last := labels[|labels| - 1];
    LabelSpells(last);
    if |labels| == 1 {
      assert Normalized(labels) == [Normalize(last)];
      OneSpelled(WordsOf(last), Normalize(last));
    } else {
      var front := labels[..|labels| - 1];
      assert Normalized(labels) == Normalized(front) + [Normalize(last)];
      LabelWordsSpell(front);
      OneMoreSpelled(LabelWords(front), Normalized(front), WordsOf(last), Normalize(last));
    }
  }

  lemma LabelSpells(text: string)
    ensures Flat(WordsOf(text)) == Normalize(text)
    ensures Normalize(text) != [] ==> WordsOf(text) != []
  {
    SplitKeepsAll(Fold(text));
  }

  /** A transcript that reads the address of a site spells it out. */
  lemma AddressNamesItself(labels: seq<string>)
    requires labels != [] && forall k | 0 <= k < |labels| :: HostLabel(labels[k])
    ensures Spelled(labels, WordsOf(SpokenDots(Join(labels, "."))))
  {
    SpokenJoin(labels);
    WordsOfJoin(labels);
    forall k | 0 <= k < |labels| ensures Normalize(labels[k]) != [] {
      assert Fold(labels[k])[0] == Lower(labels[k][0]);
    }
    LabelWordsSpell(labels);
  }
}
