/**
 * Namespace names and the object-storage keys built from them.
 *
 * The store (MemoryStore.dfy) talks about keys as values; the lemmas here show that
 * the key texts the sidecar really sends keep those values apart, and that listing by
 * a namespace's prefix returns that namespace's keys and no others.
 */
module ArchiveKeys {
  import opened Wrappers

  const MAX_NAME := 200

  /** What Python strips around a text, of ASCII. */
  predicate IsSpace(ch: char) {
    ch == ' ' || '\t' <= ch <= '\r' || '\U{001C}' <= ch <= '\U{001F}'
  }

  predicate IsAllowed(ch: char) {
    || 'a' <= ch <= 'z'
    || 'A' <= ch <= 'Z'
    || '0' <= ch <= '9'
    || ch in "-_:.@/"
  }

  predicate AllAllowed(s: string) {
    forall i | 0 <= i < |s| :: IsAllowed(s[i])
  }

  predicate DotDotAt(s: string, i: nat) {
    i + 1 < |s| && s[i] == '.' && s[i + 1] == '.'
  }

  predicate HasDotDot(s: string) {
    exists i | 0 <= i < |s| :: DotDotAt(s, i)
  }

  function Strip(s: string): string {
    Stripped(s, IsSpace)
  }

  function ReplaceSlashes(s: string): string {
    if s == "" then ""
    else (if s[0] == '/' then "__" else [s[0]]) + ReplaceSlashes(s[1..])
  }

  /** The name a namespace is stored under, or None for a request refused with status 400. */
  function SafeNamespace(value: string): Option<string> {
    var cleaned := Strip(value);
    if cleaned == "" || |cleaned| > MAX_NAME then None
    else if !AllAllowed(cleaned) then None
    else if HasDotDot(cleaned) then None
    else Some(ReplaceSlashes(cleaned))
  }

  /** A request's name is refused exactly when what is left of it is empty, longer than 200, or not made of the allowed characters, or steps upwards. */
  lemma RefusedExactly(value: string)
    ensures var cleaned := Stripped(value, ch => ch == ' ' || '\t' <= ch <= '\r' || '\U{001C}' <= ch <= '\U{001F}');
            && (SafeNamespace(value).None? <==>
                  || cleaned == "" || |cleaned| > 200
                  || (exists i :: 0 <= i < |cleaned| && !('a' <= cleaned[i] <= 'z' || 'A' <= cleaned[i] <= 'Z' || '0' <= cleaned[i] <= '9'
                                                          || cleaned[i] in "-_:.@/"))
                  || exists a, b :: cleaned == a + ".." + b)
            && (SafeNamespace(value).Some? ==> SafeNamespace(value).value == ReplaceSlashes(cleaned))
  {
    var cleaned := Strip(value);
    SameSpaces(value, IsSpace, ch => ch == ' ' || '\t' <= ch <= '\r' || '\U{001C}' <= ch <= '\U{001F}');
    if i :| 0 <= i < |cleaned| && DotDotAt(cleaned, i) {
      assert cleaned == cleaned[..i] + ".." + cleaned[i + 2..];
    }
    forall a, b | cleaned == a + ".." + b ensures HasDotDot(cleaned) {
      assert DotDotAt(cleaned, |a|);
    }
  }

  lemma {:induction false} SameSpaces(text: string, p: char -> bool, q: char -> bool)
    requires forall ch :: p(ch) == q(ch)
    ensures Stripped(text, p) == Stripped(text, q)
    decreases |text|
  {
    if text != [] {
      SameSpaces(text[1..], p, q);
      SameSpaces(text[..|text| - 1], p, q);
    }
  }

  /** What every accepted name is: never empty, one path segment, no step upwards. */
  ghost predicate IsPlain(name: string) {
    name != "" && AllAllowed(name) && '/' !in name && !HasDotDot(name)
  }

  lemma JoinWithoutDots(a: string, b: string)
    requires a != "" && !HasDotDot(a) && !HasDotDot(b)
    requires b != "" ==> !(a[|a| - 1] == '.' && b[0] == '.')
    ensures !HasDotDot(a + b)
  {
    forall i | 0 <= i < |a + b| ensures !DotDotAt(a + b, i) {
      if i < |a| { assert !DotDotAt(a, i); } else { assert !DotDotAt(b, i - |a|); }
    }
  }

  lemma {:induction false} ReplacedIsPlain(s: string)
    requires s != "" && AllAllowed(s) && !HasDotDot(s)
    ensures IsPlain(ReplaceSlashes(s))
    ensures |s| <= |ReplaceSlashes(s)|
    ensures ReplaceSlashes(s)[0] == '.' ==> s[0] == '.'
    ensures '/' !in s ==> ReplaceSlashes(s) == s
  {
    var head, tail := if s[0] == '/' then "__" else [s[0]], ReplaceSlashes(s[1..]);
    assert !HasDotDot(head) && AllAllowed(head);
    if |s| > 1 {
      forall i | 0 <= i < |s[1..]| ensures !DotDotAt(s[1..], i) { assert !DotDotAt(s, i + 1); }
      ReplacedIsPlain(s[1..]);
      assert !DotDotAt(s, 0);
      JoinWithoutDots(head, tail);
      if '/' !in s { assert s == [s[0]] + s[1..]; }
    }
  }

  lemma {:induction false} StripKeepsPlain(s: string)
    requires AllAllowed(s)
    ensures Strip(s) == s
  {
    if s != "" {
      assert IsAllowed(s[0]) && IsAllowed(s[|s| - 1]);
    }
  }

  /** Every accepted name is plain. */
  lemma AcceptedNamesArePlain(value: string)
    requires SafeNamespace(value).Some?
    ensures IsPlain(SafeNamespace(value).value)
  {
    ReplacedIsPlain(Strip(value));
  }

  /**
   * The handlers clean a name and the storage code cleans it again. The second cleaning
   * changes nothing, and it accepts the name exactly when the first result is still no
   * longer than 200 characters: each slash became two.
   */
  lemma CleaningTwice(value: string)
    requires SafeNamespace(value).Some?
    ensures var name := SafeNamespace(value).value;
            SafeNamespace(name) == if |name| <= MAX_NAME then Some(name) else None
  {
    var name := SafeNamespace(value).value;
    AcceptedNamesArePlain(value);
    StripKeepsPlain(name);
    ReplacedIsPlain(name);
  }

  /** A name the handlers accept and the storage code then refuses. */
  lemma {:induction false} CleaningTwiceCanRefuse(n: nat)
    requires 100 < n <= MAX_NAME
    ensures var slashes := seq(n, _ => '/');
            SafeNamespace(slashes).Some? && SafeNamespace(SafeNamespace(slashes).value).None?
  {
    var slashes := seq(n, _ => '/');
    StripKeepsPlain(slashes);
    SlashesDouble(n);
    CleaningTwice(slashes);
  }

  lemma {:induction false} SlashesDouble(n: nat)
    ensures |ReplaceSlashes(seq(n, _ => '/'))| == 2 * n
  {
    if n > 0 {
      assert seq(n, _ => '/')[1..] == seq(n - 1, _ => '/');
      SlashesDouble(n - 1);
    }
  }

  // ---- which names share a store ----------------------------------------------------

  predicate IsBar(ch: char) {
    ch == '_' || ch == '/'
  }

  /** How long the slashes and underscores a name begins with are, a slash counting two. */
  function Bars(s: string): nat {
    if s == "" || !IsBar(s[0]) then 0 else (if s[0] == '/' then 2 else 1) + Bars(s[1..])
  }

  function AfterBars(s: string): (r: string)
    ensures |r| <= |s|
  {
    if s == "" || !IsBar(s[0]) then s else AfterBars(s[1..])
  }

  /** The same characters, with slashes and underscores of the same length between them. */
  predicate SameButSlashes(a: string, b: string)
    decreases |a|
  {
    var x, y := AfterBars(a), AfterBars(b);
    && Bars(a) == Bars(b)
    && if x == "" || y == "" then x == y else x[0] == y[0] && SameButSlashes(x[1..], y[1..])
  }

  function Underscores(n: nat): (r: string)
    ensures |r| == n && forall i | 0 <= i < n :: r[i] == '_'
  {
    seq(n, _ => '_')
  }

  lemma {:induction false} BarsReplaced(s: string)
    ensures ReplaceSlashes(s) == Underscores(Bars(s)) + ReplaceSlashes(AfterBars(s))
    ensures AfterBars(s) != "" ==> !IsBar(AfterBars(s)[0])
  {
    if s != "" && IsBar(s[0]) {
      BarsReplaced(s[1..]);
      assert Underscores(Bars(s)) == (if s[0] == '/' then "__" else "_") + Underscores(Bars(s[1..]));
    }
  }

  lemma UnderscoresDecide(m: nat, a: string, n: nat, b: string)
    requires a != "" ==> a[0] != '_'
    requires b != "" ==> b[0] != '_'
    ensures Underscores(m) + a == Underscores(n) + b <==> m == n && a == b
  {
    var x, y := Underscores(m) + a, Underscores(n) + b;
    assert a != "" ==> x[m] == a[0];
    assert b != "" ==> y[n] == b[0];
    assert m < n ==> y[m] == '_';
    assert n < m ==> x[n] == '_';
    assert a == x[m..] && b == y[n..];
  }

  lemma {:induction false} ReplacedAlike(a: string, b: string)
    ensures ReplaceSlashes(a) == ReplaceSlashes(b) <==> SameButSlashes(a, b)
    decreases |a|
  {
    var x, y := AfterBars(a), AfterBars(b);
    BarsReplaced(a);
    BarsReplaced(b);
    UnderscoresDecide(Bars(a), ReplaceSlashes(x), Bars(b), ReplaceSlashes(y));
    if x != "" && y != "" {
      ReplacedAlike(x[1..], y[1..]);
      assert ReplaceSlashes(x)[0] == x[0] && ReplaceSlashes(x)[1..] == ReplaceSlashes(x[1..]);
      assert ReplaceSlashes(y)[0] == y[0] && ReplaceSlashes(y)[1..] == ReplaceSlashes(y[1..]);
    }
  }

  /**
   * Two accepted names share a store exactly when they have the same characters, with
   * slashes and underscores of the same length between them, a slash counting two.
   */
  lemma NamesThatShareAStore(a: string, b: string)
    requires SafeNamespace(a).Some? && SafeNamespace(b).Some?
    ensures SafeNamespace(a) == SafeNamespace(b) <==> SameButSlashes(Strip(a), Strip(b))
  {
    ReplacedAlike(Strip(a), Strip(b));
  }

  predicate PartAt(s: string, part: string, i: nat) {
    i + |part| <= |s| && s[i..i + |part|] == part
  }

  predicate HasPart(s: string, part: string) {
    exists i | 0 <= i <= |s| :: PartAt(s, part, i)
  }

  /** Nothing in the name can be written another way: no doubled underscore, and a slash only where no longer name fits. */
  predicate HasItsOwnStore(name: string) {
    && !HasPart(name, "__")
    && ('/' in name ==> |name| == MAX_NAME && !HasPart(name, "/_") && !HasPart(name, "_/"))
  }

  lemma {:induction false} ReplaceJoins(a: string, b: string)
    ensures ReplaceSlashes(a + b) == ReplaceSlashes(a) + ReplaceSlashes(b)
    decreases |a|
  {
    if a == "" {
      assert a + b == b;
    } else {
      var head := if a[0] == '/' then "__" else [a[0]];
      ReplaceJoins(a[1..], b);
      assert (a + b)[1..] == a[1..] + b && (a + b)[0] == a[0];
      assert ReplaceSlashes(a + b) == head + ReplaceSlashes(a[1..] + b);
    }
  }

  predicate Rewrites(x: string, y: string) {
    (x, y) in {("__", "/"), ("/", "__"), ("/_", "_/"), ("_/", "/_")}
  }

  lemma RewritesReplaceAlike(x: string, y: string)
    requires Rewrites(x, y)
    ensures ReplaceSlashes(x) == ReplaceSlashes(y) && x != y && AllAllowed(y) && '.' !in y && y != ""
  {
    assert ReplaceSlashes("") == "";
    assert ReplaceSlashes("/") == "__" && ReplaceSlashes("_") == "_";
    assert "__"[1..] == "_" && "/_"[1..] == "_" && "_/"[1..] == "/";
  }

  /** Writing a part of an accepted name another way gives another accepted name of the same store. */
  lemma RewrittenIsAllowed(p: string, x: string, q: string, y: string)
    requires AllAllowed(p + x + q) && !HasDotDot(p + x + q) && Rewrites(x, y)
    ensures AllAllowed(p + y + q) && !HasDotDot(p + y + q)
  {
    var name, other := p + x + q, p + y + q;
    RewritesReplaceAlike(x, y);
    forall i | 0 <= i < |other| ensures IsAllowed(other[i]) && !DotDotAt(other, i) {
      if i < |p| {
        assert other[i] == name[i] && !DotDotAt(name, i);
        assert i + 1 == |p| ==> other[i + 1] == y[0];
      } else if i >= |p| + |y| {
        var j := i - |y| + |x|;
        assert other[i] == name[j] && !DotDotAt(name, j);
      } else {
        assert other[i] == y[i - |p|];
      }
    }
  }

  lemma WrittenAnotherWay(p: string, x: string, q: string, y: string)
    requires AllAllowed(p + x + q) && !HasDotDot(p + x + q) && Rewrites(x, y) && |p + y + q| <= MAX_NAME
    ensures var other := p + y + q;
            && SafeNamespace(other) == Some(ReplaceSlashes(p + x + q))
            && Strip(other) == other != p + x + q
  {
    var name, other := p + x + q, p + y + q;
    RewrittenIsAllowed(p, x, q, y);
    RewritesReplaceAlike(x, y);
    hide IsAllowed, DotDotAt, ReplaceSlashes;
    StripKeepsPlain(other);
    ReplaceJoins(p + x, q);
    ReplaceJoins(p, x);
    ReplaceJoins(p + y, q);
    ReplaceJoins(p, y);
    assert name[|p|..|p| + |x|] == x && other[|p|..|p| + |y|] == y;
  }

  lemma PartCanBeRewritten(name: string, x: string, y: string)
    requires AllAllowed(name) && !HasDotDot(name) && Rewrites(x, y) && HasPart(name, x)
    requires |name| - |x| + |y| <= MAX_NAME
    ensures exists other :: Strip(other) != name && SafeNamespace(other) == Some(ReplaceSlashes(name))
  {
    hide HasDotDot, AllAllowed, SafeNamespace, ReplaceSlashes, Strip, Rewrites;
    var i :| 0 <= i <= |name| && PartAt(name, x, i);
    var p, q := name[..i], name[i + |x|..];
    assert name == p + x + q;
    WrittenAnotherWay(p, x, q, y);
  }

  lemma {:induction false} NoSlashNoOther(s: string, other: string)
    requires '/' !in s && !HasPart(s, "__") && ReplaceSlashes(other) == s
    ensures other == s
    decreases |other|
  {
    if other != "" {
      if other[0] == '/' {
        assert PartAt(s, "__", 0);
      } else {
        assert s[0] == other[0] && s[1..] == ReplaceSlashes(other[1..]);
        NoPartAfter(s, "__");
        NoSlashNoOther(s[1..], other[1..]);
        assert other == [other[0]] + other[1..];
      }
    }
  }

  lemma NoPartAfter(s: string, part: string)
    requires s != "" && !HasPart(s, part)
    ensures !HasPart(s[1..], part)
  {
    forall i | 0 <= i <= |s[1..]| ensures !PartAt(s[1..], part, i) {
      assert !PartAt(s, part, i + 1);
      assert i + |part| <= |s[1..]| ==> s[1..][i..i + |part|] == s[i + 1..i + 1 + |part|];
    }
  }

  lemma SlashIsTwo(s: string)
    ensures s != "" && s[0] == '/' ==> "__" <= ReplaceSlashes(s)
  {
  }

  predicate Tight(s: string) {
    !HasPart(s, "__") && !HasPart(s, "/_") && !HasPart(s, "_/")
  }

  lemma TightAfter(s: string)
    requires s != "" && Tight(s)
    ensures Tight(s[1..])
    ensures |s| > 1 && s[0] == '_' ==> !IsBar(s[1])
    ensures |s| > 1 && s[0] == '/' ==> s[1] != '_'
  {
    NoPartAfter(s, "__");
    NoPartAfter(s, "/_");
    NoPartAfter(s, "_/");
    assert !PartAt(s, "__", 0) && !PartAt(s, "/_", 0) && !PartAt(s, "_/", 0);
    if |s| > 1 { assert s[0..2] == [s[0], s[1]]; }
  }

  /** A tight name is the shortest that gives its store, and the only one of its length. */
  lemma {:induction false} TightIsShortest(s: string, other: string)
    requires Tight(s) && ReplaceSlashes(s) == ReplaceSlashes(other)
    ensures |other| >= |s| && (|other| == |s| ==> other == s)
    decreases |s|, |other|
  {
    if s != "" {
      TightAfter(s);
      var r, t := ReplaceSlashes(s), ReplaceSlashes(other);
      assert r[0] == t[0];
      if s[0] == '/' {
        assert r[2..] == ReplaceSlashes(s[1..]) && r[1] == '_';
        if other[0] == '/' {
          assert t[2..] == ReplaceSlashes(other[1..]);
          TightIsShortest(s[1..], other[1..]);
          assert other == [other[0]] + other[1..] && s == [s[0]] + s[1..];
        } else {
          assert t[1..] == ReplaceSlashes(other[1..]);
          assert r == "_" + r[1..] && r[1..] == "_" + r[2..];
          HalfASlashLater(s[1..], other[1..]);
        }
      } else {
        assert r[1..] == ReplaceSlashes(s[1..]);
        SlashIsTwo(other);
        assert |s| > 1 && IsBar(s[1]) <== |r| > 1 && r[1] == '_';
        assert other[0] != '/';
        assert t[1..] == ReplaceSlashes(other[1..]);
        TightIsShortest(s[1..], other[1..]);
        assert other == [other[0]] + other[1..] && s == [s[0]] + s[1..];
      }
    }
  }

  /** With half a slash of s still to match, the other name needs more characters than s has left. */
  lemma {:induction false} HalfASlashLater(s: string, other: string)
    requires Tight(s) && (s != "" ==> s[0] != '_') && "_" + ReplaceSlashes(s) == ReplaceSlashes(other)
    ensures |other| > |s|
    decreases |s|, |other|
  {
    var t := ReplaceSlashes(other);
    assert t[0] == '_' && t[1..] == ReplaceSlashes(s);
    if other[0] == '_' {
      assert t[1..] == ReplaceSlashes(other[1..]);
      TightIsShortest(s, other[1..]);
    } else {
      assert t[2..] == ReplaceSlashes(other[1..]) && t[1] == '_';
      assert s[0] == '/';
      TightAfter(s);
      assert ReplaceSlashes(s)[1..] == "_" + ReplaceSlashes(s[1..]);
      HalfASlashLater(s[1..], other[1..]);
    }
  }

  /** An accepted name has a store of its own exactly when nothing in it can be written another way. */
  lemma StoresOfTheirOwn(value: string)
    requires SafeNamespace(value).Some?
    ensures HasItsOwnStore(Strip(value)) <==>
              forall other | SafeNamespace(other) == SafeNamespace(value) :: Strip(other) == Strip(value)
  {
    var name := Strip(value);
    forall other | HasItsOwnStore(name) && SafeNamespace(other) == SafeNamespace(value) ensures Strip(other) == name {
      if '/' in name {
        TightIsShortest(name, Strip(other));
      } else {
        ReplacedIsPlain(name);
        NoSlashNoOther(name, Strip(other));
      }
    }
    if HasPart(name, "__") { PartCanBeRewritten(name, "__", "/"); }
    else if '/' in name && !HasItsOwnStore(name) {
      if |name| < MAX_NAME {
        var i :| 0 <= i < |name| && name[i] == '/';
        assert PartAt(name, "/", i);
        PartCanBeRewritten(name, "/", "__");
      } else if HasPart(name, "/_") {
        PartCanBeRewritten(name, "/_", "_/");
      } else {
        PartCanBeRewritten(name, "_/", "/_");
      }
    }
  }

  /** Two names anyone may ask for, and one store. */
  lemma SlashAndUnderscoresShareAStore()
    ensures SafeNamespace("a/b") == SafeNamespace("a__b") == Some("a__b")
  {
    var name := "a/b";
    assert !HasDotDot(name);
    StripKeepsPlain(name);
    assert name[1..] == "/b" && "/b"[1..] == "b" && ReplaceSlashes("b") == "b";
    assert ReplaceSlashes("/b") == "__b" && ReplaceSlashes(name) == "a__b";
    assert name == "a" + "/" + "b" && "a" + "__" + "b" == "a__b";
    WrittenAnotherWay("a", "/", "b", "__");
  }

  // ---- keys -------------------------------------------------------------------

  datatype Key = ManifestKey(ns: string) | ArchiveKey(ns: string, digest: string)

  function BaseText(root: string, ns: string): string {
    root + "/" + ns
  }

  function PrefixText(root: string, ns: string): string {
    BaseText(root, ns) + "/"
  }

  function KeyText(root: string, key: Key): string {
    match key
    case ManifestKey(ns) => BaseText(root, ns) + "/manifest.json"
    case ArchiveKey(ns, digest) => BaseText(root, ns) + "/archives/" + digest + ".tar.gz"
  }

  lemma SegmentDecides(a: string, b: string, rest: string)
    requires '/' !in a && '/' !in b
    ensures a + "/" <= b + "/" + rest <==> a == b
  {
    var x, y := a + "/", b + "/" + rest;
    if |a| < |b| {
      assert x[|a|] == '/' && y[|a|] == b[|a|] && b[|a|] in b;
    } else if |a| > |b| {
      assert x[|b|] == a[|b|] && a[|b|] in a && y[|b|] == '/';
    } else {
      assert x[..|a|] == a && y[..|a|] == b;
      if x <= y { assert x == y[..|x|]; assert a == b; }
    }
  }

  lemma CommonRoot(root: string, a: string, b: string)
    ensures root + a <= root + b <==> a <= b
    ensures root + a == root + b <==> a == b
  {
    var x, y := root + a, root + b;
    assert x[|root|..] == a && y[|root|..] == b;
    if a <= b { assert y == x + b[|a|..]; }
    if x <= y { assert b == a + y[|x|..]; }
  }

  /** Listing by a namespace's prefix selects that namespace's keys and no others. */
  lemma PrefixSelectsNamespace(root: string, ns: string, key: Key)
    requires '/' !in ns && '/' !in key.ns
    ensures PrefixText(root, ns) <= KeyText(root, key) <==> key.ns == ns
  {
    var rest := match key
      case ManifestKey(_) => "manifest.json"
      case ArchiveKey(_, digest) => "archives/" + digest + ".tar.gz";
    var stem := root + "/";
    assert PrefixText(root, ns) == stem + (ns + "/");
    assert KeyText(root, key) == stem + (key.ns + "/" + rest);
    CommonRoot(stem, ns + "/", key.ns + "/" + rest);
    SegmentDecides(ns, key.ns, rest);
  }

  /** Distinct keys have distinct texts. */
  lemma KeyTextsAreDistinct(root: string, a: Key, b: Key)
    requires '/' !in a.ns && '/' !in b.ns
    ensures KeyText(root, a) == KeyText(root, b) <==> a == b
  {
    PrefixSelectsNamespace(root, a.ns, a);
    PrefixSelectsNamespace(root, a.ns, b);
    if a.ns == b.ns {
      var base := BaseText(root, a.ns);
      match (a, b) {
        case (ManifestKey(_), ManifestKey(_)) =>
        case (ArchiveKey(_, d), ArchiveKey(_, e)) =>
          var head := base + "/archives/";
          assert KeyText(root, a) == head + (d + ".tar.gz");
          assert KeyText(root, b) == head + (e + ".tar.gz");
          CommonRoot(head, d + ".tar.gz", e + ".tar.gz");
          if d + ".tar.gz" == e + ".tar.gz" {
            assert (d + ".tar.gz")[..|d|] == d && (e + ".tar.gz")[..|d|] == e;
          }
        case (ManifestKey(_), ArchiveKey(_, e)) =>
          assert KeyText(root, a)[|base| + 1] == 'm' && KeyText(root, b)[|base| + 1] == 'a';
        case (ArchiveKey(_, d), ManifestKey(_)) =>
          assert KeyText(root, a)[|base| + 1] == 'a' && KeyText(root, b)[|base| + 1] == 'm';
      }
    }
  }
}
