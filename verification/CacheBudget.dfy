/**
 * The order in which cached namespaces may be evicted, and their sizes.
 * The eviction loop itself is MemoryStore.Sidecar.EnforceCacheBudget.
 */
module CacheBudget {
  /** One directory under the data root: `bytes` on disk, last use `touched`, archive marker present. */
  datatype Entry = Entry(name: string, bytes: nat, touched: int, marked: bool)

  predicate IsCacheEntry(name: string) {
    !("." <= name) && !(|name| >= 9 && name[|name| - 9..] == ".previous")
  }

  predicate IsCandidate(e: Entry) {
    IsCacheEntry(e.name) && e.marked
  }

  /** A directory that is neither hidden nor a backup, and is marked. */
  lemma CandidateMeans(e: Entry)
    ensures IsCandidate(e) <==>
            e.marked && (e.name == [] || e.name[0] != '.') && forall stem :: e.name != stem + ".previous"
  {
    var n := |e.name| - 9;
    if n >= 0 && e.name[n..] == ".previous" { assert e.name == e.name[..n] + ".previous"; }
    forall stem | e.name == stem + ".previous" ensures !IsCacheEntry(e.name) {
      assert e.name[|stem|..] == ".previous";
    }
  }

  function TotalBytes(entries: seq<Entry>): nat {
    if entries == [] then 0 else entries[0].bytes + TotalBytes(entries[1..])
  }

  function Candidates(listing: seq<Entry>): seq<Entry> {
    if listing == [] then []
    else (if IsCandidate(listing[0]) then [listing[0]] else []) + Candidates(listing[1..])
  }

  function Insert(e: Entry, sorted: seq<Entry>): seq<Entry> {
    if sorted == [] || e.touched <= sorted[0].touched then [e] + sorted
    else [sorted[0]] + Insert(e, sorted[1..])
  }

  /** Oldest first; entries touched at the same time keep their listing order. */
  function OldestFirst(entries: seq<Entry>): seq<Entry> {
    if entries == [] then [] else Insert(entries[0], OldestFirst(entries[1..]))
  }

  ghost predicate Sorted(entries: seq<Entry>) {
    forall i, j | 0 <= i < j < |entries| :: entries[i].touched <= entries[j].touched
  }

  ghost predicate NoneOlder(entries: seq<Entry>, than: int) {
    forall i | 0 <= i < |entries| :: than <= entries[i].touched
  }

  lemma {:induction false} InsertSorted(e: Entry, sorted: seq<Entry>)
    requires Sorted(sorted)
    ensures Sorted(Insert(e, sorted))
    ensures forall t | NoneOlder(sorted, t) && t <= e.touched :: NoneOlder(Insert(e, sorted), t)
  {
    if sorted != [] && e.touched > sorted[0].touched {
      InsertSorted(e, sorted[1..]);
      assert NoneOlder(sorted[1..], sorted[0].touched);
      forall t | NoneOlder(sorted, t) && t <= e.touched ensures NoneOlder(Insert(e, sorted), t) {
        assert NoneOlder(sorted[1..], t);
      }
    }
  }

  lemma {:induction false} InsertPermutes(e: Entry, sorted: seq<Entry>)
    ensures multiset(Insert(e, sorted)) == multiset([e] + sorted)
    ensures TotalBytes(Insert(e, sorted)) == e.bytes + TotalBytes(sorted)
  {
    if sorted != [] && e.touched > sorted[0].touched {
      InsertPermutes(e, sorted[1..]);
      assert [e] + sorted == [e, sorted[0]] + sorted[1..];
      assert Insert(e, sorted)[1..] == Insert(e, sorted[1..]);
    } else {
      assert ([e] + sorted)[1..] == sorted;
    }
  }

  /** Sorting gives a permutation, ordered by last use, of the same total size. */
  lemma {:induction false} OldestFirstSorts(entries: seq<Entry>)
    ensures Sorted(OldestFirst(entries))
    ensures multiset(OldestFirst(entries)) == multiset(entries)
    ensures TotalBytes(OldestFirst(entries)) == TotalBytes(entries)
  {
    if entries != [] {
      OldestFirstSorts(entries[1..]);
      InsertSorted(entries[0], OldestFirst(entries[1..]));
      InsertPermutes(entries[0], OldestFirst(entries[1..]));
      assert entries == [entries[0]] + entries[1..];
    }
  }

  lemma OneMoreCandidate(listing: seq<Entry>)
    requires listing != []
    ensures multiset(Candidates(listing)) ==
            (if IsCandidate(listing[0]) then multiset{listing[0]} else multiset{}) + multiset(Candidates(listing[1..]))
    ensures TotalBytes(Candidates(listing)) ==
            (if IsCandidate(listing[0]) then listing[0].bytes else 0) + TotalBytes(Candidates(listing[1..]))
  {
    var rest := Candidates(listing[1..]);
    assert ([listing[0]] + rest)[1..] == rest && [] + rest == rest;
    assert multiset([listing[0]] + rest) == multiset([listing[0]]) + multiset(rest);
  }

  /** The candidates are exactly the marked entries of the listing, each as often as listed. */
  lemma {:induction false} CandidatesAreTheMarked(listing: seq<Entry>, e: Entry)
    ensures multiset(Candidates(listing))[e] == if IsCandidate(e) then multiset(listing)[e] else 0
    ensures TotalBytes(Candidates(listing)) <= TotalBytes(listing)
  {
    if listing != [] {
      CandidatesAreTheMarked(listing[1..], e);
      OneMoreCandidate(listing);
      assert listing == [listing[0]] + listing[1..];
    }
  }

  lemma {:induction false} TotalOfPrefix(entries: seq<Entry>, n: nat)
    requires n < |entries|
    ensures TotalBytes(entries[..n + 1]) == TotalBytes(entries[..n]) + entries[n].bytes
    ensures TotalBytes(entries[..n + 1]) <= TotalBytes(entries)
  {
    assert entries[..n + 1][1..] == entries[1..][..n];
    if n > 0 {
      TotalOfPrefix(entries[1..], n - 1);
      assert entries[..n][1..] == entries[1..][..n - 1];
    }
  }

  function Names(entries: seq<Entry>): set<string> {
    set e | e in entries :: e.name
  }

  lemma NamesOfPrefix(entries: seq<Entry>, n: nat)
    requires n < |entries|
    ensures Names(entries[..n + 1]) == Names(entries[..n]) + {entries[n].name}
  {
    assert entries[..n + 1] == entries[..n] + [entries[n]];
  }

  lemma NoneOfPrefix(entries: seq<Entry>)
    ensures Names(entries[..0]) == {} && TotalBytes(entries[..0]) == 0
  {
  }

  /** The order in which a listing's namespaces are offered for eviction. */
  function EvictionOrder(listing: seq<Entry>): seq<Entry> {
    OldestFirst(Candidates(listing))
  }

  lemma EvictionOrderSound(listing: seq<Entry>)
    ensures Sorted(EvictionOrder(listing))
    ensures multiset(EvictionOrder(listing)) == multiset(Candidates(listing))
    ensures forall e :: e in EvictionOrder(listing) <==> e in listing && IsCandidate(e)
    ensures forall e :: e in EvictionOrder(listing) <==>
              && e in listing && e.marked && (e.name == [] || e.name[0] != '.')
              && forall stem :: e.name != stem + ".previous"
    ensures TotalBytes(EvictionOrder(listing)) <= TotalBytes(listing)
  {
    OldestFirstSorts(Candidates(listing));
    forall e ensures e in EvictionOrder(listing) <==> e in listing && IsCandidate(e) {
      CandidatesAreTheMarked(listing, e);
      assert e in EvictionOrder(listing) <==> e in multiset(EvictionOrder(listing));
    }
    forall e { CandidateMeans(e); }
    CandidatesAreTheMarked(listing, Entry("", 0, 0, false));
  }

  ghost predicate DistinctNames(entries: seq<Entry>) {
    forall i, j | 0 <= i < j < |entries| :: entries[i].name != entries[j].name
  }

  lemma {:induction false} ListedOnce(listing: seq<Entry>, e: Entry)
    requires DistinctNames(listing)
    ensures multiset(listing)[e] <= 1
  {
    if listing != [] {
      var front, last := listing[..|listing| - 1], listing[|listing| - 1];
      ListedOnce(front, e);
      assert listing == front + [last];
      if last == e {
        assert forall i | 0 <= i < |front| :: front[i].name != e.name;
        assert e !in multiset(front);
      }
    }
  }

  /** A directory is listed once, so it is offered for eviction at most once. */
  lemma OfferedOnce(listing: seq<Entry>)
    requires DistinctNames(listing)
    ensures DistinctNames(EvictionOrder(listing))
  {
    var order := EvictionOrder(listing);
    EvictionOrderSound(listing);
    hide EvictionOrder, Candidates, Sorted, IsCandidate;
    forall i, j | 0 <= i < j < |order| ensures order[i].name != order[j].name {
      var e := order[i];
      ListedOnce(listing, e);
      CandidatesAreTheMarked(listing, e);
      TwiceIsTwo(order, i, j);
      SameNameSameEntry(listing, e, order[j]);
    }
  }

  lemma TwiceIsTwo(entries: seq<Entry>, i: nat, j: nat)
    requires i < j < |entries|
    ensures entries[i] == entries[j] ==> multiset(entries)[entries[i]] >= 2
  {
    var front, back := entries[..j], entries[j..];
    assert entries == front + back;
    assert front[i] in multiset(front) && back[0] in multiset(back);
  }

  lemma SameNameSameEntry(listing: seq<Entry>, a: Entry, b: Entry)
    requires DistinctNames(listing) && a in listing && b in listing
    ensures a.name == b.name ==> a == b
  {
  }

  /** Whatever is evicted was listed with an archive marker. */
  lemma EvictedWereMarked(listing: seq<Entry>, n: nat, name: string)
    requires n <= |EvictionOrder(listing)| && name in Names(EvictionOrder(listing)[..n])
    ensures exists e :: e in listing && IsCandidate(e) && e.name == name && e.marked
    ensures !("." <= name)
  {
    EvictionOrderSound(listing);
    var e :| e in EvictionOrder(listing)[..n] && e.name == name;
    assert e in EvictionOrder(listing);
  }
}
