/**
 * The durable memory store: one local directory per namespace is a cache over
 * content-addressed archives in object storage.
 *
 * Every step that touches the disk or the object store meets the next entry of a fault
 * schedule: it works, is refused, works but loses its answer, brings damaged data, or the
 * process dies before or after it. `Died` abandons the operation on the spot; only the files and objects
 * survive. All theorems hold for every schedule. One lock serialises the operations, so
 * there is no other interleaving.
 */
module MemoryStore {
  import opened Wrappers
  import opened ArchiveKeys
  import opened CacheBudget

  type Namespace = string

  /** A memory to store. `named`: the upstream store reports an id for it, so it is recorded in the metadata. */
  datatype Write = Write(id: nat, named: bool)

  datatype Meta = Meta(version: nat, recorded: set<Write>)

  /** What a namespace directory holds; `upstream`: it has files besides metadata and marker. */
  datatype Image = Image(stored: set<Write>, meta: Option<Meta>, upstream: bool)

  /** The packed bytes of an image; packing the same image twice need not give the same bytes. */
  datatype Tarball = Tarball(image: Image, stamp: nat)

  datatype Manifest = Manifest(schema: nat, ns: Namespace, key: Key, sha256: string)

  datatype Dir = Dir(image: Image, marker: Option<Manifest>)

  /** A text write, or a media write and whether its captions were refused. */
  datatype Kind = Text | Media(refused: bool)

  const ARCHIVE_SCHEMA := 1
  const EMPTY_IMAGE := Image({}, None, false)

  /** Damaged matters to a download only; any other step works. */
  datatype Fault = Fine | Damaged | Refused | Lost | DiesBefore | DiesAfter
  datatype Reply = Ok | Raised | Died

  function Head(faults: seq<Fault>): Fault {
    if faults == [] then Fine else faults[0]
  }

  function Tail(faults: seq<Fault>): seq<Fault> {
    if faults == [] then [] else faults[1..]
  }

  /** The schedule after n steps, and the fault the n-th step met. */
  function Drop(faults: seq<Fault>, n: nat): seq<Fault> {
    if n >= |faults| then [] else faults[n..]
  }

  function At(faults: seq<Fault>, n: nat): Fault {
    if n < |faults| then faults[n] else Fine
  }

  lemma DropOne(faults: seq<Fault>, n: nat)
    ensures Tail(Drop(faults, n)) == Drop(faults, n + 1) && Head(Drop(faults, n)) == At(faults, n)
  {
  }

  /** A later point of the same schedule. */
  ghost predicate Later(faults: seq<Fault>, later: seq<Fault>) {
    exists n: nat :: later == Drop(faults, n)
  }

  lemma LaterStep(faults: seq<Fault>, later: seq<Fault>)
    requires Later(faults, later)
    ensures Later(faults, Tail(later)) && Later(faults, faults)
    ensures Head(later) != Fine ==> Head(later) in faults
  {
    var n: nat :| later == Drop(faults, n);
    DropOne(faults, n);
    assert Tail(later) == Drop(faults, n + 1);
    assert faults == Drop(faults, 0);
  }

  /** Does a step that meets this fault take effect? */
  predicate Happens(f: Fault) {
    f.Fine? || f.Damaged? || f.Lost? || f.DiesAfter?
  }

  function ReplyTo(f: Fault): Reply {
    match f
    case Fine | Damaged => Ok
    case Refused => Raised
    case Lost => Raised
    case DiesBefore => Died
    case DiesAfter => Died
  }

  predicate ValidManifest(ns: Namespace, m: Manifest) {
    m.schema == ARCHIVE_SCHEMA && m.ns == ns && m.key == ArchiveKey(ns, m.sha256)
  }

  /** The image has every one of these writes, the named ones with their metadata record. */
  ghost predicate Holds(image: Image, writes: set<Write>) {
    && writes <= image.stored
    && forall w | w in writes && w.named :: image.meta.Some? && w in image.meta.value.recorded
  }

  /** Everything stored was asked for, and nothing is recorded that is not stored. */
  ghost predicate Within(image: Image, asked: set<Write>) {
    image.stored <= asked && (image.meta.Some? ==> image.meta.value.recorded <= image.stored)
  }

  ghost function Recorded(meta: Meta, w: Write): Meta {
    meta.(recorded := meta.recorded + if w.named then {w} else {})
  }

  ghost function Lookup(m: map<Namespace, set<Write>>, ns: Namespace): set<Write> {
    if ns in m then m[ns] else {}
  }

  /** The two object maps agree outside one namespace. */
  ghost predicate SameElsewhere(ns: Namespace, before: map<Key, Tarball>, after: map<Key, Tarball>) {
    forall k: Key | k.ns != ns :: (k in before <==> k in after) && (k in before ==> before[k] == after[k])
  }

  lemma SameAsItself(ns: Namespace, archives: map<Key, Tarball>)
    ensures SameElsewhere(ns, archives, archives)
  {
  }

  /** Everything that survives a crash, with the two ghost tallies. */
  datatype World = World(
    archives: map<Key, Tarball>,
    manifests: map<Namespace, Manifest>,
    dirs: map<Namespace, Dir>,
    acked: map<Namespace, set<Write>>,
    attempted: map<Namespace, set<Write>>)

  /** The manifest names an object of its own namespace that exists, hashes to its digest and can be restored. */
  ghost predicate ManifestSound(hash: Tarball -> string, w: World, ns: Namespace)
    requires ns in w.manifests
  {
    var m := w.manifests[ns];
    && ValidManifest(ns, m)
    && m.key in w.archives
    && hash(w.archives[m.key]) == m.sha256
    && w.archives[m.key].image.meta.Some? && w.archives[m.key].image.upstream
  }

  /** What the object the manifest names holds; nothing without a manifest. */
  function Committed(w: World, ns: Namespace): Image {
    if ns in w.manifests && w.manifests[ns].key in w.archives then w.archives[w.manifests[ns].key].image
    else EMPTY_IMAGE
  }

  lemma SameCommitted(w: World, w': World, ns: Namespace)
    requires w'.archives == w.archives && w'.manifests == w.manifests
    ensures Committed(w', ns) == Committed(w, ns)
  {
  }

  /** What a directory with a marker holds; nothing without one. */
  ghost function Marked(w: World, ns: Namespace): set<Write> {
    if ns in w.dirs && w.dirs[ns].marker.Some? then w.dirs[ns].image.stored else {}
  }

  /** Only a complete directory gets a marker, and its own namespace's. */
  ghost predicate MarkedIsWhole(ns: Namespace, d: Dir) {
    d.marker.Some? ==> d.marker.value.ns == ns && d.image.meta.Some? && d.image.upstream
  }

  /** What holds of one namespace after every step of every operation. */
  ghost predicate Sound(hash: Tarball -> string, w: World, ns: Namespace) {
    && (ns in w.manifests ==> ManifestSound(hash, w, ns) && Holds(Committed(w, ns), Lookup(w.acked, ns)))
    && (ns !in w.manifests ==> Lookup(w.acked, ns) == {})
    && (forall k: Key | k in w.archives && k.ns == ns ::
          k == ArchiveKey(ns, hash(w.archives[k])) && Within(w.archives[k].image, Lookup(w.attempted, ns)))
    && (ns in w.dirs ==>
          && Holds(w.dirs[ns].image, Lookup(w.acked, ns)) && Within(w.dirs[ns].image, Lookup(w.attempted, ns))
          && MarkedIsWhole(ns, w.dirs[ns]))
  }

  ghost predicate AllSound(hash: Tarball -> string, w: World) {
    forall ns: Namespace :: Sound(hash, w, ns)
  }

  lemma SoundAt(hash: Tarball -> string, w: World, ns: Namespace)
    requires AllSound(hash, w)
    ensures Sound(hash, w, ns)
  {
  }

  ghost function Objects(archives: map<Key, Tarball>, ns: Namespace): set<Key> {
    set k | k in archives && k.ns == ns
  }

  lemma OneObjectOnePage(archives: map<Key, Tarball>, ns: Namespace, seen: set<Key>, page: set<Key>)
    requires page <= set k | k in archives && k.ns == ns && k !in seen
    ensures |Objects(archives, ns)| == 1 && seen == {} && page != {} ==> page == Objects(archives, ns)
  {
    assert page <= Objects(archives, ns);
    if |Objects(archives, ns)| == 1 && page != {} {
      var k :| k in page;
      assert |Objects(archives, ns) - {k}| == 0;
      assert Objects(archives, ns) == {k} + (Objects(archives, ns) - {k});
    }
  }

  /** The first three steps of a schedule work. */
  ghost predicate FirstThreeWork(faults: seq<Fault>) {
    At(faults, 0) == At(faults, 1) == At(faults, 2) == Fine
  }

  lemma FirstSteps(faults: seq<Fault>)
    ensures Tail(faults) == Drop(faults, 1) && Tail(Drop(faults, 1)) == Drop(faults, 2) && Tail(Drop(faults, 2)) == Drop(faults, 3)
    ensures FirstThreeWork(faults) ==> Head(faults) == Head(Drop(faults, 1)) == Head(Drop(faults, 2)) == Fine
  {
    DropOne(faults, 0);
    DropOne(faults, 1);
    DropOne(faults, 2);
  }

  /** A write is stored, and then the upstream store cannot be closed. */
  ghost predicate ClosingFails(faults: seq<Fault>) {
    At(faults, 0) == At(faults, 1) == Fine && At(faults, 2) == Refused
  }

  lemma ClosingSteps(faults: seq<Fault>)
    requires ClosingFails(faults)
    ensures Head(faults) == Head(Tail(faults)) == Fine && Head(Tail(Tail(faults))) == Refused
  {
    FirstSteps(faults);
    DropOne(faults, 2);
  }

  lemma FirstReplies(faults: seq<Fault>)
    ensures Head(faults) == At(faults, 0) && Head(Drop(faults, 1)) == At(faults, 1)
    ensures Head(Drop(faults, 2)) == At(faults, 2) && Head(Drop(faults, 3)) == At(faults, 3)
    ensures (forall i: nat | i < 3 :: ReplyTo(At(faults, i)) == Ok) <==>
              ReplyTo(At(faults, 0)) == ReplyTo(At(faults, 1)) == ReplyTo(At(faults, 2)) == Ok
  {
    DropOne(faults, 0);
  }

  lemma LaterStill(faults: seq<Fault>, later: seq<Fault>, last: seq<Fault>)
    requires Later(faults, later) && Later(later, last)
    ensures Later(faults, last)
  {
    var m: nat :| later == Drop(faults, m);
    var n: nat :| last == Drop(later, n);
    assert last == Drop(faults, m + n);
  }

  lemma LaterStart(faults: seq<Fault>)
    ensures Later(faults, faults)
  {
    assert faults == Drop(faults, 0);
  }

  /** Manifests point into their own namespace. */
  lemma ManifestKeysOwn(hash: Tarball -> string, w: World)
    requires AllSound(hash, w)
    ensures forall n | n in w.manifests :: ValidManifest(n, w.manifests[n]) && w.manifests[n].key.ns == n
  {
    forall n | n in w.manifests ensures ValidManifest(n, w.manifests[n]) { assert Sound(hash, w, n); }
  }

  /** Uploading a generation: its key is the digest of its bytes, so it can only overwrite itself. */
  lemma PutArchiveKeeps(hash: Tarball -> string, undigest: string -> Tarball, w: World, ns: Namespace, t: Tarball)
    requires AllSound(hash, w) && undigest(hash(t)) == t
    requires forall k: Key | k in w.archives :: undigest(hash(w.archives[k])) == w.archives[k]
    requires Within(t.image, Lookup(w.attempted, ns))
    ensures AllSound(hash, w.(archives := w.archives[ArchiveKey(ns, hash(t)) := t]))
    ensures forall k | k in w.archives :: w.archives[ArchiveKey(ns, hash(t)) := t][k] == w.archives[k]
  {
    var key := ArchiveKey(ns, hash(t));
    assert Sound(hash, w, ns);
    assert key in w.archives ==> hash(w.archives[key]) == hash(t);
    var after := w.(archives := w.archives[key := t]);
    forall n: Namespace ensures Sound(hash, after, n) {
      assert Sound(hash, w, n);
    }
  }

  lemma PutManifestKeeps(hash: Tarball -> string, w: World, ns: Namespace, m: Manifest)
    requires AllSound(hash, w)
    requires ManifestSound(hash, w.(manifests := w.manifests[ns := m]), ns)
    requires Holds(w.archives[m.key].image, Lookup(w.acked, ns))
    ensures AllSound(hash, w.(manifests := w.manifests[ns := m]))
  {
    var after := w.(manifests := w.manifests[ns := m]);
    forall n: Namespace ensures Sound(hash, after, n) {
      assert Sound(hash, w, n);
    }
  }

  lemma DeleteManifestKeeps(hash: Tarball -> string, w: World, ns: Namespace)
    requires AllSound(hash, w) && Lookup(w.acked, ns) == {}
    ensures AllSound(hash, w.(manifests := w.manifests - {ns}))
  {
    var after := w.(manifests := w.manifests - {ns});
    forall n: Namespace ensures Sound(hash, after, n) {
      assert Sound(hash, w, n);
    }
  }

  lemma DeleteObjectsKeeps(hash: Tarball -> string, w: World, gone: set<Key>)
    requires AllSound(hash, w)
    requires forall n | n in w.manifests :: w.manifests[n].key !in gone
    ensures AllSound(hash, w.(archives := w.archives - gone))
  {
    var after := w.(archives := w.archives - gone);
    forall n: Namespace ensures Sound(hash, after, n) {
      assert Sound(hash, w, n);
    }
  }

  lemma PutDirKeeps(hash: Tarball -> string, w: World, ns: Namespace, d: Dir)
    requires AllSound(hash, w)
    requires Holds(d.image, Lookup(w.acked, ns)) && Within(d.image, Lookup(w.attempted, ns)) && MarkedIsWhole(ns, d)
    ensures AllSound(hash, w.(dirs := w.dirs[ns := d]))
  {
    var after := w.(dirs := w.dirs[ns := d]);
    forall n: Namespace ensures Sound(hash, after, n) {
      assert Sound(hash, w, n);
    }
  }

  lemma RemoveDirKeeps(hash: Tarball -> string, w: World, ns: Namespace)
    requires AllSound(hash, w)
    ensures AllSound(hash, w.(dirs := w.dirs - {ns}))
  {
    var after := w.(dirs := w.dirs - {ns});
    forall n: Namespace ensures Sound(hash, after, n) {
      assert Sound(hash, w, n);
    }
  }

  /** A new request only raises what may be stored. */
  lemma AttemptKeeps(hash: Tarball -> string, w: World, ns: Namespace, write: Write)
    requires AllSound(hash, w)
    ensures AllSound(hash, w.(attempted := w.attempted[ns := Lookup(w.attempted, ns) + {write}]))
  {
    var after := w.(attempted := w.attempted[ns := Lookup(w.attempted, ns) + {write}]);
    forall n: Namespace ensures Sound(hash, after, n) {
      assert Sound(hash, w, n);
    }
  }

  /** Success may be answered once the committed bytes and any local copy have the write. */
  lemma AckKeeps(hash: Tarball -> string, w: World, ns: Namespace, write: Write)
    requires AllSound(hash, w)
    requires ns in w.manifests && w.manifests[ns].key in w.archives && Holds(Committed(w, ns), {write})
    requires ns in w.dirs ==> Holds(w.dirs[ns].image, {write})
    ensures AllSound(hash, w.(acked := w.acked[ns := Lookup(w.acked, ns) + {write}]))
  {
    var after := w.(acked := w.acked[ns := Lookup(w.acked, ns) + {write}]);
    forall n: Namespace ensures Sound(hash, after, n) {
      assert Sound(hash, w, n);
    }
  }

  /** A delete request withdraws the promise at once ... */
  lemma ForgetKeeps(hash: Tarball -> string, w: World, ns: Namespace)
    requires AllSound(hash, w)
    ensures AllSound(hash, w.(acked := w.acked[ns := {}]))
  {
    var after := w.(acked := w.acked[ns := {}]);
    forall n: Namespace ensures Sound(hash, after, n) {
      assert Sound(hash, w, n);
    }
  }

  /** ... and once nothing of the namespace is left, nothing of it may come back. */
  lemma ErasedKeeps(hash: Tarball -> string, w: World, ns: Namespace)
    requires AllSound(hash, w)
    requires ns !in w.manifests && ns !in w.dirs && forall k: Key | k in w.archives :: k.ns != ns
    ensures AllSound(hash, w.(attempted := w.attempted[ns := {}]))
  {
    var after := w.(attempted := w.attempted[ns := {}]);
    forall n: Namespace ensures Sound(hash, after, n) {
      assert Sound(hash, w, n);
    }
  }

  // ---- evictions under a schedule, one fault for each removal ------------------------------

  /** The directories that the first n evictions really remove. */
  ghost function Removed(order: seq<Entry>, faults: seq<Fault>, n: nat): set<Namespace>
    requires n <= |order|
  {
    if n == 0 then {}
    else Removed(order, faults, n - 1) + if Happens(At(faults, n - 1)) then {order[n - 1].name} else {}
  }

  lemma NoneRemoved(order: seq<Entry>, faults: seq<Fault>)
    ensures Removed(order, faults, 0) == {} && faults == Drop(faults, 0)
  {
  }

  lemma OneMoreRemoved(order: seq<Entry>, faults: seq<Fault>, n: nat)
    requires n < |order|
    ensures Removed(order, faults, n + 1) ==
            Removed(order, faults, n) + if Happens(At(faults, n)) then {order[n].name} else {}
  {
  }

  lemma {:induction false} RemovedWereOffered(order: seq<Entry>, faults: seq<Fault>, n: nat)
    requires n <= |order|
    ensures Removed(order, faults, n) <= Names(order[..n])
  {
    if n > 0 {
      RemovedWereOffered(order, faults, n - 1);
      NamesOfPrefix(order, n - 1);
    }
  }

  /** What was evicted is gone, all of it, exactly when no removal was refused. */
  lemma {:induction false} EvictedAreGoneUnlessRefused(order: seq<Entry>, faults: seq<Fault>, n: nat)
    requires n <= |order| && DistinctNames(order)
    ensures Removed(order, faults, n) == Names(order[..n]) <==> forall i: nat | i < n :: Happens(At(faults, i))
  {
    hide Removed, Names, DistinctNames, At, Happens;
    NoneRemoved(order, faults);
    NoneOfPrefix(order);
    if n > 0 {
      OneMoreRemoved(order, faults, n - 1);
      EvictedAreGoneUnlessRefused(order, faults, n - 1);
      RemovedWereOffered(order, faults, n - 1);
      NamesOfPrefix(order, n - 1);
      NewName(order, n - 1);
      AddedAlike(Removed(order, faults, n - 1), Names(order[..n - 1]), order[n - 1].name, Happens(At(faults, n - 1)));
    }
  }

  lemma NewName(order: seq<Entry>, n: nat)
    requires n < |order| && DistinctNames(order)
    ensures order[n].name !in Names(order[..n])
  {
  }

  lemma AddedAlike(part: set<Namespace>, all: set<Namespace>, name: Namespace, added: bool)
    requires part <= all && name !in all
    ensures part + (if added then {name} else {}) == all + {name} <==> part == all && added
  {
    if part + (if added then {name} else {}) == all + {name} {
      assert name in part + (if added then {name} else {});
      forall m | m in all ensures m in part { assert m in all + {name}; }
    }
  }

  /** The bytes the first n evictions really free. */
  ghost function Freed(order: seq<Entry>, faults: seq<Fault>, n: nat): nat
    requires n <= |order|
  {
    if n == 0 then 0 else Freed(order, faults, n - 1) + if Happens(At(faults, n - 1)) then order[n - 1].bytes else 0
  }

  /** The bytes reported as evicted were freed exactly when every refused removal was of an empty directory. */
  lemma {:induction false} ReportIsTrueUnlessRefused(order: seq<Entry>, faults: seq<Fault>, n: nat)
    requires n <= |order|
    ensures Freed(order, faults, n) <= TotalBytes(order[..n])
    ensures Freed(order, faults, n) == TotalBytes(order[..n]) <==>
              forall i: nat | i < n && !Happens(At(faults, i)) :: order[i].bytes == 0
  {
    NoneOfPrefix(order);
    if n > 0 {
      ReportIsTrueUnlessRefused(order, faults, n - 1);
      TotalOfPrefix(order, n - 1);
    }
  }

  class Sidecar {
    const sha256: Tarball -> string
    /** The digest is taken to be collision-free: it determines the bytes. */
    ghost const undigest: string -> Tarball
    const version: nat
    const lowWater: nat
    const highWater: nat
    var faults: seq<Fault>
    var archives: map<Key, Tarball>
    var manifests: map<Namespace, Manifest>
    var dirs: map<Namespace, Dir>
    /** Writes answered with success since the last delete request. */
    ghost var acked: map<Namespace, set<Write>>
    /** Writes requested since the last delete that erased the namespace. */
    ghost var attempted: map<Namespace, set<Write>>
    /** How many times the cache was checked against its budget. */
    ghost var trims: nat

    constructor (sha256: Tarball -> string, ghost undigest: string -> Tarball, version: nat, lowWater: nat, highWater: nat)
      requires forall b :: undigest(sha256(b)) == b
      requires 0 < lowWater < highWater
      ensures Inv()
      ensures this.sha256 == sha256 && this.version == version
      ensures this.lowWater == lowWater && this.highWater == highWater
      ensures View() == World(map[], map[], map[], map[], map[])
      ensures faults == []
    {
      this.sha256, this.undigest, this.version := sha256, undigest, version;
      this.lowWater, this.highWater := lowWater, highWater;
      faults, archives, manifests, dirs, acked, attempted := [], map[], map[], map[], map[], map[];
      trims := 0;
    }

    ghost function View(): World
      reads this`archives, this`manifests, this`dirs, this`acked, this`attempted
    {
      World(archives, manifests, dirs, acked, attempted)
    }

    ghost predicate Inv()
      reads this`archives, this`manifests, this`dirs, this`acked, this`attempted
    {
      && (forall b :: undigest(sha256(b)) == b)
      && 0 < lowWater < highWater
      && AllSound(sha256, View())
    }

    ghost function Acked(ns: Namespace): set<Write>
      reads this`acked
    {
      Lookup(acked, ns)
    }

    ghost function Attempted(ns: Namespace): set<Write>
      reads this`attempted
    {
      Lookup(attempted, ns)
    }

    /** The image the next write starts from: the local directory, else the archive, else nothing. */
    ghost function Base(ns: Namespace): Image
      reads this`archives, this`manifests, this`dirs, this`acked, this`attempted
    {
      if ns in dirs then dirs[ns].image else Committed(View(), ns)
    }

    ghost predicate Compatible(ns: Namespace)
      reads this`archives, this`manifests, this`dirs, this`acked, this`attempted
    {
      Base(ns).meta.Some? ==> Base(ns).meta.value.version == version
    }

    // ---- single steps; each leaves a sound world behind, whatever fault it meets ----------

    /** A step without lasting effect: reading, packing, opening the upstream store. */
    method Step() returns (r: Reply)
      modifies this`faults
      ensures r == ReplyTo(Head(old(faults))) && faults == Tail(old(faults))
    {
      r := ReplyTo(Head(faults));
      faults := Tail(faults);
    }

    /** Upload a generation. Its key is the digest of its bytes, so it can only overwrite itself. */
    method PutArchive(ns: Namespace, t: Tarball) returns (r: Reply)
      requires Inv() && Within(t.image, Attempted(ns))
      modifies this`faults, this`archives
      ensures Inv()
      ensures r == ReplyTo(Head(old(faults))) && faults == Tail(old(faults))
      ensures archives == if Happens(Head(old(faults))) then old(archives)[ArchiveKey(ns, sha256(t)) := t] else old(archives)
      ensures forall k | k in old(archives) :: k in archives && archives[k] == old(archives[k])
    {
      hide AllSound;
      PutArchiveKeeps(sha256, undigest, View(), ns, t);
      if Happens(Head(faults)) { archives := archives[ArchiveKey(ns, sha256(t)) := t]; }
      r := Step();
    }

    method PutManifest(ns: Namespace, m: Manifest) returns (r: Reply)
      requires Inv()
      requires ManifestSound(sha256, View().(manifests := manifests[ns := m]), ns)
      requires Holds(archives[m.key].image, Acked(ns))
      modifies this`faults, this`manifests
      ensures Inv()
      ensures r == ReplyTo(Head(old(faults))) && faults == Tail(old(faults))
      ensures manifests == if Happens(Head(old(faults))) then old(manifests)[ns := m] else old(manifests)
    {
      hide AllSound;
      PutManifestKeeps(sha256, View(), ns, m);
      if Happens(Head(faults)) { manifests := manifests[ns := m]; }
      r := Step();
    }

    method DeleteManifest(ns: Namespace) returns (r: Reply)
      requires Inv() && Acked(ns) == {}
      modifies this`faults, this`manifests
      ensures Inv()
      ensures r == ReplyTo(Head(old(faults))) && faults == Tail(old(faults))
      ensures manifests == if Happens(Head(old(faults))) then old(manifests) - {ns} else old(manifests)
    {
      hide AllSound;
      DeleteManifestKeeps(sha256, View(), ns);
      if Happens(Head(faults)) { manifests := manifests - {ns}; }
      r := Step();
    }

    /**
     * Delete objects no manifest names, in one request. A request that does not succeed may
     * have removed any part of them.
     */
    method DeleteObjects(keys: set<Key>) returns (r: Reply, ghost gone: set<Key>)
      requires Inv()
      requires forall n | n in manifests :: manifests[n].key !in keys
      modifies this`faults, this`archives
      ensures Inv()
      ensures r == ReplyTo(Head(old(faults))) && faults == Tail(old(faults))
      ensures gone <= keys && (r == Ok ==> gone == keys)
      ensures archives == old(archives) - gone
    {
      hide AllSound;
      var part: set<Key> := keys;
      if ReplyTo(Head(faults)) != Ok { part :| part <= keys; }
      DeleteObjectsKeeps(sha256, View(), part);
      archives := archives - part;
      gone := part;
      r := Step();
    }

    /** Change one namespace directory in a single file-system step. */
    method PutDir(ns: Namespace, d: Dir) returns (r: Reply)
      requires Inv()
      requires Holds(d.image, Acked(ns)) && Within(d.image, Attempted(ns)) && MarkedIsWhole(ns, d)
      modifies this`faults, this`dirs
      ensures Inv()
      ensures r == ReplyTo(Head(old(faults))) && faults == Tail(old(faults))
      ensures dirs == if Happens(Head(old(faults))) then old(dirs)[ns := d] else old(dirs)
    {
      hide AllSound;
      PutDirKeeps(sha256, View(), ns, d);
      if Happens(Head(faults)) { dirs := dirs[ns := d]; }
      r := Step();
    }

    /** Remove a directory tree, ignoring errors: a refusal leaves it and is not reported. */
    method RemoveTree(ns: Namespace) returns (r: Reply)
      requires Inv()
      modifies this`faults, this`dirs
      ensures Inv()
      ensures faults == Tail(old(faults))
      ensures r == if ReplyTo(Head(old(faults))) == Died then Died else Ok
      ensures dirs == if Happens(Head(old(faults))) then old(dirs) - {ns} else old(dirs)
    {
      hide AllSound;
      RemoveDirKeeps(sha256, View(), ns);
      if Happens(Head(faults)) { dirs := dirs - {ns}; }
      r := Step();
      if r == Raised { r := Ok; }
    }

    /**
     * One page of the listing by prefix. `seen` stands for the continuation token: the keys
     * at or before it. The server may cut the remaining keys into pages as it likes, but a
     * truncated page is not empty.
     */
    method ListPage(ns: Namespace, seen: set<Key>) returns (r: Reply, page: set<Key>, truncated: bool)
      modifies this`faults
      ensures r == ReplyTo(Head(old(faults))) && faults == Tail(old(faults))
      ensures var rest := set k | k in archives && k.ns == ns && k !in seen;
              page <= rest && (truncated <==> page != rest) && (truncated ==> page != {})
    {
      var rest := set k | k in archives && k.ns == ns && k !in seen;
      page := {};
      if rest != {} {
        var first :| first in rest;
        assert {first} <= rest;
        page :| page <= rest && page != {};
      }
      truncated := page != rest;
      r := Step();
    }

    // ---- archive and restore ----------------------------------------------------------

    method LoadManifest(ns: Namespace) returns (r: Reply, found: Option<Manifest>)
      modifies this`faults
      ensures r == Ok ==> found == if ns in manifests then Some(manifests[ns]) else None
      ensures r == Ok && found.Some? ==>
                found.value.schema == 1 && found.value.ns == ns && found.value.key == ArchiveKey(ns, found.value.sha256)
      ensures old(faults) == [] ==> faults == []
      ensures old(faults) == [] && (ns in manifests ==> ValidManifest(ns, manifests[ns])) ==> r == Ok
    {
      found := None;
      r := Step();
      if r != Ok || ns !in manifests { return; }
      if !ValidManifest(ns, manifests[ns]) {
        r := Raised;
        return;
      }
      found := Some(manifests[ns]);
    }

    predicate CacheReady(ns: Namespace)
      reads this`dirs
    {
      && ns in dirs
      && dirs[ns].image.meta.Some?
      && dirs[ns].marker.Some? && dirs[ns].marker.value.ns == ns
      && dirs[ns].image.upstream
    }

    /** Upload the bytes as a generation of their own, and commit it by writing the manifest last. */
    method Publish(ns: Namespace, t: Tarball) returns (r: Reply, m: Manifest)
      requires Inv() && Holds(t.image, Acked(ns)) && Within(t.image, Attempted(ns))
      requires t.image.meta.Some? && t.image.upstream
      modifies this`faults, this`archives, this`manifests
      ensures Inv()
      ensures m == Manifest(ARCHIVE_SCHEMA, ns, ArchiveKey(ns, sha256(t)), sha256(t))
      ensures archives == old(archives) || archives == old(archives)[m.key := t]
      ensures forall k | k in old(archives) :: k in archives && archives[k] == old(archives[k])
      ensures manifests == old(manifests) || (manifests == old(manifests)[ns := m] && archives == old(archives)[m.key := t])
      ensures r == Ok ==> manifests == old(manifests)[ns := m] && archives == old(archives)[m.key := t]
      ensures ReplyTo(At(old(faults), 0)) == ReplyTo(At(old(faults), 1)) == Ok ==> r == Ok && faults == Drop(old(faults), 2)
      ensures old(faults) == [] ==> r == Ok && faults == []
    {
      hide AllSound;
      FirstSteps(faults);
      FirstReplies(faults);
      m := Manifest(ARCHIVE_SCHEMA, ns, ArchiveKey(ns, sha256(t)), sha256(t));
      r := PutArchive(ns, t);
      if r != Ok { return; }
      r := PutManifest(ns, m);
    }

    /**
     * Only after the new generation is committed, and the directory marked with it, is the
     * generation the old manifest named deleted; when that fails, the old bytes leak.
     */
    method CommitGeneration(ns: Namespace, t: Tarball, previous: Option<Manifest>) returns (r: Reply)
      requires Inv() && Holds(t.image, Acked(ns)) && Within(t.image, Attempted(ns))
      requires t.image.meta.Some? && t.image.upstream
      requires previous.Some? ==> previous.value.key.ns == ns
      requires ns in dirs && dirs[ns] == Dir(t.image, None)
      modifies this`faults, this`archives, this`manifests, this`dirs
      ensures Inv()
      ensures SameElsewhere(ns, old(archives), archives)
      ensures manifests == old(manifests) || (ns in manifests && manifests == old(manifests)[ns := manifests[ns]])
      ensures manifests == old(manifests) || Committed(View(), ns) == t.image
      ensures Committed(View(), ns) == old(Committed(View(), ns)) || Committed(View(), ns) == t.image
      ensures r == Ok ==> ns in manifests && forall k | k in archives :: k in old(archives) || k == manifests[ns].key
      ensures dirs == old(dirs) || (ns in manifests && dirs == old(dirs)[ns := Dir(t.image, Some(manifests[ns]))])
      ensures dirs != old(dirs) ==> Committed(View(), ns) == t.image
      ensures r == Ok ==> ns in manifests && dirs == old(dirs)[ns := Dir(t.image, Some(manifests[ns]))]
      ensures r == Ok ==> Committed(View(), ns) == t.image
      // Once the new generation is committed and marked, it counts: that the old one could not be deleted is only logged.
      ensures (forall i: nat | i < 3 :: ReplyTo(At(old(faults), i)) == Ok) && ReplyTo(At(old(faults), 3)) != Died ==> r == Ok
      ensures old(faults) == [] ==> r == Ok && faults == []
    {
      hide AllSound, Holds, Within;
      FirstSteps(faults);
      FirstReplies(faults);
      var m;
      r, m := Publish(ns, t);
      if r != Ok { return; }
      r := PutDir(ns, Dir(t.image, Some(m)));
      if r != Ok { return; }
      if previous.Some? && previous.value.key != m.key { r := DropGeneration(ns, previous.value.key); }
    }

    /** Delete a generation that is no longer the committed one; a failure only leaks bytes. */
    method DropGeneration(ns: Namespace, key: Key) returns (r: Reply)
      requires Inv() && key.ns == ns && (ns in manifests ==> manifests[ns].key != key)
      modifies this`faults, this`archives
      ensures Inv()
      ensures r == if ReplyTo(Head(old(faults))) == Died then Died else Ok
      ensures archives == old(archives) || archives == old(archives) - {key}
      ensures r == Ok && ReplyTo(Head(old(faults))) == Ok ==> archives == old(archives) - {key}
      ensures Committed(View(), ns) == old(Committed(View(), ns)) && SameElsewhere(ns, old(archives), archives)
      ensures old(faults) == [] ==> faults == []
    {
      hide AllSound;
      ghost var gone;
      ManifestKeysOwn(sha256, View());
      r, gone := DeleteObjects({key});
      assert gone == {} || gone == {key};
      assert old(archives) - {} == old(archives);
      if r == Raised { r := Ok; } // logged
    }

    /** Pack a directory, without its marker, and commit it as the namespace's new generation. */
    method ArchiveSync(ns: Namespace) returns (r: Reply)
      requires Inv() && ns in dirs
      requires dirs[ns].image.meta.Some? && dirs[ns].image.upstream
      modifies this`faults, this`archives, this`manifests, this`dirs
      ensures Inv()
      ensures ns in dirs && dirs == old(dirs)[ns := dirs[ns]] && dirs[ns].image == old(dirs[ns].image)
      ensures SameElsewhere(ns, old(archives), archives)
      ensures manifests == old(manifests) || (ns in manifests && manifests == old(manifests)[ns := manifests[ns]])
      ensures manifests == old(manifests) || Committed(View(), ns) == old(dirs[ns].image)
      ensures Committed(View(), ns) == old(Committed(View(), ns)) || Committed(View(), ns) == old(dirs[ns].image)
      ensures r == Ok ==> ns in manifests && forall k | k in archives :: k in old(archives) || k == manifests[ns].key
      ensures r == Ok ==> ns in manifests && dirs[ns].marker == Some(manifests[ns])
      ensures r == Ok ==> Committed(View(), ns) == old(dirs[ns].image)
      // Once anything was uploaded, a marker certifies that the directory is what is committed.
      ensures archives != old(archives) && dirs[ns].marker.Some? ==> Committed(View(), ns) == dirs[ns].image
      ensures dirs[ns].marker.Some? ==> dirs[ns] == old(dirs[ns]) || Committed(View(), ns) == dirs[ns].image
      ensures old(faults) == [] ==> r == Ok && faults == []
    {
      hide AllSound, Holds, Sound, Lookup, SameElsewhere;
      ManifestKeysOwn(sha256, View());
      SameAsItself(ns, archives);
      var previous;
      r, previous := LoadManifest(ns);
      if r != Ok { return; }
      var t;
      r, t := Pack(ns);
      if r != Ok { return; }
      r := CommitGeneration(ns, t, previous);
    }

    /** Pack a directory; its marker is removed first, since it describes the cache and not the memory. */
    method Pack(ns: Namespace) returns (r: Reply, t: Tarball)
      requires Inv() && ns in dirs
      modifies this`faults, this`dirs
      ensures Inv() && t.image == old(dirs[ns].image)
      ensures Holds(t.image, Acked(ns)) && Within(t.image, Attempted(ns))
      ensures dirs == old(dirs) || dirs == old(dirs)[ns := Dir(t.image, None)]
      ensures r == Ok ==> dirs == old(dirs)[ns := Dir(t.image, None)]
      ensures var first := ReplyTo(Head(old(faults)));
              r == if first != Ok then first else ReplyTo(Head(Tail(old(faults))))
      ensures old(faults) == [] ==> r == Ok && faults == []
    {
      hide AllSound, Holds;
      SoundAt(sha256, View(), ns);
      var stamp: nat := *;
      t := Tarball(dirs[ns].image, stamp);
      r := PutDir(ns, Dir(t.image, None));
      if r != Ok { return; }
      r := Step(); // pack and digest
    }

    /** Fetch an object; on a damaged transfer any bytes may arrive. */
    method Download(key: Key) returns (r: Reply, bytes: Tarball)
      modifies this`faults
      ensures faults == Tail(old(faults))
      ensures r == if key in archives then ReplyTo(Head(old(faults)))
                   else if ReplyTo(Head(old(faults))) == Died then Died else Raised
      ensures r == Ok && Head(old(faults)) != Damaged ==> bytes == archives[key]
    {
      bytes := *;
      if key in archives && Head(faults) != Damaged { bytes := archives[key]; }
      r := Step();
      if r == Ok && key !in archives { r := Raised; }
    }

    /** Fetch the committed generation, check its digest and put it in place of the directory. */
    method RestoreSync(ns: Namespace) returns (r: Reply, restored: bool)
      requires Inv()
      modifies this`faults, this`dirs
      ensures Inv()
      ensures forall n | n != ns :: n in dirs <==> n in old(dirs)
      ensures forall n | n != ns && n in dirs :: dirs[n] == old(dirs[n])
      ensures ns in dirs ==>
                || (ns in old(dirs) && dirs[ns] == old(dirs[ns]))
                || (ns in manifests && dirs[ns].image == Committed(View(), ns))
      ensures r == Ok ==> (restored <==> ns in manifests)
      ensures r == Ok && restored ==> ns in dirs && dirs[ns] == Dir(Committed(View(), ns), Some(manifests[ns])) && CacheReady(ns)
      ensures r == Ok && !restored ==> dirs == old(dirs)
      ensures old(faults) == [] ==> r == Ok && faults == []
    {
      hide AllSound, Holds;
      SoundAt(sha256, View(), ns);
      var found;
      restored := false;
      r, found := LoadManifest(ns);
      if r != Ok || found.None? { return; }
      var m := found.value;
      var bytes;
      r, bytes := Download(m.key);
      if r != Ok { return; }
      if sha256(bytes) != m.sha256 || bytes.image.meta.None? {
        r := Raised;
        return;
      }
      assert undigest(sha256(bytes)) == undigest(sha256(archives[m.key]));
      r := ReplaceDirectory(ns, bytes.image, m);
      restored := r == Ok;
    }

    /** Put an extracted directory in place of the one there, then its marker. */
    method ReplaceDirectory(ns: Namespace, image: Image, m: Manifest) returns (r: Reply)
      requires Inv() && Holds(image, Acked(ns)) && Within(image, Attempted(ns)) && MarkedIsWhole(ns, Dir(image, Some(m)))
      modifies this`faults, this`dirs
      ensures Inv()
      ensures dirs == old(dirs) || dirs == old(dirs) - {ns}
              || dirs == old(dirs)[ns := Dir(image, None)] || dirs == old(dirs)[ns := Dir(image, Some(m))]
      ensures r == Ok ==> dirs == old(dirs)[ns := Dir(image, Some(m))]
      // A directory that is not empty and cannot be removed is in the way.
      ensures ns in old(dirs) && !Happens(Head(old(faults))) && old(dirs[ns]) != Dir(EMPTY_IMAGE, None) ==> dirs == old(dirs) && r != Ok
      ensures old(faults) == [] ==> r == Ok && faults == []
    {
      hide AllSound, Holds;
      if ns in dirs {
        r := RemoveTree(ns);
        if r != Ok { return; }
      }
      if ns in dirs && dirs[ns] != Dir(EMPTY_IMAGE, None) {
        r := Step(); // the rename finds files in its way
        if r == Ok { r := Raised; }
        return;
      }
      r := PutDir(ns, Dir(image, None)); // rename the extracted directory
      if r != Ok { return; }
      r := PutDir(ns, dirs[ns].(marker := Some(m)));
    }

    // ---- delete -------------------------------------------------------------------

    /** List one page of the namespace's objects and delete it. */
    method DeletePage(ns: Namespace, seen: set<Key>) returns (r: Reply, page: set<Key>, truncated: bool)
      requires Inv() && ns !in manifests
      modifies this`faults, this`archives
      ensures Inv() && Later(old(faults), faults)
      ensures page <= old(Objects(archives, ns)) && (truncated ==> page != {})
      ensures exists gone :: gone <= page && archives == old(archives) - gone
      ensures r == Ok ==> archives == old(archives) - page
      ensures r == Ok && !truncated ==> Objects(archives, ns) <= seen
      ensures old(|Objects(archives, ns)|) == 1 && seen == {} && Head(old(faults)) == Head(Tail(old(faults))) == Fine ==>
                r == Ok && !truncated && faults == Tail(Tail(old(faults)))
      ensures old(faults) == [] ==> r == Ok && faults == []
    {
      hide AllSound, Later;
      LaterStart(faults);
      LaterStep(faults, faults);
      r, page, truncated := ListPage(ns, seen);
      assert archives == archives - {};
      if r != Ok { return; }
      OneObjectOnePage(archives, ns, seen, page);
      LaterStep(old(faults), faults);
      if page != {} {
        ghost var gone;
        ManifestKeysOwn(sha256, View());
        r, gone := DeleteObjects(page);
      }
    }

    /** Remove the manifest, then every object under the namespace's prefix, page by page. */
    method DeleteArchiveSync(ns: Namespace) returns (r: Reply)
      requires Inv() && Acked(ns) == {}
      modifies this`faults, this`manifests, this`archives
      ensures Inv()
      ensures manifests == old(manifests) || manifests == old(manifests) - {ns}
      ensures forall k | k in archives :: k in old(archives) && archives[k] == old(archives[k])
      ensures SameElsewhere(ns, old(archives), archives)
      ensures archives != old(archives) ==> ns !in manifests
      ensures r == Ok ==> ns !in manifests && forall k | k in archives :: k.ns != ns
      ensures Later(old(faults), faults)
      ensures old(|Objects(archives, ns)|) == 1 && FirstThreeWork(old(faults)) ==> r == Ok && faults == Drop(old(faults), 3)
      ensures old(faults) == [] ==> r == Ok && faults == []
    {
      hide AllSound, Later;
      FirstSteps(faults);
      LaterStart(faults);
      LaterStep(faults, faults);
      r := DeleteManifest(ns);
      if r != Ok { return; }
      var seen: set<Key> := {};
      while true
        invariant Inv() && r == Ok
        invariant manifests == old(manifests) - {ns}
        invariant forall k | k in archives :: k in old(archives) && archives[k] == old(archives[k])
        invariant SameElsewhere(ns, old(archives), archives)
        invariant forall k | k in seen :: k !in archives
        invariant old(faults) == [] ==> faults == []
        invariant Later(old(faults), faults)
        invariant old(|Objects(archives, ns)|) == 1 && FirstThreeWork(old(faults)) ==>
                    seen == {} && archives == old(archives) && faults == Drop(old(faults), 1)
        decreases Objects(archives, ns)
      {
        ghost var left, before := Objects(archives, ns), faults;
        var page, truncated;
        r, page, truncated := DeletePage(ns, seen);
        LaterStill(old(faults), before, faults);
        if r != Ok { return; }
        if !truncated { break; }
        LaterStep(old(faults), faults);
        r := Step(); // the continuation token may be missing
        if r != Ok { return; }
        var first :| first in page;
        assert first in left && first !in Objects(archives, ns);
        seen := seen + page;
      }
    }

    /** A delete request withdraws every promise made for the namespace. */
    ghost method Withdraw(ns: Namespace)
      requires Inv()
      modifies this`acked
      ensures Inv() && Acked(ns) == {} && acked == old(acked)[ns := {}]
    {
      hide AllSound;
      ForgetKeeps(sha256, View(), ns);
      acked := acked[ns := {}];
    }

    /**
     * Delete a namespace; the local directory goes even when object storage fails, unless
     * its removal is refused, which is not reported. `met` is the schedule the removal met.
     */
    method DeleteSync(ns: Namespace) returns (r: Reply, ghost met: seq<Fault>)
      requires Inv()
      modifies this
      ensures Inv()
      ensures acked == old(acked)[ns := {}]
      ensures attempted == if r == Ok && ns !in dirs then old(attempted)[ns := {}] else old(attempted)
      ensures manifests == old(manifests) || manifests == old(manifests) - {ns}
      ensures forall k | k in archives :: k in old(archives) && archives[k] == old(archives[k])
      ensures SameElsewhere(ns, old(archives), archives)
      ensures ns in manifests ==> archives == old(archives)
      ensures dirs == old(dirs) - {ns} || dirs == old(dirs)
      ensures r == Ok ==> ns !in manifests && forall k | k in archives :: k.ns != ns
      // A delete answered with success leaves the directory exactly when its removal was refused.
      ensures r != Died ==> Later(old(faults), met) && faults == Tail(met)
      ensures r != Died ==> dirs == if Head(met) == Refused then old(dirs) else old(dirs) - {ns}
      ensures r == Ok && ns in dirs ==> Refused in old(faults)
      ensures old(|Objects(archives, ns)|) == 1 && FirstThreeWork(old(faults)) && At(old(faults), 3) == Refused ==>
                r == Ok && met == Drop(old(faults), 3)
      ensures old(faults) == [] ==> r == Ok && faults == [] && ns !in dirs
    {
      hide AllSound, Sound, Holds, Later, SameElsewhere, FirstThreeWork, Objects, Drop, At, Lookup, Committed;
      Withdraw(ns);
      met := faults;
      LaterStart(faults);
      r := DeleteArchiveSync(ns);
      if r == Died { return; }
      met := faults;
      LaterStep(old(faults), met);
      DropOne(old(faults), 3);
      r := RemoveLocal(ns, r == Raised);
    }

    /** Remove the local directory, and report a failure of object storage only after that. */
    method RemoveLocal(ns: Namespace, remoteError: bool) returns (r: Reply)
      requires Inv()
      requires !remoteError ==> ns !in manifests && forall k | k in archives :: k.ns != ns
      modifies this`faults, this`dirs, this`attempted
      ensures Inv()
      ensures faults == Tail(old(faults))
      ensures r == if ReplyTo(Head(old(faults))) == Died then Died else if remoteError then Raised else Ok
      ensures dirs == if Happens(Head(old(faults))) then old(dirs) - {ns} else old(dirs)
      ensures attempted == if r == Ok && ns !in dirs then old(attempted)[ns := {}] else old(attempted)
    {
      hide AllSound, Sound, Holds;
      r := RemoveTree(ns);
      if r == Died { return; }
      if remoteError { return Raised; }
      if ns !in dirs {
        ErasedKeeps(sha256, View(), ns);
        attempted := attempted[ns := {}]; // what was asked for is erased for good
      }
    }

    // ---- the bounded cache ------------------------------------------------------------

    /** Walk the data root: every namespace directory with its size and last use, plus other bytes. */
    method ScanDataRoot() returns (listing: seq<Entry>, loose: nat)
      ensures forall e | e in listing :: e.name in dirs && (e.marked <==> dirs[e.name].marker.Some?)
      ensures forall ns | ns in dirs :: exists e :: e in listing && e.name == ns
      ensures DistinctNames(listing)
    {
      listing := [];
      loose := *;
      var left := dirs.Keys;
      while left != {}
        invariant left <= dirs.Keys
        invariant forall e | e in listing :: e.name in dirs && e.name !in left && (e.marked <==> dirs[e.name].marker.Some?)
        invariant forall ns | ns in dirs && ns !in left :: exists e :: e in listing && e.name == ns
        invariant forall i, j | 0 <= i < j < |listing| :: listing[i].name != listing[j].name
        decreases left
      {
        var ns :| ns in left;
        var bytes: nat, touched: int := *, *;
        var e := Entry(ns, bytes, touched, dirs[ns].marker.Some?);
        ghost var before := listing;
        listing := listing + [e];
        assert e in listing && forall x | x in before :: x in listing;
        left := left - {ns};
      }
    }

    /** Remove directories in the given order until the total is down to the low-water mark. */
    method EvictInOrder(order: seq<Entry>, before: nat) returns (r: Reply, after: nat, evicted: nat)
      requires Inv() && TotalBytes(order) <= before
      modifies this`faults, this`dirs
      ensures Inv()
      ensures evicted <= |order| && (r == Died ==> evicted < |order|)
      // A refused removal is counted like any other; which directories really went is up to the schedule.
      ensures dirs == old(dirs) - Removed(order, old(faults), if r == Died then evicted + 1 else evicted)
      ensures after == before - TotalBytes(order[..evicted])
      ensures forall i | 0 <= i < evicted :: before - TotalBytes(order[..i]) > lowWater
      ensures r == Ok ==> after <= lowWater || evicted == |order|
      ensures r != Raised && (old(faults) == [] ==> r == Ok && faults == [])
    {
      hide AllSound, Sound, Names, TotalBytes, Removed;
      NoneOfPrefix(order);
      NoneRemoved(order, faults);
      assert order[..|order|] == order;
      r, after, evicted := Ok, before, 0;
      while evicted < |order|
        invariant Inv() && r == Ok
        invariant evicted <= |order| && faults == Drop(old(faults), evicted)
        invariant dirs == old(dirs) - Removed(order, old(faults), evicted)
        invariant after == before - TotalBytes(order[..evicted])
        invariant forall i | 0 <= i < evicted :: before - TotalBytes(order[..i]) > lowWater
      {
        if after <= lowWater { return; }
        TotalOfPrefix(order, evicted);
        OneMoreRemoved(order, old(faults), evicted);
        DropOne(old(faults), evicted);
        r := RemoveTree(order[evicted].name);
        if r == Died { return; }
        after := Max(0, after - order[evicted].bytes);
        evicted := evicted + 1;
      }
    }

    /**
     * Evict least recently used marked directories, oldest first, while the cache is above
     * the low-water mark, once it has gone above the high-water mark.
     */
    method EnforceCacheBudget(listing: seq<Entry>, loose: nat)
      returns (r: Reply, before: nat, after: nat, evicted: nat)
      requires Inv()
      modifies this`faults, this`dirs
      ensures Inv()
      ensures before == loose + TotalBytes(listing)
      ensures before <= highWater ==> dirs == old(dirs) && after == before && evicted == 0 && r == Ok
      ensures evicted <= |EvictionOrder(listing)| && (r == Died ==> evicted < |EvictionOrder(listing)|)
      ensures dirs == old(dirs) - Removed(EvictionOrder(listing), old(faults), if r == Died then evicted + 1 else evicted)
      ensures after == before - TotalBytes(EvictionOrder(listing)[..evicted])
      ensures forall i | 0 <= i < evicted :: before - TotalBytes(EvictionOrder(listing)[..i]) > lowWater
      ensures r == Ok && before > highWater ==> after <= lowWater || evicted == |EvictionOrder(listing)|
      ensures r != Raised && (old(faults) == [] ==> r == Ok && faults == [])
    {
      before := loose + TotalBytes(listing);
      if before <= highWater {
        NoneOfPrefix(EvictionOrder(listing));
        NoneRemoved(EvictionOrder(listing), faults);
        return Ok, before, before, 0;
      }
      EvictionOrderSound(listing);
      r, after, evicted := EvictInOrder(EvictionOrder(listing), before);
    }

    /** The bookkeeping after an operation: keep the cache within its budget. */
    method TrimCache() returns (r: Reply)
      requires Inv()
      modifies this`faults, this`dirs, this`trims
      ensures Inv()
      ensures r != Raised && trims == old(trims) + 1
      ensures forall n | n in dirs :: n in old(dirs) && dirs[n] == old(dirs[n])
      ensures forall n | n in old(dirs) && n !in dirs :: old(dirs[n]).marker.Some?
      ensures old(faults) == [] ==> r == Ok && faults == []
    {
      hide AllSound;
      trims := trims + 1;
      var listing, loose := ScanDataRoot();
      var before, after, evicted;
      r, before, after, evicted := EnforceCacheBudget(listing, loose);
      forall n | n in old(dirs) && n !in dirs ensures old(dirs[n]).marker.Some? {
        var reached := if r == Died then evicted + 1 else evicted;
        RemovedWereOffered(EvictionOrder(listing), old(faults), reached);
        EvictedWereMarked(listing, reached, n);
      }
    }

    // ---- writes -----------------------------------------------------------------------

    /** Ensure the namespace has a local directory: the one there, the archived one, or a new one. */
    method PrepareForWrite(ns: Namespace) returns (r: Reply)
      requires Inv()
      modifies this`faults, this`dirs
      ensures Inv()
      ensures forall n | n != ns :: n in dirs <==> n in old(dirs)
      ensures forall n | n != ns && n in dirs :: dirs[n] == old(dirs[n])
      ensures ns in dirs ==> dirs[ns].image.stored == old(Base(ns)).stored
      ensures ns in old(dirs) ==> ns in dirs && dirs[ns].marker == old(dirs[ns].marker)
      ensures r == Ok ==> ns in dirs && dirs[ns].image.meta.Some?
      ensures ns in old(dirs) && old(dirs[ns]).image.meta.Some? ==> r == Ok && dirs == old(dirs) && faults == old(faults)
      ensures r == Ok ==> dirs[ns].image.stored == old(Base(ns)).stored
      ensures r == Ok ==> old(Base(ns)).meta.Some? ==> dirs[ns].image == old(Base(ns))
      ensures r == Ok ==> old(Base(ns)).meta.None? ==> dirs[ns].image.meta == Some(Meta(version, {}))
      ensures old(faults) == [] ==> r == Ok && faults == []
    {
      hide AllSound;
      SoundAt(sha256, View(), ns);
      if ns !in dirs {
        var restored;
        r, restored := RestoreSync(ns);
        if r != Ok { return; }
        if !restored {
          r := PutDir(ns, Dir(EMPTY_IMAGE, None)); // make the directory
          if r != Ok { return; }
        }
      }
      r := Ok;
      if dirs[ns].image.meta.None? {
        r := PutDir(ns, dirs[ns].(image := dirs[ns].image.(meta := Some(Meta(version, {})))));
      }
    }

    /** An image with one more memory, and its record if the upstream store names it; without metadata it gets some of this version. */
    ghost function WithMemory(base: Image, w: Write): (r: Image)
      ensures Holds(r, {w}) && r.stored == base.stored + {w} && r.meta.Some? && r.upstream
    {
      Image(base.stored + {w}, Some(Recorded(if base.meta.Some? then base.meta.value else Meta(version, {}), w)), true)
    }

    /** An image with one more memory and no record of it yet. */
    ghost function Unclosed(base: Image, w: Write): Image {
      base.(stored := base.stored + {w}, upstream := true)
    }

    /**
     * Add one memory to the upstream store of a prepared directory and record it. Text is
     * closed before it is recorded, media after; a media request whose frames got no
     * caption is refused when the upstream store already has it.
     */
    method IndexMemory(ns: Namespace, w: Write, kind: Kind) returns (r: Reply)
      requires Inv() && ns in dirs && dirs[ns].image.meta.Some? && w in Attempted(ns)
      modifies this`faults, this`dirs
      ensures Inv()
      ensures ns in dirs && dirs == old(dirs)[ns := dirs[ns]]
      ensures dirs[ns].image.stored == old(dirs[ns].image).stored || dirs[ns].image.stored == old(dirs[ns].image).stored + {w}
      ensures r == Ok ==> dirs[ns].image.stored == old(dirs[ns].image).stored + {w}
      ensures r == Ok ==> dirs[ns].image == WithMemory(old(dirs[ns].image), w)
      ensures dirs[ns].marker == old(dirs[ns].marker)
      ensures ClosingFails(old(faults)) ==> r == Raised && dirs[ns].image == Unclosed(old(dirs[ns].image), w)
      ensures kind == Media(true) ==> r != Ok
      ensures old(faults) == [] && kind != Media(true) ==> r == Ok && faults == []
    {
      hide AllSound, ClosingFails, Holds, Within;
      if ClosingFails(faults) { ClosingSteps(faults); }
      r := AddMemory(ns, w);
      if r != Ok { return; }
      if kind == Media(true) { return Raised; }
      r := Step(); // close; for media it comes after the record, with the same effect
      if r != Ok { return; }
      r := RecordMemory(ns, w, kind);
    }

    /** Open the upstream store and add the memory. */
    method AddMemory(ns: Namespace, w: Write) returns (r: Reply)
      requires Inv() && ns in dirs && w in Attempted(ns)
      modifies this`faults, this`dirs
      ensures Inv()
      ensures dirs == old(dirs) || dirs == old(dirs)[ns := old(dirs[ns]).(image := Unclosed(old(dirs[ns].image), w))]
      ensures r == Ok ==> dirs == old(dirs)[ns := old(dirs[ns]).(image := Unclosed(old(dirs[ns].image), w))]
      ensures Head(old(faults)) == Head(Tail(old(faults))) == Fine ==> r == Ok && faults == Tail(Tail(old(faults)))
      ensures old(faults) == [] ==> r == Ok && faults == []
    {
      hide AllSound;
      SoundAt(sha256, View(), ns);
      r := Step(); // open
      if r != Ok { return; }
      r := PutDir(ns, dirs[ns].(image := Image(dirs[ns].image.stored + {w}, dirs[ns].image.meta, true)));
    }

    /** Record the memory, if the upstream store names it; media writes write the metadata anyway. */
    method RecordMemory(ns: Namespace, w: Write, kind: Kind) returns (r: Reply)
      requires Inv() && ns in dirs && dirs[ns].image.meta.Some? && w in dirs[ns].image.stored
      modifies this`faults, this`dirs
      ensures Inv()
      ensures ns in dirs && dirs == old(dirs)[ns := dirs[ns]] && dirs[ns].marker == old(dirs[ns].marker)
      ensures dirs[ns].image.stored == old(dirs[ns].image.stored)
      ensures r == Ok ==> dirs[ns].image == old(dirs[ns].image).(meta := Some(Recorded(old(dirs[ns].image.meta.value), w)))
      ensures old(faults) == [] ==> r == Ok && faults == []
    {
      hide AllSound;
      SoundAt(sha256, View(), ns);
      var meta := dirs[ns].image.meta.value;
      r := Ok;
      assert !w.named ==> Recorded(meta, w) == meta;
      if w.named || kind.Media? {
        var recorded := if w.named then meta.recorded + {w} else meta.recorded;
        r := PutDir(ns, dirs[ns].(image := dirs[ns].image.(meta := Some(meta.(recorded := recorded)))));
      }
    }

    method PrepareAndIndex(ns: Namespace, w: Write, kind: Kind) returns (r: Reply)
      requires Inv() && w in Attempted(ns)
      modifies this`faults, this`dirs
      ensures Inv()
      ensures forall n | n != ns && n in dirs :: n in old(dirs) && dirs[n] == old(dirs[n])
      ensures ns in dirs ==> dirs[ns].image.stored == old(Base(ns)).stored || dirs[ns].image.stored == old(Base(ns)).stored + {w}
      ensures ns in old(dirs) ==> ns in dirs && dirs[ns].marker == old(dirs[ns].marker)
      ensures r == Ok ==> ns in dirs && dirs[ns].image == WithMemory(old(Base(ns)), w)
      ensures r == Ok && kind == Text ==> old(Compatible(ns))
      ensures ns in old(dirs) && old(dirs[ns]).image.meta.Some? && ClosingFails(old(faults)) && kind.Media? ==>
                r == Raised && dirs[ns].image == Unclosed(old(dirs[ns]).image, w)
      ensures kind == Media(true) ==> r != Ok
      ensures old(faults) == [] && kind != Media(true) && (kind == Text ==> old(Compatible(ns))) ==> r == Ok && faults == []
    {
      hide AllSound, ClosingFails;
      r := PrepareForWrite(ns);
      if r != Ok { return; }
      if kind == Text && dirs[ns].image.meta.value.version != version { return Raised; }
      r := IndexMemory(ns, w, kind);
    }

    /** Index one memory and make it durable before answering. */
    method WriteSync(ns: Namespace, w: Write, kind: Kind) returns (r: Reply)
      requires Inv()
      modifies this
      ensures Inv()
      ensures attempted == old(attempted)[ns := old(Attempted(ns)) + {w}]
      ensures acked == if r == Ok then old(acked)[ns := old(Acked(ns)) + {w}] else old(acked)
      ensures r == Ok ==> ns in manifests && Committed(View(), ns) == WithMemory(old(Base(ns)), w)
      // A directory with a marker holds what is committed, or what it held before and perhaps a write that failed.
      ensures r == Ok ==> Marked(View(), ns) <= Committed(View(), ns).stored
      ensures Marked(View(), ns) <= Committed(View(), ns).stored + old(Committed(View(), ns)).stored + old(Marked(View(), ns)) + {w}
      // Whatever goes wrong: the committed bytes are the old ones or have the write, and so has the directory.
      ensures Committed(View(), ns) == old(Committed(View(), ns)) || Committed(View(), ns).stored == old(Base(ns)).stored + {w}
      ensures ns in dirs ==> dirs[ns].image.stored == old(Base(ns)).stored || dirs[ns].image.stored == old(Base(ns)).stored + {w}
      ensures r == Ok && ns in dirs ==> dirs[ns].image.stored == old(Base(ns)).stored + {w}
      ensures ns in old(dirs) && ns !in dirs ==> Committed(View(), ns).stored == old(Base(ns)).stored + {w}
      ensures r == Ok ==> ns in manifests && forall k | k in archives :: k in old(archives) || k == manifests[ns].key
      ensures manifests == old(manifests) || (ns in manifests && manifests == old(manifests)[ns := manifests[ns]])
      ensures SameElsewhere(ns, old(archives), archives)
      ensures forall n | n != ns && n in dirs :: n in old(dirs) && dirs[n] == old(dirs[n])
      ensures r == Ok && ns in dirs ==> dirs[ns] == Dir(Committed(View(), ns), Some(manifests[ns]))
      ensures r == Ok && kind == Text ==> old(Compatible(ns))
      ensures r == Ok ==> trims == old(trims) + 1
      ensures ns in old(dirs) && old(dirs[ns]).image.meta.Some? && ClosingFails(old(faults)) && kind.Media? ==>
                && r == Raised && manifests == old(manifests) && archives == old(archives)
                && ns in dirs && dirs[ns] == old(dirs[ns]).(image := Unclosed(old(dirs[ns]).image, w))
      ensures kind == Media(true) ==> r != Ok
      ensures old(faults) == [] && kind != Media(true) && (kind == Text ==> old(Compatible(ns))) ==> r == Ok && faults == []
    {
      hide AllSound, Sound, Holds, Within, WithMemory, ClosingFails, Unclosed, Base, Committed, Compatible, SameElsewhere;
      Ask(ns, w);
      SameAsItself(ns, archives);
      ghost var asked := View();
      r := PrepareAndIndex(ns, w, kind);
      SameCommitted(asked, View(), ns);
      if r != Ok { return; }
      r := MakeDurable(ns, w);
    }

    /** From here on the write may be stored. */
    ghost method Ask(ns: Namespace, w: Write)
      requires Inv()
      modifies this`attempted
      ensures Inv() && attempted == old(attempted)[ns := old(Attempted(ns)) + {w}]
      ensures Base(ns) == old(Base(ns)) && Compatible(ns) == old(Compatible(ns))
      ensures Committed(View(), ns) == old(Committed(View(), ns)) && Marked(View(), ns) == old(Marked(View(), ns))
      ensures w in Attempted(ns) && Base(ns) == if ns in dirs then dirs[ns].image else Committed(View(), ns)
    {
      hide AllSound;
      AttemptKeeps(sha256, View(), ns, w);
      attempted := attempted[ns := Attempted(ns) + {w}];
    }

    /** Archive the directory, trim the cache, and only then count the write as answered. */
    method MakeDurable(ns: Namespace, w: Write) returns (r: Reply)
      requires Inv() && ns in dirs && Holds(dirs[ns].image, {w})
      requires dirs[ns].image.meta.Some? && dirs[ns].image.upstream
      modifies this
      ensures Inv()
      ensures attempted == old(attempted) && (r == Ok ==> trims == old(trims) + 1)
      ensures acked == if r == Ok then old(acked)[ns := old(Acked(ns)) + {w}] else old(acked)
      ensures r == Ok ==> ns in manifests && Committed(View(), ns) == old(dirs[ns].image)
      ensures Committed(View(), ns) == old(Committed(View(), ns)) || Committed(View(), ns) == old(dirs[ns].image)
      ensures ns in dirs ==> dirs[ns].image == old(dirs[ns].image)
      ensures ns in dirs && dirs[ns].marker.Some? ==> dirs[ns] == old(dirs[ns]) || Committed(View(), ns) == dirs[ns].image
      ensures r == Ok && ns in dirs ==> dirs[ns] == Dir(Committed(View(), ns), Some(manifests[ns]))
      ensures ns !in dirs ==> Committed(View(), ns) == old(dirs[ns].image)
      ensures r == Ok ==> ns in manifests && forall k | k in archives :: k in old(archives) || k == manifests[ns].key
      ensures manifests == old(manifests) || (ns in manifests && manifests == old(manifests)[ns := manifests[ns]])
      ensures SameElsewhere(ns, old(archives), archives)
      ensures forall n | n != ns && n in dirs :: n in old(dirs) && dirs[n] == old(dirs[n])
      ensures old(faults) == [] ==> r == Ok && faults == []
    {
      hide AllSound, Sound;
      r := ArchiveSync(ns);
      if r != Ok { return; }
      r := TrimCache();
      if r != Ok { return; }
      SoundAt(sha256, View(), ns);
      AckKeeps(sha256, View(), ns, w);
      acked := acked[ns := Acked(ns) + {w}];
    }

    // ---- reads ------------------------------------------------------------------------

    /** Other namespaces' directories are as they were, or gone. */
    ghost predicate SameDirsElsewhere(ns: Namespace, before: map<Namespace, Dir>, after: map<Namespace, Dir>) {
      forall n | n != ns && n in after :: n in before && after[n] == before[n]
    }

    /** The namespace's directory is the one there before, or holds what is committed. */
    ghost predicate MarkedOrCommitted(ns: Namespace, before: map<Namespace, Dir>)
      reads this`archives, this`manifests, this`dirs, this`acked, this`attempted
    {
      ns in dirs ==> (ns in before && dirs[ns] == before[ns]) || dirs[ns].image.stored == Committed(View(), ns).stored
    }

    /** Make the local directory one backed by a committed manifest, restoring it if need be. */
    method PrepareCacheForQuery(ns: Namespace) returns (r: Reply, restored: bool)
      requires Inv()
      modifies this`faults, this`dirs
      ensures Inv()
      ensures r == Ok ==> CacheReady(ns)
      ensures r == Ok ==> && ns in dirs && dirs[ns].image.meta.Some? && dirs[ns].image.upstream
                          && dirs[ns].marker.Some? && dirs[ns].marker.value.ns == ns
      // A directory that has metadata, upstream files and this namespace's marker is used as it is, and no other.
      ensures r == Ok ==> var whole := && ns in old(dirs) && old(dirs[ns]).image.meta.Some? && old(dirs[ns]).image.upstream
                                       && old(dirs[ns]).marker.Some? && old(dirs[ns]).marker.value.ns == ns;
                          if whole then !restored && dirs == old(dirs)
                          else restored && ns in manifests && dirs[ns].image == Committed(View(), ns)
      ensures r == Ok ==> (restored <==> !old(CacheReady(ns)))
      ensures old(CacheReady(ns)) ==> r == Ok && faults == old(faults)
      // One that is not goes, unless its removal is refused, even if nothing can be restored.
      ensures !old(CacheReady(ns)) && ns in old(dirs) && Happens(Head(old(faults))) && ns in dirs ==>
                ns in manifests && dirs[ns].image == Committed(View(), ns)
      ensures SameDirsElsewhere(ns, old(dirs), dirs) && MarkedOrCommitted(ns, old(dirs))
      ensures old(faults) == [] && (ns in manifests || old(CacheReady(ns))) ==> r == Ok && faults == []
    {
      hide AllSound;
      restored := false;
      if CacheReady(ns) { return Ok, false; }
      if ns in dirs {
        r := RemoveTree(ns);
        if r != Ok { return; }
      }
      r, restored := RestoreSync(ns);
      if r == Ok && !restored { r := Raised; } // 404
    }

    /**
     * Open the store of a ready directory. One that cannot be opened is discarded and
     * restored from its committed generation, once: a directory just restored is opened as
     * it is or not at all.
     */
    method OpenForQuery(ns: Namespace, restored: bool) returns (r: Reply)
      requires Inv() && CacheReady(ns)
      modifies this`faults, this`dirs
      ensures Inv()
      ensures r == Ok ==> CacheReady(ns) && dirs[ns].image.meta.value.version == version
      ensures r == Ok ==> dirs[ns].image == old(dirs[ns]).image || (ns in manifests && dirs[ns].image == Committed(View(), ns))
      ensures restored ==> dirs == old(dirs)
      ensures SameDirsElsewhere(ns, old(dirs), dirs) && MarkedOrCommitted(ns, old(dirs))
      ensures old(dirs[ns].image.meta.value.version) == version && ReplyTo(Head(old(faults))) == Ok ==> r == Ok && dirs == old(dirs) && faults == Tail(old(faults))
      ensures restored ==> (r == Ok <==> dirs[ns].image.meta.value.version == version && ReplyTo(Head(old(faults))) == Ok)
      ensures restored ==> faults == old(faults) || faults == Tail(old(faults))
      // One that cannot be opened goes, unless its removal is refused; with nothing else in the way the committed one is opened.
      ensures !restored && old(dirs[ns].image.meta.value.version) == version && ReplyTo(Head(old(faults))) == Raised ==>
                && (Happens(Head(Tail(old(faults)))) && ns in dirs ==> ns in manifests && dirs[ns].image == Committed(View(), ns))
                && (Tail(old(faults)) == [] && ns in manifests
                    && Committed(View(), ns).meta.Some? && Committed(View(), ns).meta.value.version == version ==>
                      r == Ok && dirs[ns].image == Committed(View(), ns) && faults == [])
      ensures old(faults) == [] ==> faults == [] && dirs == old(dirs)
    {
      hide AllSound, Sound, Holds;
      if dirs[ns].image.meta.value.version != version { return Raised; }
      r := Step(); // open
      if r != Raised || restored { return; }
      r := RemoveTree(ns);
      if r != Ok { return; }
      var again;
      r, again := RestoreSync(ns);
      if r == Ok && !again { r := Raised; }
      if r != Ok { return; }
      if dirs[ns].image.meta.value.version != version { return Raised; }
      r := Step(); // open again
    }

    /** What a query would be answered from was written with these models. */
    ghost predicate Readable(ns: Namespace)
      reads this`archives, this`manifests, this`dirs, this`acked, this`attempted
    {
      var image := if CacheReady(ns) then dirs[ns].image else Committed(View(), ns);
      image.meta.Some? && image.meta.value.version == version
    }

    /**
     * Answer a query from a store that has every acknowledged write. A store the upstream
     * package cannot open is discarded and restored from its committed generation, once.
     */
    method QuerySync(ns: Namespace) returns (r: Reply, served: set<Write>)
      requires Inv()
      modifies this`faults, this`dirs, this`trims
      ensures Inv()
      ensures r == Ok ==> Acked(ns) <= served <= Attempted(ns)
      // From the directory there, if complete, or from the committed bytes, and from nothing else.
      ensures r == Ok ==>
                || (&& ns in old(dirs) && old(dirs[ns]).marker.Some? && old(dirs[ns]).marker.value.ns == ns
                    && old(dirs[ns]).image.meta.Some? && old(dirs[ns]).image.meta.value.version == version
                    && old(dirs[ns]).image.upstream && served == old(dirs[ns]).image.stored)
                || (ns in manifests && served == Committed(View(), ns).stored
                    && Committed(View(), ns).meta.Some? && Committed(View(), ns).meta.value.version == version)
      ensures SameDirsElsewhere(ns, old(dirs), dirs) && MarkedOrCommitted(ns, old(dirs))
      // Without faults, the directory as it was decides.
      ensures old(faults) == [] && r == Ok ==>
                var whole := && ns in old(dirs) && old(dirs[ns]).image.meta.Some? && old(dirs[ns]).image.upstream
                             && old(dirs[ns]).marker.Some? && old(dirs[ns]).marker.value.ns == ns;
                served == if whole then old(dirs[ns]).image.stored else Committed(View(), ns).stored
      ensures old(faults) == [] && (old(CacheReady(ns)) || ns in manifests) && old(Readable(ns)) ==> r == Ok
      // A directory whose store cannot be opened is replaced by the committed generation, and the query answered from that.
      ensures old(faults) == [Refused] && old(CacheReady(ns)) && old(Readable(ns)) && ns in manifests
              && Committed(View(), ns).meta.Some? && Committed(View(), ns).meta.value.version == version ==>
                r == Ok && served == Committed(View(), ns).stored
      // A query that fails is not answered.
      ensures old(CacheReady(ns)) && old(Readable(ns)) && ReplyTo(Head(old(faults))) == Ok ==>
                (r == Ok ==> ReplyTo(Head(Tail(old(faults)))) == Ok)
      ensures r == Ok ==> trims == old(trims) + 1
    {
      hide AllSound;
      served := {};
      var restored;
      r, restored := PrepareCacheForQuery(ns);
      if r != Ok { return; }
      r := OpenForQuery(ns, restored);
      if r != Ok { return; }
      SoundAt(sha256, View(), ns);
      served := dirs[ns].image.stored;
      r := Step(); // query
      if r == Died { return; }
      var trimmed := TrimCache();
      if trimmed == Died { r := Died; }
    }

    /** List the recorded memories. */
    method RecentSync(ns: Namespace) returns (r: Reply, listed: set<Write>)
      requires Inv()
      modifies this`faults, this`dirs
      ensures Inv()
      ensures r == Ok ==> (forall w | w in Acked(ns) && w.named :: w in listed) && listed <= Attempted(ns)
      ensures SameDirsElsewhere(ns, old(dirs), dirs) && MarkedOrCommitted(ns, old(dirs))
      ensures r == Ok ==> old(Base(ns)).meta.Some? || ns in manifests
      ensures r == Ok ==> var image := if old(ns in dirs && dirs[ns].image.meta.Some?) then old(dirs[ns]).image else Committed(View(), ns);
                          image.meta.Some? && image.meta.value.version == version && listed == image.meta.value.recorded
    {
      hide AllSound;
      listed := {};
      r := Ok;
      if ns !in dirs || dirs[ns].image.meta.None? {
        var restored;
        r, restored := RestoreSync(ns);
        if r != Ok { return; }
        if !restored || !CacheReady(ns) { return Raised, {}; } // 404
      }
      SoundAt(sha256, View(), ns);
      if dirs[ns].image.meta.value.version != version { return Raised, {}; }
      listed := dirs[ns].image.meta.value.recorded;
    }

    // ---- whole runs -------------------------------------------------------------------

    /**
     * Serve any requests in any order, each under any fault schedule. A request during
     * which the process died is followed by a restart: what survives is exactly the files
     * and objects.
     */
    method Serve(requests: seq<Request>, schedules: seq<seq<Fault>>) returns (log: seq<Served>)
      requires Inv() && View() == World(map[], map[], map[], map[], map[])
      requires |schedules| == |requests|
      modifies this
      ensures |log| == |requests| && forall i | 0 <= i < |log| :: log[i].request == requests[i]
      // A delete answered with success has erased, unless its schedule refused a step.
      ensures forall i | 0 <= i < |log| && log[i].request.Delete? && log[i].reply == Ok && Refused !in schedules[i] :: Erases(log[i])
      // Without faults, deletes and media writes succeed.
      ensures forall i | 0 <= i < |log| && schedules[i] == [] && MustWork(requests[i]) :: log[i].reply == Ok
      // A query is answered with every acknowledged write, and only with what may be shown.
      ensures forall i | 0 <= i < |log| && log[i].reply == Ok :: AnswersWell(log[..i], log[i])
      ensures Inv()
      ensures forall ns :: NothingLost(View(), log, ns) && NothingBack(View(), log, ns)
      ensures forall ns | ns in manifests :: ManifestSound(sha256, View(), ns)
    {
      hide AllSound, Sound, NothingLost, NothingBack, ManifestSound, Holds, Tallied, Shown, Tells, Shows, AnswersWell;
      NothingTallied();
      log := [];
      for i := 0 to |requests|
        invariant |log| == i && forall j | 0 <= j < i :: log[j].request == requests[j]
        invariant forall j | 0 <= j < i && log[j].request.Delete? && log[j].reply == Ok && Refused !in schedules[j] :: Erases(log[j])
        invariant forall j | 0 <= j < i && schedules[j] == [] && MustWork(requests[j]) :: log[j].reply == Ok
        invariant forall j | 0 <= j < i && log[j].reply == Ok :: AnswersWell(log[..j], log[j])
        invariant Inv()
        invariant Tallied(acked, attempted, log) && Shown(View(), log)
      {
        ghost var before, earlier := View(), log;
        var s := ServeOne(requests[i], schedules[i]);
        TallyStep(before, log, s, View());
        ShownStep(before, log, s, View());
        AnswerStep(before, log, s, View());
        log := log + [s];
        assert forall j | 0 <= j < i :: log[..j] == earlier[..j];
        assert log[..i] == earlier;
      }
      forall ns ensures NothingLost(View(), log, ns) && NothingBack(View(), log, ns) {
        RunPromises(sha256, View(), log, ns);
      }
      forall ns | ns in manifests ensures ManifestSound(sha256, View(), ns) { RunPromises(sha256, View(), log, ns); }
    }

    /** What the committed generation holds, and whether the directory has a marker. */
    function CommittedWrites(ns: Namespace): (writes: set<Write>)
      reads this`archives, this`manifests
      ensures forall w: World | w.archives == archives && w.manifests == manifests :: writes == Committed(w, ns).stored
    {
      if ns in manifests && manifests[ns].key in archives then archives[manifests[ns].key].image.stored else {}
    }

    /** Is there a store of the same models to answer from? */
    ghost predicate CanAnswer(ns: Namespace)
      reads this`archives, this`manifests, this`dirs, this`acked, this`attempted
    {
      (CacheReady(ns) || ns in manifests) && Readable(ns)
    }

    /** A request with its answer, and how it left its namespace. */
    function Noted(request: Request, reply: Reply, answer: set<Write>): Served
      reads this`archives, this`manifests, this`dirs
    {
      var ns := request.ns;
      Served(request, reply, request.Delete? && ns !in dirs, CommittedWrites(ns), ns in dirs && dirs[ns].marker.Some?, answer)
    }

    method ServeOne(request: Request, schedule: seq<Fault>) returns (s: Served)
      requires Inv()
      modifies this
      ensures Inv() && s.request == request
      ensures request.Delete? && s.reply == Ok && Refused !in schedule ==> Erases(s)
      ensures schedule == [] && (MustWork(request) || (request.Query? && old(CanAnswer(request.ns)))) ==> s.reply == Ok
      ensures Tells(old(View()), s, View()) && Shows(old(View()), s, View())
    {
      hide AllSound, Tells, Shows;
      faults := schedule;
      match request
      case Put(_, _, _) => s := ServePut(request);
      case Query(_) => s := ServeRead(request);
      case Recent(_) => s := ServeRead(request);
      case Delete(_) => s := ServeDelete(request);
    }

    method ServePut(request: Request) returns (s: Served)
      requires Inv() && request.Put?
      modifies this
      ensures Inv() && s.request == request
      ensures old(faults) == [] && MustWork(request) ==> s.reply == Ok
      ensures Tells(old(View()), s, View()) && Shows(old(View()), s, View())
    {
      hide AllSound, Sound, Holds, Within, SameElsewhere, WithMemory, Base, Committed;
      ghost var before := View();
      var r := WriteSync(request.ns, request.w, request.kind);
      OnlyTouched(sha256, before, View(), request.ns);
      s := Noted(request, r, {});
    }

    method ServeRead(request: Request) returns (s: Served)
      requires Inv() && (request.Query? || request.Recent?)
      modifies this`faults, this`dirs, this`trims
      ensures Inv() && s.request == request
      ensures old(faults) == [] && request.Query? && old(CanAnswer(request.ns)) ==> s.reply == Ok
      ensures Tells(old(View()), s, View()) && Shows(old(View()), s, View())
    {
      hide AllSound, Sound, Holds, Within, Base, SameElsewhere;
      SameAsItself(request.ns, archives);
      ghost var before := View();
      var r, answer;
      if request.Query? { r, answer := QuerySync(request.ns); } else { r, answer := RecentSync(request.ns); }
      OnlyTouched(sha256, before, View(), request.ns);
      SameCommitted(before, View(), request.ns);
      s := Noted(request, r, answer);
    }

    method ServeDelete(request: Request) returns (s: Served)
      requires Inv() && request.Delete?
      modifies this
      ensures Inv() && s.request == request
      ensures s.reply == Ok && Refused !in old(faults) ==> Erases(s)
      ensures old(faults) == [] ==> s.reply == Ok
      ensures Tells(old(View()), s, View()) && Shows(old(View()), s, View())
    {
      hide AllSound, Sound, Holds, Within, SameElsewhere;
      ghost var before := View();
      ghost var met;
      var r;
      r, met := DeleteSync(request.ns);
      OnlyTouched(sha256, before, View(), request.ns);
      s := Noted(request, r, {});
    }
  }

  // ---- what a run promises, read off its requests and answers -------------------------------

  datatype Request =
    | Put(ns: Namespace, w: Write, kind: Kind)
    | Query(ns: Namespace)
    | Recent(ns: Namespace)
    | Delete(ns: Namespace)

  predicate MustWork(request: Request) {
    request.Delete? || (request.Put? && request.kind == Media(false))
  }

  /**
   * `answer`: what a query was answered with. How the namespace was left: `gone`: after a
   * delete, the local directory is gone; `committed`: what the committed generation holds;
   * `marked`: the local directory has an archive marker.
   */
  datatype Served = Served(request: Request, reply: Reply, gone: bool, committed: set<Write>, marked: bool, answer: set<Write>)

  /** The writes answered with success since the last delete request for the namespace. */
  ghost function AckedBy(log: seq<Served>, ns: Namespace): set<Write> {
    if log == [] then {}
    else
      var earlier, last := AckedBy(log[..|log| - 1], ns), log[|log| - 1];
      match last.request
      case Put(n, w, _) => if n == ns && last.reply == Ok then earlier + {w} else earlier
      case Delete(n) => if n == ns then {} else earlier
      case _ => earlier
  }

  /** A delete answered with success that also removed the local directory. */
  predicate Erases(s: Served) {
    s.request.Delete? && s.reply == Ok && s.gone
  }

  /** The writes requested since the last delete that erased the namespace. */
  ghost function AttemptedBy(log: seq<Served>, ns: Namespace): set<Write> {
    if log == [] then {}
    else
      var earlier, last := AttemptedBy(log[..|log| - 1], ns), log[|log| - 1];
      match last.request
      case Put(n, w, _) => if n == ns then earlier + {w} else earlier
      case Delete(n) => if n == ns && Erases(last) then {} else earlier
      case _ => earlier
  }

  /** Every acknowledged write is in the bytes the manifest names. */
  ghost predicate NothingLost(w: World, log: seq<Served>, ns: Namespace) {
    Holds(Committed(w, ns), AckedBy(log, ns)) && (ns in w.dirs ==> Holds(w.dirs[ns].image, AckedBy(log, ns)))
  }

  /** Nothing that a delete erased is in any object or directory of the namespace. */
  ghost predicate NothingBack(w: World, log: seq<Served>, ns: Namespace) {
    && (forall k: Key | k in w.archives && k.ns == ns :: w.archives[k].image.stored <= AttemptedBy(log, ns))
    && (ns in w.dirs ==> w.dirs[ns].image.stored <= AttemptedBy(log, ns))
  }

  /** The tallies kept are those the log gives. */
  ghost predicate Tallied(acked: map<Namespace, set<Write>>, attempted: map<Namespace, set<Write>>, log: seq<Served>) {
    forall ns: Namespace :: Lookup(acked, ns) == AckedBy(log, ns) && Lookup(attempted, ns) == AttemptedBy(log, ns)
  }

  lemma NothingTallied()
    ensures Tallied(map[], map[], []) && Shown(World(map[], map[], map[], map[], map[]), [])
  {
  }

  /** What a request does to the tallies. */
  ghost predicate Tells(before: World, s: Served, after: World) {
    match s.request
    case Put(n, w, _) =>
      && after.attempted == before.attempted[n := Lookup(before.attempted, n) + {w}]
      && after.acked == if s.reply == Ok then before.acked[n := Lookup(before.acked, n) + {w}] else before.acked
    case Delete(n) =>
      && after.attempted == (if Erases(s) then before.attempted[n := {}] else before.attempted)
      && after.acked == before.acked[n := {}]
    case _ => after.acked == before.acked && after.attempted == before.attempted
  }

  lemma TallyStep(before: World, log: seq<Served>, s: Served, after: World)
    requires Tallied(before.acked, before.attempted, log) && Tells(before, s, after)
    ensures Tallied(after.acked, after.attempted, log + [s])
  {
    var longer := log + [s];
    assert longer[..|log|] == log;
    forall ns: Namespace
      ensures Lookup(after.acked, ns) == AckedBy(longer, ns) && Lookup(after.attempted, ns) == AttemptedBy(longer, ns)
    {
      assert Lookup(before.acked, ns) == AckedBy(log, ns);
    }
  }

  // ---- what queries may be answered with ---------------------------------------------------

  /**
   * What was in a generation that was committed after some request, and the writes that
   * failed and left the directory with its marker; since the last delete that erased.
   */
  ghost function Showable(log: seq<Served>, ns: Namespace): set<Write> {
    if log == [] then {}
    else
      var earlier, last := Showable(log[..|log| - 1], ns), log[|log| - 1];
      if last.request.ns != ns then earlier
      else if Erases(last) then {}
      else earlier + last.committed + Strayed(last)
  }

  /** A write that failed before the directory's marker was taken away, or after it was set again. */
  function Strayed(s: Served): set<Write> {
    if s.request.Put? && s.reply != Ok && s.marked then {s.request.w} else {}
  }

  /** Request i of the log put the write before the eyes of later queries, and nothing erased it since. */
  ghost predicate ShowsFrom(log: seq<Served>, ns: Namespace, w: Write, i: nat) {
    && i < |log| && log[i].request.ns == ns
    && (w in log[i].committed || w in Strayed(log[i]))
    && forall j | i <= j < |log| && log[j].request.ns == ns :: !Erases(log[j])
  }

  /** A write may be shown exactly if some request left it committed, or it failed and left the marker. */
  lemma {:induction false} ShowableMeans(log: seq<Served>, ns: Namespace, w: Write)
    ensures w in Showable(log, ns) <==> exists i :: ShowsFrom(log, ns, w, i)
  {
    if log != [] {
      var m := |log| - 1;
      var front := log[..m];
      ShowableMeans(front, ns, w);
      forall i: nat | i < m && !(log[m].request.ns == ns && Erases(log[m]))
        ensures ShowsFrom(front, ns, w, i) <==> ShowsFrom(log, ns, w, i)
      {
        assert forall j | i <= j < m :: front[j] == log[j];
      }
      if w in Showable(log, ns) {
        if w in Showable(front, ns) && !(log[m].request.ns == ns && Erases(log[m])) {
          var i :| ShowsFrom(front, ns, w, i);
          assert ShowsFrom(log, ns, w, i);
        } else {
          assert ShowsFrom(log, ns, w, m);
        }
      }
      if i: nat :| ShowsFrom(log, ns, w, i) {
        if i < m { assert ShowsFrom(front, ns, w, i); }
      }
    }
  }

  /** Directories with a marker and committed generations hold only what may be shown. */
  ghost predicate Shown(w: World, log: seq<Served>) {
    forall ns: Namespace :: Marked(w, ns) + Committed(w, ns).stored <= Showable(log, ns)
  }

  ghost predicate OnlyTouches(before: World, after: World, ns: Namespace) {
    forall n: Namespace | n != ns :: Marked(after, n) <= Marked(before, n) && Committed(after, n) == Committed(before, n)
  }

  /** What a request does to what may be shown, and what it answers. */
  ghost predicate Shows(before: World, s: Served, after: World) {
    var ns := s.request.ns;
    && OnlyTouches(before, after, ns)
    && s.committed == Committed(after, ns).stored
    && Marked(after, ns) <= s.committed + Committed(before, ns).stored + Marked(before, ns) + Strayed(s)
    && (Erases(s) ==> Marked(after, ns) + s.committed == {})
    && (s.reply == Ok && s.request.Query? ==>
          && s.answer <= Marked(before, ns) + Committed(before, ns).stored
          && Lookup(before.acked, ns) <= s.answer <= Lookup(before.attempted, ns))
    && (s.reply == Ok && s.request.Recent? ==>
          s.answer <= Lookup(before.attempted, ns) && forall w | w in Lookup(before.acked, ns) && w.named :: w in s.answer)
  }

  lemma OnlyTouched(hash: Tarball -> string, before: World, after: World, ns: Namespace)
    requires AllSound(hash, before) && AllSound(hash, after)
    requires SameElsewhere(ns, before.archives, after.archives)
    requires forall n | n != ns :: (n in before.manifests <==> n in after.manifests) && (n in after.manifests ==> after.manifests[n] == before.manifests[n])
    requires forall n | n != ns && n in after.dirs :: n in before.dirs && after.dirs[n] == before.dirs[n]
    ensures OnlyTouches(before, after, ns)
  {
    hide AllSound;
    ManifestKeysOwn(hash, before);
    hide ValidManifest;
  }

  lemma ShownStep(before: World, log: seq<Served>, s: Served, after: World)
    requires Shown(before, log) && Shows(before, s, after)
    ensures Shown(after, log + [s])
  {
    hide Marked, Committed, Strayed;
    var longer := log + [s];
    assert longer[..|log|] == log;
    forall ns: Namespace ensures Marked(after, ns) + Committed(after, ns).stored <= Showable(longer, ns) {
      assert Marked(before, ns) + Committed(before, ns).stored <= Showable(log, ns);
    }
  }

  /** The answers of queries and listings, in view of what went before. */
  ghost predicate AnswersWell(earlier: seq<Served>, s: Served) {
    var ns := s.request.ns;
    && (s.request.Query? ==> s.answer <= Showable(earlier, ns) && AckedBy(earlier, ns) <= s.answer <= AttemptedBy(earlier, ns))
    && (s.request.Recent? ==> s.answer <= AttemptedBy(earlier, ns) && forall w | w in AckedBy(earlier, ns) && w.named :: w in s.answer)
  }

  lemma AnswerStep(before: World, log: seq<Served>, s: Served, after: World)
    requires Tallied(before.acked, before.attempted, log) && Shown(before, log) && Shows(before, s, after)
    ensures s.reply == Ok ==> AnswersWell(log, s)
  {
    var ns := s.request.ns;
    assert Lookup(before.acked, ns) == AckedBy(log, ns) && Lookup(before.attempted, ns) == AttemptedBy(log, ns);
    assert Marked(before, ns) + Committed(before, ns).stored <= Showable(log, ns);
  }

  lemma RunPromises(hash: Tarball -> string, w: World, log: seq<Served>, ns: Namespace)
    requires AllSound(hash, w)
    requires Tallied(w.acked, w.attempted, log)
    ensures NothingLost(w, log, ns) && NothingBack(w, log, ns)
    ensures ns in w.manifests ==> ManifestSound(hash, w, ns)
  {
    SoundAt(hash, w, ns);
  }

  /** What is left of a namespace's memories after a delete: the directory's if it is there, else those still committed. */
  ghost function Leftover(before: World, ns: Namespace, dirStayed: bool, manifestStayed: bool): set<Write> {
    if dirStayed && ns in before.dirs then before.dirs[ns].image.stored
    else if manifestStayed then Committed(before, ns).stored
    else {}
  }

  /**
   * A delete under any schedule, whatever becomes of it, then a write of any kind under any
   * schedule that is answered with success: the old memories in the newly committed bytes
   * are exactly those the delete left. Only one answered with success whose directory went
   * has erased them for good.
   */
  method WriteAfterDelete(sidecar: Sidecar, ns: Namespace, w: Write, kind: Kind, deleting: seq<Fault>, writing: seq<Fault>)
    returns (deleted: Reply, dirStayed: bool, manifestStayed: bool, written: Reply)
    requires sidecar.Inv()
    modifies sidecar
    ensures dirStayed ==> ns in old(sidecar.dirs)
    ensures manifestStayed ==> ns in old(sidecar.manifests)
    ensures deleted == Ok ==> !manifestStayed && (dirStayed ==> Refused in deleting)
    ensures deleted == Raised && dirStayed ==> Refused in deleting
    ensures written == Ok ==> ns in sidecar.manifests
    ensures written == Ok ==>
              Committed(sidecar.View(), ns).stored == Leftover(old(sidecar.View()), ns, dirStayed, manifestStayed) + {w}
  {
    sidecar.faults := deleting;
    ghost var met;
    deleted, met := sidecar.DeleteSync(ns);
    dirStayed, manifestStayed := ns in sidecar.dirs, ns in sidecar.manifests;
    if deleted == Raised { LaterStep(deleting, met); }
    sidecar.faults := writing;
    written := sidecar.WriteSync(ns, w, kind);
  }

  /**
   * A memory that was acknowledged, then erased by a delete that was answered with success,
   * comes back: the directory's removal was refused, and the next write archives it again.
   * Only if the cache was trimmed of the directory in between is the memory really gone.
   */
  method ErasedMemoryComesBack(sidecar: Sidecar, ns: Namespace, memory: Write, next: Write)
    returns (stored: Reply, cached: bool, deleted: Reply, written: Reply)
    requires sidecar.Inv() && sidecar.View() == World(map[], map[], map[], map[], map[]) && memory != next
    modifies sidecar
    ensures stored == deleted == written == Ok
    ensures memory in Committed(sidecar.View(), ns).stored <==> cached
  {
    sidecar.faults := [];
    stored := sidecar.WriteSync(ns, memory, Media(false));
    cached := ns in sidecar.dirs;
    OneObject(sidecar.sha256, sidecar.View(), ns);
    deleted, written := DeleteRefused(sidecar, ns, next);
  }

  /**
   * A write that was answered with failure, and is in no committed generation, is served by
   * the next query: its directory had a marker, and still has it.
   */
  method UncommittedWriteIsServed(sidecar: Sidecar, ns: Namespace, first: Write, second: Write)
    returns (cached: bool, written: Reply, queried: Reply, served: set<Write>)
    requires sidecar.Inv() && sidecar.View() == World(map[], map[], map[], map[], map[]) && first != second
    modifies sidecar
    ensures cached ==> written == Raised && queried == Ok && served == {first, second}
    ensures cached ==> Committed(sidecar.View(), ns).stored == {first}
  {
    sidecar.faults := [];
    var stored := sidecar.WriteSync(ns, first, Media(false));
    cached := ns in sidecar.dirs;
    written, queried, served := Ok, Ok, {};
    if cached { written, queried, served := WriteUnclosed(sidecar, ns, second); }
  }

  /**
   * A write that failed and was not committed is shown by the next query, with nothing in the
   * query's way, exactly when it left the directory holding it under a marker.
   */
  method FailedWriteShownExactly(sidecar: Sidecar, ns: Namespace, w: Write, kind: Kind, writing: seq<Fault>)
    returns (written: Reply, ghost between: World, queried: Reply, served: set<Write>)
    requires sidecar.Inv()
    modifies sidecar
    ensures sidecar.Inv() && between.acked == sidecar.acked && between.attempted == sidecar.attempted
    ensures between.archives == sidecar.archives && between.manifests == sidecar.manifests
    ensures written != Ok && w !in Committed(between, ns).stored && queried == Ok ==> (w in served <==> w in Marked(between, ns))
  {
    hide AllSound, Holds, Within;
    sidecar.faults := writing;
    written := sidecar.WriteSync(ns, w, kind);
    between := sidecar.View();
    SoundAt(sidecar.sha256, between, ns);
    sidecar.faults := [];
    queried, served := sidecar.QuerySync(ns);
  }

  method WriteUnclosed(sidecar: Sidecar, ns: Namespace, w: Write) returns (written: Reply, queried: Reply, served: set<Write>)
    requires sidecar.Inv() && ns in sidecar.dirs && ns in sidecar.manifests
    requires sidecar.dirs[ns] == Dir(Committed(sidecar.View(), ns), Some(sidecar.manifests[ns]))
    requires sidecar.dirs[ns].image.meta.Some? && sidecar.dirs[ns].image.meta.value.version == sidecar.version
    modifies sidecar
    ensures written == Raised && queried == Ok && served == old(sidecar.dirs[ns].image.stored) + {w}
    ensures Committed(sidecar.View(), ns) == old(Committed(sidecar.View(), ns))
  {
    hide AllSound, Holds;
    SoundAt(sidecar.sha256, sidecar.View(), ns);
    sidecar.faults := [Fine, Fine, Refused];
    assert ClosingFails(sidecar.faults);
    written := sidecar.WriteSync(ns, w, Media(false));
    sidecar.faults := [];
    queried, served := sidecar.QuerySync(ns);
  }

  method DeleteRefused(sidecar: Sidecar, ns: Namespace, next: Write) returns (deleted: Reply, written: Reply)
    requires sidecar.Inv() && |Objects(sidecar.archives, ns)| == 1
    modifies sidecar
    ensures deleted == written == Ok
    ensures Committed(sidecar.View(), ns).stored ==
              {next} + if ns in old(sidecar.dirs) then old(sidecar.dirs[ns]).image.stored else {}
  {
    hide AllSound, Sound, Holds;
    sidecar.faults := [Fine, Fine, Fine, Refused];
    assert FirstThreeWork(sidecar.faults) && At(sidecar.faults, 3) == Refused && Head(Drop(sidecar.faults, 3)) == Refused;
    ghost var met;
    deleted, met := sidecar.DeleteSync(ns);
    sidecar.faults := [];
    written := sidecar.WriteSync(ns, next, Media(false));
  }

  lemma OneObject(hash: Tarball -> string, w: World, ns: Namespace)
    requires AllSound(hash, w) && ns in w.manifests && forall k | k in w.archives :: k == w.manifests[ns].key
    ensures |Objects(w.archives, ns)| == 1
  {
    SoundAt(hash, w, ns);
    assert Objects(w.archives, ns) == {w.manifests[ns].key};
  }
}
