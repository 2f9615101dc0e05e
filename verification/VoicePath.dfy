/** What the desktop does with the runtime's audio: play it, or drop it as stale. */
module PlaybackFilter {
  import opened Wrappers

  datatype Verdict = Played | NotLive | CancelledGeneration

  datatype Hearing = Hearing(live: bool, stale: int, last: Option<nat>, header: Option<nat>)

  /** The floor is raised to this generation, if there is one. */
  function Floored(d: Hearing, g: Option<nat>): Hearing {
    if g.Some? then d.(stale := Max(d.stale, g.value)) else d
  }

  function Headed(d: Hearing, g: nat): Hearing {
    d.(header := Some(g), last := Some(if d.last.Some? then Max(d.last.value, g) else g))
  }

  function Ended(d: Hearing): Hearing {
    if d.live then Floored(d, d.last).(live := false) else d
  }

  class Desktop {
    var live: bool
    /** Every generation up to this one is refused. */
    var stale: int
    var last: Option<nat>
    /** The `audio.chunk` header the next binary message belongs to. */
    var header: Option<nat>

    constructor ()
      ensures Now() == Hearing(false, -1, None, None)
    {
      live, stale, last, header := false, -1, None, None;
    }

    ghost function Now(): Hearing
      reads this
    {
      Hearing(live, stale, last, header)
    }

    method OnCancel(cancelled: Option<nat>)
      modifies this`stale
      ensures stale == match (if cancelled.Some? then cancelled else last)
                case Some(c) => Max(old(stale), c)
                case None => old(stale)
      ensures Now() == Floored(old(Now()), if cancelled.Some? then cancelled else last)
    {
      var which := if cancelled.Some? then cancelled else last;
      if which.Some? { stale := Max(stale, which.value); }
    }

    method OnHeader(generation: nat)
      modifies this`header, this`last
      ensures Now() == Headed(old(Now()), generation)
    {
      header := Some(generation);
      if last.None? || last.value < generation { last := Some(generation); }
    }

    method OnAudio() returns (v: Verdict)
      modifies this`header
      ensures header.None?
      ensures v == NotLive <==> !live
      ensures v != NotLive && old(header).None? ==> v == Played
      ensures v == CancelledGeneration <==> live && old(header).Some? && old(header).value <= stale
    {
      var h := header;
      header := None;
      if !live { return NotLive; }
      if h.Some? && h.value <= stale { return CancelledGeneration; }
      return Played;
    }

    /** A local cut: whatever is playing now is stale from here on. */
    method RetireGeneration()
      modifies this`stale
      ensures Now() == Floored(old(Now()), last)
    {
      if last.Some? { stale := Max(stale, last.value); }
    }

    method GoLive()
      modifies this`live
      ensures live
    {
      live := true;
    }

    method EndLive()
      modifies this`live, this`stale
      ensures Now() == Ended(old(Now()))
    {
      if !live { return; }
      live := false;
      RetireGeneration();
    }
  }
}

/**
 * From the provider to the speaker: the runtime numbers generations and queues chunks and
 * cancels; the socket carries them in order; the desktop plays or refuses them.
 */
module VoicePath {
  import opened Wrappers
  import opened NativeForeground
  import opened PlaybackFilter

  /** On the wire a chunk is a header and the binary that follows it; `of` says whose samples they are. */
  datatype Message = Header(generation: nat) | Pcm(of: nat) | CancelMessage(cancelled: nat) | OtherMessage

  datatype What = GotAllocated | GotInterrupted | HandledCancel | GotCut | GotPlayed | GotRefused

  /** One thing that happened to generation g. */
  datatype Happening = Happening(what: What, g: nat)

  predicate Floors(e: Happening) {
    e.what == HandledCancel || e.what == GotCut
  }

  /** Once a cancel has been handled, nothing numbered up to it is played. */
  ghost predicate CancelsHold(h: seq<Happening>) {
    forall i, j | 0 <= i < j < |h| && h[i].what == HandledCancel && h[j].what == GotPlayed :: h[i].g < h[j].g
  }

  /** A generation allocated after an interrupt is numbered above what it cancelled. */
  ghost predicate NewAboveCancelled(h: seq<Happening>) {
    forall i, j | 0 <= i < j < |h| && h[i].what == GotInterrupted && h[j].what == GotAllocated :: h[i].g < h[j].g
  }

  ghost predicate Explains(h: seq<Happening>, i: nat, j: nat)
    requires j < |h|
  {
    i < j && Floors(h[i]) && h[j].g <= h[i].g
  }

  ghost predicate Announced(h: seq<Happening>, i: nat, c: nat) {
    i < |h| && h[i] == Happening(GotInterrupted, c)
  }

  /** Was something numbered g or above cancelled or cut? */
  ghost predicate FlooredAt(h: seq<Happening>, g: nat) {
    exists i :: 0 <= i < |h| && Floors(h[i]) && g <= h[i].g
  }

  /**
   * What reaches a live desktop is refused exactly when an earlier cancel or cut is at or
   * above it: one of this session, or one of a session before, whose numbers had nothing to
   * do with those of this one. And every cancel was announced by this session.
   */
  ghost predicate HasCauses(past: seq<Happening>, h: seq<Happening>) {
    && (forall j | 0 <= j < |h| && (h[j].what == GotRefused || h[j].what == GotPlayed) ::
          h[j].what == GotRefused <==> FlooredAt(past, h[j].g) || exists i :: Explains(h, i, j))
    && (forall j | 0 <= j < |h| && h[j].what == HandledCancel :: exists i :: Announced(h[..j], i, h[j].g))
  }

  /** Is the floor the highest of what was cancelled or cut, in this session or before? */
  ghost predicate FloorIs(past: seq<Happening>, h: seq<Happening>, stale: int) {
    && (forall i | 0 <= i < |past| && Floors(past[i]) :: past[i].g <= stale)
    && (forall i | 0 <= i < |h| && Floors(h[i]) :: h[i].g <= stale)
    && (stale >= 0 ==> FlooredAt(past, stale) || FlooredAt(h, stale))
  }

  /** The story of a session so far, with the current generation and the desktop's floor. */
  ghost predicate Story(past: seq<Happening>, h: seq<Happening>, generation: nat, stale: int) {
    && CancelsHold(h) && NewAboveCancelled(h) && HasCauses(past, h) && FloorIs(past, h, stale)
    && (forall i | 0 <= i < |h| && h[i].what == GotAllocated :: h[i].g <= generation)
    && (forall i | 0 <= i < |h| && h[i].what == GotInterrupted :: h[i].g <= generation)
  }

  /** May this happen next, leading to this generation and floor? */
  ghost predicate Next(h: seq<Happening>, e: Happening, generation: nat, stale: int, generation': nat, stale': int) {
    match e.what
    case GotAllocated => e.g == generation + 1 == generation' && stale' == stale
    case GotInterrupted => e.g == generation == generation' && stale' == stale
    case HandledCancel =>
      generation' == generation && stale' == Max(stale, e.g) && exists i :: Announced(h, i, e.g)
    case GotCut => generation' == generation && stale' == Max(stale, e.g)
    case GotPlayed => generation' == generation && stale' == stale < e.g
    case GotRefused => generation' == generation && e.g <= stale' == stale
  }

  lemma StoryContinues(past: seq<Happening>, h: seq<Happening>, e: Happening, generation: nat, stale: int, generation': nat, stale': int)
    requires Story(past, h, generation, stale) && Next(h, e, generation, stale, generation', stale')
    ensures Story(past, h + [e], generation', stale')
  {
    hide CancelsHold, NewAboveCancelled, HasCauses, FloorIs;
    var after := h + [e];
    assert forall i | 0 <= i < |h| :: after[i] == h[i];
    FloorContinues(past, h, e, stale, stale');
    OrderContinues(past, h, e, generation, stale);
    CausesContinue(past, h, e, stale);
  }

  lemma FloorContinues(past: seq<Happening>, h: seq<Happening>, e: Happening, stale: int, stale': int)
    requires FloorIs(past, h, stale) && stale' == if Floors(e) then Max(stale, e.g) else stale
    ensures FloorIs(past, h + [e], stale')
  {
    var after := h + [e];
    assert forall i | 0 <= i < |h| :: after[i] == h[i];
    if Floors(e) && stale' == e.g {
      assert Floors(after[|h|]) && stale' <= after[|h|].g;
    } else if stale' >= 0 && FlooredAt(h, stale) {
      var i :| 0 <= i < |h| && Floors(h[i]) && stale <= h[i].g;
      assert Floors(after[i]) && stale' <= after[i].g;
    }
  }

  /** Playing above the floor, and numbering above every interrupt, keep the order. */
  lemma OrderContinues(past: seq<Happening>, h: seq<Happening>, e: Happening, generation: nat, stale: int)
    requires CancelsHold(h) && NewAboveCancelled(h) && FloorIs(past, h, stale)
    requires forall i | 0 <= i < |h| && h[i].what == GotInterrupted :: h[i].g <= generation
    requires e.what == GotAllocated ==> e.g > generation
    requires e.what == GotPlayed ==> e.g > stale
    ensures CancelsHold(h + [e]) && NewAboveCancelled(h + [e])
  {
    var after := h + [e];
    assert forall i | 0 <= i < |h| :: after[i] == h[i];
    assert forall i | 0 <= i < |h| && h[i].what == HandledCancel :: Floors(h[i]);
  }

  lemma CausesContinue(past: seq<Happening>, h: seq<Happening>, e: Happening, stale: int)
    requires HasCauses(past, h) && FloorIs(past, h, stale)
    requires e.what == GotRefused ==> e.g <= stale
    requires e.what == GotPlayed ==> stale < e.g
    requires e.what == HandledCancel ==> exists i :: Announced(h, i, e.g)
    ensures HasCauses(past, h + [e])
  {
    var after := h + [e];
    forall j | 0 <= j < |after| && (after[j].what == GotRefused || after[j].what == GotPlayed)
      ensures after[j].what == GotRefused <==> FlooredAt(past, after[j].g) || exists i :: Explains(after, i, j)
    {
      if j < |h| {
        assert forall i: nat :: Explains(after, i, j) <==> Explains(h, i, j);
      } else {
        RefusedUpToTheFloor(past, h, e.g, stale);
        assert forall i: nat :: Explains(after, i, j) <==> i < |h| && Floors(h[i]) && e.g <= h[i].g;
      }
    }
    forall j | 0 <= j < |after| && after[j].what == HandledCancel ensures exists i :: Announced(after[..j], i, after[j].g) {
      if j < |h| {
        assert after[..j] == h[..j];
      } else {
        assert after[..j] == h;
      }
    }
  }

  lemma RefusedUpToTheFloor(past: seq<Happening>, h: seq<Happening>, g: nat, stale: int)
    requires FloorIs(past, h, stale)
    ensures g <= stale <==> FlooredAt(past, g) || FlooredAt(h, g)
  {
  }

  /** In a new session all that floors is of the sessions before. */
  lemma StoryBegins(past: seq<Happening>, h: seq<Happening>, generation: nat, stale: int)
    requires Story(past, h, generation, stale)
    ensures Story(past + h, [], 0, stale)
  {
    var all := past + h;
    assert forall i | 0 <= i < |past| :: all[i] == past[i];
    assert forall i | 0 <= i < |h| :: all[|past| + i] == h[i];
    if stale >= 0 && FlooredAt(past, stale) {
      var i :| 0 <= i < |past| && Floors(past[i]) && stale <= past[i].g;
      assert Floors(all[i]) && stale <= all[i].g;
    } else if stale >= 0 {
      var i :| 0 <= i < |h| && Floors(h[i]) && stale <= h[i].g;
      assert Floors(all[|past| + i]) && stale <= all[|past| + i].g;
    }
  }

  /** Binary messages follow their own header. `h`: the header already delivered. */
  ghost predicate WireInStep(h: Option<nat>, wire: seq<Message>)
    decreases wire
  {
    if wire == [] then true
    else match wire[0]
      case Header(g) => WireInStep(Some(g), wire[1..])
      case Pcm(of) => h == Some(of) && WireInStep(None, wire[1..])
      case _ => WireInStep(h, wire[1..])
  }

  lemma {:induction false} WireExtends(h: Option<nat>, wire: seq<Message>, more: seq<Message>)
    requires WireInStep(h, wire)
    requires (exists g :: more == [Header(g), Pcm(g)]) || (|more| == 1 && !more[0].Header? && !more[0].Pcm?)
    ensures WireInStep(h, wire + more)
    decreases wire
  {
    if wire == [] {
      assert wire + more == more;
      if more[0].Header? {
        assert more[1..][0] == more[1] && more[1..][1..] == [];
      } else {
        assert more[1..] == [];
      }
    } else {
      assert (wire + more)[1..] == wire[1..] + more;
      var next := match wire[0] case Header(g) => Some(g) case Pcm(_) => None case _ => h;
      WireExtends(next, wire[1..], more);
    }
  }

  /** How an output of the runtime goes over the wire. */
  function Encode(o: Output): seq<Message> {
    match o
    case Chunk(g, _) => [Header(g), Pcm(g)]
    case Cancel(_, c) => [CancelMessage(c)]
    case _ => [OtherMessage]
  }

  /** What goes over the wire, read back. */
  datatype Meaning = Speech(of: nat) | CancelUpTo(cancelled: nat) | Other

  function MeaningOf(o: Output): Meaning {
    match o
    case Chunk(g, _) => Speech(g)
    case Cancel(_, c) => CancelUpTo(c)
    case _ => Other
  }

  function Wire(outputs: seq<Output>): seq<Message> {
    if outputs == [] then [] else Encode(outputs[0]) + Wire(outputs[1..])
  }

  function ReadBack(wire: seq<Message>): seq<Meaning> {
    if wire == [] then []
    else match wire[0]
      case Header(g) => if |wire| > 1 && wire[1] == Pcm(g) then [Speech(g)] + ReadBack(wire[2..]) else ReadBack(wire[1..])
      case CancelMessage(c) => [CancelUpTo(c)] + ReadBack(wire[1..])
      case OtherMessage => [Other] + ReadBack(wire[1..])
      case Pcm(_) => ReadBack(wire[1..])
  }

  /** Every chunk and every cancel arrives as what it was, in order, and nothing else does. */
  lemma {:induction false} WireTellsAll(outputs: seq<Output>)
    ensures |ReadBack(Wire(outputs))| == |outputs|
    ensures forall k | 0 <= k < |outputs| :: ReadBack(Wire(outputs))[k] == MeaningOf(outputs[k])
  {
    if outputs != [] {
      var rest := Wire(outputs[1..]);
      var all := Encode(outputs[0]) + rest;
      WireTellsAll(outputs[1..]);
      assert all[1..] == Encode(outputs[0])[1..] + rest;
      if outputs[0].Chunk? { assert all[2..] == rest; } else { assert all[1..] == rest; }
      assert ReadBack(all) == [MeaningOf(outputs[0])] + ReadBack(rest);
    }
  }

  /** So within a session no chunk of a generation allocated after an interrupt is refused because of that interrupt. */
  ghost predicate NewerNotRefused(h: seq<Happening>) {
    forall i, j, k, r | 0 <= i < j < |h| && 0 <= k < r < |h|
                        && h[i].what == GotInterrupted && h[j].what == GotAllocated
                        && h[k] == Happening(HandledCancel, h[i].g) && h[r] == Happening(GotRefused, h[j].g) ::
      !Explains(h, k, r)
  }

  /** Every cancel among these outputs is one the runtime made. */
  ghost predicate CancelsKnown(outputs: seq<Output>, cancels: set<nat>) {
    forall i | 0 <= i < |outputs| && outputs[i].Cancel? :: outputs[i].cancelled in cancels
  }

  ghost predicate WireCancelsKnown(wire: seq<Message>, cancels: set<nat>) {
    forall i | 0 <= i < |wire| && wire[i].CancelMessage? :: wire[i].cancelled in cancels
  }

  ghost predicate AllAnnounced(h: seq<Happening>, cancels: set<nat>) {
    forall c | c in cancels :: exists i :: Announced(h, i, c)
  }

  lemma AnnouncedContinues(h: seq<Happening>, e: Happening, cancels: set<nat>)
    requires AllAnnounced(h, cancels)
    ensures AllAnnounced(h + [e], if e.what == GotInterrupted then cancels + {e.g} else cancels)
  {
    assert e.what == GotInterrupted ==> Announced(h + [e], |h|, e.g);
    forall c | c in cancels ensures exists i :: Announced(h + [e], i, c) {
      var i :| Announced(h, i, c);
      assert Announced(h + [e], i, c);
    }
  }

  /** What a step of the runtime adds to the story. */
  ghost function Told(interrupted: bool, before: Situation, after: Situation): seq<Happening> {
    var g, g' := before.voice.generation, after.voice.generation;
    (if interrupted then [Happening(GotInterrupted, g)] else [])
    + (if g' > g then [Happening(GotAllocated, g')] else [])
  }

  /** The chunks among some outputs. */
  ghost function ChunksIn(outputs: seq<Output>): seq<Output> {
    if outputs == [] then []
    else ChunksIn(outputs[..|outputs| - 1]) + if outputs[|outputs| - 1].Chunk? then [outputs[|outputs| - 1]] else []
  }

  /** The chunks of the runtime's log. */
  ghost function Logged(emitted: seq<Emitted>): seq<Output> {
    seq(|emitted|, i requires 0 <= i < |emitted| => Chunk(emitted[i].generation, emitted[i].sequence))
  }

  lemma {:induction false} ChunksJoin(a: seq<Output>, b: seq<Output>)
    ensures ChunksIn(a + b) == ChunksIn(a) + ChunksIn(b)
    decreases |b|
  {
    if b == [] {
      assert a + b == a;
    } else {
      ChunksJoin(a, b[..|b| - 1]);
      assert (a + b)[..|a + b| - 1] == a + b[..|b| - 1];
    }
  }

  lemma {:induction false} EmittedAreTheChunks(outputs: seq<Output>, current: nat)
    ensures Logged(EmittedIn(outputs, current)) == ChunksIn(outputs)
  {
    if outputs != [] {
      EmittedAreTheChunks(outputs[..|outputs| - 1], current);
    }
  }

  /** What left the runtime, what is queued and what is translated are the chunks of the log, in its order. */
  ghost predicate AsLogged(carried: seq<Output>, outputs: seq<Output>, staged: seq<Output>, emitted: seq<Emitted>) {
    ChunksIn(carried) + ChunksIn(outputs) + ChunksIn(staged) == Logged(emitted)
  }

  lemma StagedAsLogged(carried: seq<Output>, outputs: seq<Output>, out: seq<Output>, emitted: seq<Emitted>, current: nat)
    requires AsLogged(carried, outputs, [], emitted)
    ensures AsLogged(carried, outputs, out, emitted + EmittedIn(out, current))
  {
    EmittedAreTheChunks(out, current);
    assert Logged(emitted + EmittedIn(out, current)) == Logged(emitted) + Logged(EmittedIn(out, current));
    assert ChunksIn(carried) + ChunksIn(outputs) + [] == ChunksIn(carried) + ChunksIn(outputs);
  }

  lemma QueuedAsLogged(carried: seq<Output>, outputs: seq<Output>, staged: seq<Output>, emitted: seq<Emitted>)
    requires AsLogged(carried, outputs, staged, emitted) && staged != []
    ensures AsLogged(carried, outputs + [staged[0]], staged[1..], emitted)
  {
    hide ChunksIn;
    var first, rest := [staged[0]], staged[1..];
    assert staged == first + rest;
    ChunksJoin(first, rest);
    ChunksJoin(outputs, first);
    Regroup(ChunksIn(carried), ChunksIn(outputs), ChunksIn(first), ChunksIn(rest));
  }

  lemma CarriedAsLogged(carried: seq<Output>, outputs: seq<Output>, staged: seq<Output>, emitted: seq<Emitted>)
    requires AsLogged(carried, outputs, staged, emitted) && outputs != []
    ensures AsLogged(carried + [outputs[0]], outputs[1..], staged, emitted)
  {
    hide ChunksIn;
    var first, rest := [outputs[0]], outputs[1..];
    assert outputs == first + rest;
    ChunksJoin(first, rest);
    ChunksJoin(carried, first);
    Regroup([], ChunksIn(carried), ChunksIn(first), ChunksIn(rest));
  }

  lemma Regroup<T>(a: seq<T>, b: seq<T>, c: seq<T>, d: seq<T>)
    ensures a + b + (c + d) == a + (b + c) + d && b + (c + d) == b + c + d
  {
  }

  lemma LogTells(carried: seq<Output>, outputs: seq<Output>, staged: seq<Output>, emitted: seq<Emitted>)
    requires AsLogged(carried, outputs, staged, emitted)
    ensures ChunksIn(carried) <= Logged(emitted)
  {
  }

  lemma StoryTells(past: seq<Happening>, h: seq<Happening>, generation: nat, stale: int)
    requires Story(past, h, generation, stale)
    ensures CancelsHold(h) && NewAboveCancelled(h) && HasCauses(past, h) && NewerNotRefused(h)
  {
  }

  lemma OtherAsLogged(carried: seq<Output>, outputs: seq<Output>, staged: seq<Output>, emitted: seq<Emitted>, o: Output)
    requires AsLogged(carried, outputs, staged, emitted) && !o.Chunk?
    ensures AsLogged(carried, outputs + [o], staged, emitted)
  {
    ChunksJoin(outputs, [o]);
    assert [o][..0] == [] && ChunksIn([o]) == [];
  }

  datatype Move =
    | FromProvider(event: ProviderEvent)
    | Queue
    | ProviderFails
    | RuntimeInterrupt
    | Carry
    | Deliver
    | LocalCut
    | GoLive
    | EndLive
    | Push
    | PushFails(receipt: nat)
    | Take(unit: nat)
    | Reconnect

  // ---- what the moves say ---------------------------------------------------------------

  datatype Situated = Situated(session: Situation, desktop: Hearing, wire: seq<Message>)

  predicate MayRead(s: Situation) {
    s.reading && !s.closed && s.staged == []
  }

  function Heard(d: Hearing, m: Message): Hearing {
    match m
    case Header(g) => Headed(d, g)
    case Pcm(_) => d.(header := None)
    case CancelMessage(c) => Floored(d, Some(c))
    case OtherMessage => d
  }

  function Staged(s: Situation): Situation {
    if s.staged == [] then s else s.(staged := s.staged[1..], outputs := s.outputs + [s.staged[0]])
  }

  function Failing(s: Situation): Situation {
    s.(reading := false, outputs := s.outputs + [Stopped(s.voice.generation)])
  }

  function Step(p: Situated, move: Move): Situated {
    var s := p.session;
    match move
    case FromProvider(event) => if MayRead(s) then p.(session := Taken(s, event)) else p
    case Queue => p.(session := Staged(s))
    case ProviderFails =>
      if MayRead(s) then p.(session := Failing(s)) else p
    case RuntimeInterrupt => p.(session := Interrupted(s))
    case Carry =>
      if s.outputs == [] then p else p.(session := s.(outputs := s.outputs[1..]), wire := p.wire + Encode(s.outputs[0]))
    case Deliver => if p.wire == [] then p else p.(desktop := Heard(p.desktop, p.wire[0]), wire := p.wire[1..])
    case LocalCut => p.(desktop := Floored(p.desktop, p.desktop.last))
    case GoLive => p.(desktop := p.desktop.(live := true))
    case EndLive => p.(desktop := Ended(p.desktop))
    case Push => if s.closed then p else p.(session := s.(inputs := Pushed(s.inputs)))
    case PushFails(receipt) => if receipt < s.inputs.pushed then p.(session := s.(inputs := Failed(s.inputs, receipt))) else p
    case Take(u) => p.(session := s.(inputs := Released(s.inputs, u)))
    case Reconnect => p.(session := Begun(), wire := [])
  }

  ghost function HappensTo(d: Hearing, m: Message): seq<Happening> {
    match m
    case Pcm(of) => if !d.live then [] else [Happening(if of <= d.stale then GotRefused else GotPlayed, of)]
    case CancelMessage(c) => [Happening(HandledCancel, c)]
    case _ => []
  }

  ghost function CutOf(d: Hearing): seq<Happening> {
    if d.last.Some? then [Happening(GotCut, d.last.value)] else []
  }

  /** What happens to generations in this move. */
  ghost function Happens(p: Situated, move: Move): seq<Happening> {
    var s, d := p.session, p.desktop;
    match move
    case FromProvider(event) =>
      if MayRead(s) then Told(event.kind == Kind.Interrupt, s, Taken(s, event)) else []
    case RuntimeInterrupt => if s.closed then [] else Told(true, s, Interrupted(s))
    case Deliver =>
      if p.wire == [] then [] else HappensTo(d, p.wire[0])
    case LocalCut => CutOf(d)
    case EndLive => if d.live then CutOf(d) else []
    case _ => []
  }

  function After(p: Situated, moves: seq<Move>): Situated {
    if moves == [] then p else Step(After(p, moves[..|moves| - 1]), moves[|moves| - 1])
  }

  ghost function AllThatHappens(p: Situated, moves: seq<Move>): seq<Happening> {
    if moves == [] then []
    else
      var earlier := moves[..|moves| - 1];
      AllThatHappens(p, earlier) + Happens(After(p, earlier), moves[|moves| - 1])
  }

  class Path {
    var runtime: Session
    const desktop: Desktop
    var wire: seq<Message>
    /** What happened in this session of the runtime, and in those before it. */
    ghost var history: seq<Happening>
    ghost var past: seq<Happening>
    /** The outputs that have left the runtime's queue. */
    ghost var carried: seq<Output>

    constructor ()
      ensures Valid() && fresh(runtime) && fresh(desktop) && history == past == [] && carried == []
      ensures Now() == Situated(Begun(), Hearing(false, -1, None, None), [])
    {
      hide Session.Numbered, Session.Sequenced, Session.Receipted;
      var s := new Session();
      var d := new Desktop();
      runtime, desktop := s, d;
      wire, history, past, carried := [], [], [], [];
    }

    ghost predicate Valid()
      reads this, runtime, desktop
    {
      && runtime.Valid()
      && Story(past, history, runtime.generation, desktop.stale)
      && WireInStep(desktop.header, wire)
      && AllAnnounced(history, runtime.cancels)
      && CancelsKnown(runtime.staged, runtime.cancels) && CancelsKnown(runtime.outputs, runtime.cancels)
      && WireCancelsKnown(wire, runtime.cancels)
      && AsLogged(carried, runtime.outputs, runtime.staged, runtime.emitted)
    }

    ghost function Now(): Situated
      reads this, runtime, desktop
    {
      Situated(runtime.Now(), desktop.Now(), wire)
    }

    /** The reader takes an event from the provider. */
    method Read(event: ProviderEvent)
      requires Valid() && runtime.reading && !runtime.closed && runtime.staged == []
      modifies this`history, runtime
      ensures Valid()
      ensures runtime.Now() == Taken(old(runtime.Now()), event)
      ensures history == old(history) + Told(event.kind == Kind.Interrupt, old(runtime.Now()), runtime.Now())
    {
      hide Story, AllAnnounced, AsLogged, EmittedIn, Taken, OutputsOf, WireInStep, Session.Valid;
      TakenFacts(runtime.Now(), event);
      ghost var current := runtime.generation;
      ghost var cancels, emitted := runtime.cancels, runtime.emitted;
      runtime.ReadEvent(event);
      StagedAsLogged(carried, runtime.outputs, runtime.staged, emitted, runtime.generation);
      assert event.kind != Kind.Interrupt ==> runtime.cancels == cancels;
      if event.kind == Kind.Interrupt { NoteInterrupt(current, cancels); }
      else if runtime.generation > current { NoteAllocation(current, cancels); }
    }

    lemma TakenFacts(s: Situation, event: ProviderEvent)
      ensures var r := Taken(s, event);
              && r.outputs == s.outputs && r.staged == OutputsOf(s, event)
              && s.voice.generation <= r.voice.generation <= s.voice.generation + 1
              && (event.kind == Kind.Interrupt ==> r.voice.generation == s.voice.generation + 1)
    {
      hide OutputsOf, Answered;
    }

    ghost method NoteInterrupt(current: nat, cancels: set<nat>)
      requires Story(past, history, current, desktop.stale) && AllAnnounced(history, cancels)
      modifies this`history
      ensures Story(past, history, current + 1, desktop.stale) && AllAnnounced(history, cancels + {current})
      ensures history == old(history) + [Happening(GotInterrupted, current), Happening(GotAllocated, current + 1)]
    {
      hide Story, AllAnnounced;
      var e := Happening(GotInterrupted, current);
      StoryContinues(past, history, e, current, desktop.stale, current, desktop.stale);
      AnnouncedContinues(history, e, cancels);
      history := history + [e];
      NoteAllocation(current, cancels + {current});
    }

    ghost method NoteAllocation(current: nat, cancels: set<nat>)
      requires Story(past, history, current, desktop.stale) && AllAnnounced(history, cancels)
      modifies this`history
      ensures Story(past, history, current + 1, desktop.stale) && AllAnnounced(history, cancels)
      ensures history == old(history) + [Happening(GotAllocated, current + 1)]
    {
      hide Story, AllAnnounced;
      var e := Happening(GotAllocated, current + 1);
      StoryContinues(past, history, e, current, desktop.stale, current + 1, desktop.stale);
      AnnouncedContinues(history, e, cancels);
      history := history + [e];
    }

    method InterruptOutput()
      requires Valid() && !runtime.closed
      modifies this`history, runtime
      ensures Valid()
      ensures runtime.Now() == Interrupted(old(runtime.Now()))
      ensures history == old(history) + Told(true, old(runtime.Now()), runtime.Now())
    {
      hide Story, AllAnnounced, AsLogged;
      ghost var current := runtime.generation;
      ghost var cancels := runtime.cancels;
      OtherAsLogged(carried, runtime.outputs, runtime.staged, runtime.emitted, Cancel(current + 1, current));
      runtime.InterruptOutput();
      NoteInterrupt(current, cancels);
    }

    method ProviderFails()
      requires Valid() && runtime.reading && !runtime.closed && runtime.staged == []
      modifies runtime`outputs, runtime`reading
      ensures Valid() && runtime.Now() == Failing(old(runtime.Now()))
    {
      hide Story, AllAnnounced, AsLogged;
      OtherAsLogged(carried, runtime.outputs, runtime.staged, runtime.emitted, Stopped(runtime.generation));
      runtime.ReaderFails();
    }

    method PutStaged()
      requires Valid() && runtime.staged != []
      modifies runtime`staged, runtime`outputs
      ensures Valid() && runtime.Now() == Staged(old(runtime.Now()))
    {
      hide Story, AllAnnounced, AsLogged;
      QueuedAsLogged(carried, runtime.outputs, runtime.staged, runtime.emitted);
      runtime.PutStaged();
    }

    /** The next output leaves the runtime's queue for the socket. */
    method Carry()
      requires Valid() && runtime.outputs != []
      modifies this`wire, this`carried, runtime`outputs
      ensures Valid() && wire == old(wire) + Encode(old(runtime.outputs[0]))
      ensures runtime.Now() == old(runtime.Now()).(outputs := old(runtime.outputs)[1..])
      ensures carried == old(carried) + [old(runtime.outputs[0])]
    {
      hide Story, AllAnnounced, AsLogged;
      CarriedAsLogged(carried, runtime.outputs, runtime.staged, runtime.emitted);
      var o := runtime.outputs[0];
      WireExtends(desktop.header, wire, Encode(o));
      wire := wire + Encode(o);
      runtime.outputs := runtime.outputs[1..];
      carried := carried + [o];
    }

    /** Record what the desktop did; `floor` is its floor before that. */
    ghost method Note(e: Happening, floor: int)
      requires Story(past, history, runtime.generation, floor) && AllAnnounced(history, runtime.cancels)
      requires e.what != GotInterrupted
      requires Next(history, e, runtime.generation, floor, runtime.generation, desktop.stale)
      modifies this`history
      ensures Story(past, history, runtime.generation, desktop.stale) && AllAnnounced(history, runtime.cancels)
      ensures history == old(history) + [e]
    {
      hide Story, AllAnnounced, Next;
      StoryContinues(past, history, e, runtime.generation, floor, runtime.generation, desktop.stale);
      AnnouncedContinues(history, e, runtime.cancels);
      history := history + [e];
    }

    /** The next message reaches the desktop. */
    method Deliver()
      requires Valid() && wire != []
      modifies this`wire, this`history, desktop
      ensures Valid() && wire == old(wire)[1..]
      ensures desktop.Now() == Heard(old(desktop.Now()), old(wire[0]))
      ensures history == old(history) + HappensTo(old(desktop.Now()), old(wire[0]))
      ensures match old(wire[0])
              case Pcm(of) => history == old(history) +
                if !desktop.live then [] else [Happening(if of <= desktop.stale then GotRefused else GotPlayed, of)]
              case CancelMessage(c) =>
                history == old(history) + [Happening(HandledCancel, c)] && desktop.stale == Max(old(desktop.stale), c)
              case _ => history == old(history)
    {
      hide Story;
      var m := wire[0];
      assert m.CancelMessage? ==> exists i :: Announced(history, i, m.cancelled);
      wire := wire[1..];
      match m
      case Header(g) => desktop.OnHeader(g);
      case Pcm(of) =>
        var verdict := desktop.OnAudio();
        if verdict == Played { Note(Happening(GotPlayed, of), desktop.stale); }
        if verdict == CancelledGeneration { Note(Happening(GotRefused, of), desktop.stale); }
      case CancelMessage(c) =>
        ghost var floor := desktop.stale;
        desktop.OnCancel(Some(c));
        Note(Happening(HandledCancel, c), floor);
      case OtherMessage =>
    }

    method GoesLive()
      requires Valid()
      modifies desktop`live
      ensures Valid() && desktop.Now() == old(desktop.Now()).(live := true)
    {
      hide Story, AllAnnounced, AsLogged, Session.Valid;
      desktop.GoLive();
    }

    /** The person cuts the reply short with the global shortcut. */
    method CutLocally()
      requires Valid()
      modifies this`history, desktop
      ensures Valid() && desktop.Now() == Floored(old(desktop.Now()), old(desktop.last))
      ensures history == old(history) + CutOf(old(desktop.Now()))
    {
      hide Story, AllAnnounced;
      ghost var floor := desktop.stale;
      desktop.RetireGeneration();
      if desktop.last.Some? { Note(Happening(GotCut, desktop.last.value), floor); }
    }

    method End()
      requires Valid()
      modifies this`history, desktop
      ensures Valid() && desktop.Now() == Ended(old(desktop.Now()))
      ensures history == old(history) + if old(desktop.live) then CutOf(old(desktop.Now())) else []
    {
      hide Story, AllAnnounced;
      ghost var floor := desktop.stale;
      ghost var wasLive := desktop.live;
      desktop.EndLive();
      if wasLive && desktop.last.Some? { Note(Happening(GotCut, desktop.last.value), floor); }
    }

    /** The socket is opened anew: the runtime numbers from the start, and the desktop keeps its floor. */
    method Reconnect()
      requires Valid()
      modifies this`runtime, this`wire, this`carried, this`history, this`past
      ensures Valid() && fresh(runtime) && runtime.Now() == Begun() && wire == [] && carried == []
      ensures past == old(past) + old(history) && history == []
    {
      hide Story, Session.Numbered, Session.Sequenced, Session.Receipted;
      StoryBegins(past, history, runtime.generation, desktop.stale);
      runtime := new Session();
      wire, carried := [], [];
      past, history := past + history, [];
    }

    // Runtime inputs pushed to the provider, and their receipts, in between.

    method Push()
      requires Valid() && !runtime.closed
      modifies runtime`pending, runtime`pushed
      ensures Valid() && runtime.Now() == old(runtime.Now()).(inputs := Pushed(old(runtime.InputsNow())))
    {
      hide Story, AllAnnounced, AsLogged, Session.Numbered, Session.Sequenced, Session.Receipted;
      var receipt := runtime.PushInput();
    }

    method PushFails(receipt: nat)
      requires Valid() && receipt < runtime.pushed
      modifies runtime`pending, runtime`failed, runtime`late
      ensures Valid() && runtime.Now() == old(runtime.Now()).(inputs := Failed(old(runtime.InputsNow()), receipt))
    {
      hide Story, AllAnnounced, AsLogged, Session.OnlyDeliveredAnswered, Failed;
      runtime.PushFailed(receipt);
    }

    method Take(unit: nat)
      requires Valid()
      modifies runtime`receipts, runtime`taken
      ensures Valid() && runtime.Now() == old(runtime.Now()).(inputs := Released(old(runtime.InputsNow()), unit))
    {
      hide Story, AllAnnounced, AsLogged, Session.Numbered, Session.Sequenced, Session.Receipted;
      var receipt := runtime.TakeReceipt(unit);
    }

    method Handle(move: Move)
      requires Valid()
      modifies this`runtime, this`wire, this`carried, this`history, this`past, runtime, desktop
      ensures Valid() && Now() == Step(old(Now()), move) && (runtime == old(runtime) || fresh(runtime))
      ensures past + history == old(past) + old(history) + Happens(old(Now()), move)
    {
      hide Path.Valid, Told, Taken, Interrupted, Step, Happens, HappensTo, CutOf;
      ghost var was := history;
      match move
      case FromProvider(_) | Queue | ProviderFails | RuntimeInterrupt | Carry => HandleOutput(move);
      case Deliver | LocalCut | GoLive | EndLive => HandleDesktop(move);
      case Push | PushFails(_) | Take(_) => HandleInput(move);
      case Reconnect => StepReconnects(Now()); Reconnect();
    }

    lemma StepReconnects(p: Situated)
      ensures Step(p, Move.Reconnect) == p.(session := Begun(), wire := []) && Happens(p, Move.Reconnect) == []
    {
    }

    predicate IsOutput(move: Move) {
      move.FromProvider? || move.Queue? || move.ProviderFails? || move.RuntimeInterrupt? || move.Carry?
    }

    method HandleOutput(move: Move)
      requires Valid() && IsOutput(move)
      modifies this`wire, this`carried, this`history, runtime
      ensures Valid() && Now() == Step(old(Now()), move)
      ensures history == old(history) + Happens(old(Now()), move)
    {
      hide Path.Valid, Told, Taken, Desktop.Now, Session.VoiceNow, Session.InputsNow;
      match move
      case FromProvider(event) => if runtime.reading && !runtime.closed && runtime.staged == [] { Read(event); }
      case Queue => if runtime.staged != [] { PutStaged(); }
      case ProviderFails => if runtime.reading && !runtime.closed && runtime.staged == [] { ProviderFails(); }
      case RuntimeInterrupt => if !runtime.closed { InterruptOutput(); }
      case Carry => if runtime.outputs != [] { Carry(); }
    }

    method HandleInput(move: Move)
      requires Valid() && (move.Push? || move.PushFails? || move.Take?)
      modifies runtime
      ensures Valid() && Now() == Step(old(Now()), move) && Happens(old(Now()), move) == []
    {
      hide Path.Valid, Desktop.Now, Session.VoiceNow;
      match move
      case Push => if !runtime.closed { Push(); }
      case PushFails(receipt) => if receipt < runtime.pushed { PushFails(receipt); }
      case Take(unit) => Take(unit);
    }

    method HandleDesktop(move: Move)
      requires Valid() && (move.Deliver? || move.LocalCut? || move.GoLive? || move.EndLive?)
      modifies this`wire, this`history, desktop
      ensures Valid() && Now() == Step(old(Now()), move)
      ensures history == old(history) + Happens(old(Now()), move)
    {
      hide Path.Valid, HappensTo, CutOf, Heard, Session.Now;
      match move
      case Deliver => if wire != [] { Deliver(); }
      case LocalCut => CutLocally();
      case GoLive => GoesLive();
      case EndLive => End();
    }

    /** Any interleaving of provider events, interrupts, queueing, carrying, deliveries, local cuts, runtime inputs and new sessions. */
    method Run(moves: seq<Move>)
      requires Valid()
      modifies this`runtime, this`wire, this`carried, this`history, this`past, runtime, desktop
      ensures Valid() && Now() == After(old(Now()), moves)
      ensures past + history == old(past) + old(history) + AllThatHappens(old(Now()), moves)
      // What left the runtime are the first chunks of its log, whose sequence numbers rise within a current generation.
      ensures ChunksIn(carried) <= Logged(runtime.emitted) && CurrentChunksRise(runtime.emitted)
      ensures CancelsHold(history) && NewAboveCancelled(history) && HasCauses(past, history) && NewerNotRefused(history)
      ensures runtime.Numbered() && runtime.Sequenced() && runtime.Receipted()
    {
      hide Story, AllAnnounced, AsLogged, WireInStep, CancelsKnown, WireCancelsKnown, NewerNotRefused, Logged, ChunksIn,
           Path.Now, Step, Happens, CancelsHold, NewAboveCancelled, HasCauses, Session.Numbered, Session.Receipted;
      ghost var told := past + history;
      for n := 0 to |moves|
        invariant Valid() && Now() == After(old(Now()), moves[..n])
        invariant past + history == told + AllThatHappens(old(Now()), moves[..n])
        invariant runtime == old(runtime) || fresh(runtime)
      {
        assert moves[..n + 1][..n] == moves[..n];
        Handle(moves[n]);
      }
      assert moves[..|moves|] == moves;
      StoryTells(past, history, runtime.generation, desktop.stale);
      assert runtime.Sequenced();
      LogTells(carried, runtime.outputs, runtime.staged, runtime.emitted);
    }
  }

  /** A live desktop that has handled the cancels of generations 0 and 1. */
  method InterruptedTwice() returns (path: Path)
    ensures fresh(path) && fresh(path.runtime) && fresh(path.desktop)
    ensures path.Valid() && path.desktop.live && path.desktop.stale == 1
  {
    hide Path.Valid, Story, AsLogged, AllAnnounced;
    path := new Path();
    path.GoesLive();
    path.InterruptOutput();
    path.InterruptOutput();
    path.Carry();
    path.Carry();
    assert path.wire == [CancelMessage(0), CancelMessage(1)];
    path.Deliver();
    path.Deliver();
  }

  /** The first reply of a new session is refused, because of an interrupt of the session before. */
  method RefusedInTheNextSession() returns (path: Path)
    ensures path.history == [Happening(GotAllocated, 1), Happening(GotRefused, 1)]
    ensures FlooredAt(path.past, 1)
  {
    hide Path.Valid, Story, AsLogged, AllAnnounced;
    path := InterruptedTwice();
    path.Reconnect();
    path.Read(ProviderEvent(Audio(true, false), None));
    path.PutStaged();
    path.Carry();
    path.Deliver();
    path.Deliver();
    RefusedHasACause(path);
  }

  lemma RefusedHasACause(path: Path)
    requires path.Valid() && path.history == [Happening(GotAllocated, 1), Happening(GotRefused, 1)]
    ensures FlooredAt(path.past, 1)
  {
    assert path.history[1].what == GotRefused;
  }
}
