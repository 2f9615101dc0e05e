/**
 * The delivery gate: output epochs, playback acknowledgements and the lifecycle of
 * background results. The clock is a parameter of the operations that read it.
 */
module DeliveryGate {
  import opened Wrappers

  datatype State =
    | Running | Completed | ResultReady | AwaitingDelivery | Delivering
    | Delivered | Cancelled | Superseded | Failed

  predicate IsTerminal(s: State) {
    s.Delivered? || s.Cancelled? || s.Superseded? || s.Failed?
  }

  function Rank(s: State): nat {
    match s
    case Running => 0
    case Completed => 1
    case ResultReady => 2
    case AwaitingDelivery => 3
    case Delivering => 4
    case _ => 5
  }

  /** Nothing comes after a terminal state, and after every other something does. */
  lemma TerminalIsLast(s: State)
    ensures IsTerminal(s) <==> forall t: State :: Rank(t) <= Rank(s)
  {
    assert Rank(Failed) == 5;
  }

  datatype Entry = Entry(reason: string, state: State, atMs: int)

  datatype Block = UserSpeaking | ModelSpeaking | PlaybackDraining | InState(state: State)

  datatype TrackedResult = TrackedResult(
    deliveryId: Option<string>,
    epoch: nat,
    state: State,
    blockedBy: Option<Block>,
    reason: Option<string>,
    history: seq<Entry>)
  {
    function Record(atMs: int, to: State, why: Option<string>): TrackedResult {
      this.(state := to, reason := why, history := history + [Entry(why.GetOr(""), to, atMs)])
    }

    ghost predicate InEpoch(current: nat) {
      || (state == AwaitingDelivery && epoch == 0)
      || (state == Delivering && epoch == current)
      || IsTerminal(state)
    }

    /** The history ends in the current state, never goes back, and goes nowhere after a terminal state. */
    ghost predicate Orderly() {
      && history != [] && history[|history| - 1].state == state
      && (forall i, j | 0 <= i < j < |history| ::
            Rank(history[i].state) <= Rank(history[j].state) && !IsTerminal(history[i].state))
    }
  }

  lemma RecordKeepsOrder(r: TrackedResult, atMs: int, to: State, why: Option<string>)
    requires r.Orderly() && !IsTerminal(r.state) && Rank(r.state) <= Rank(to)
    ensures r.Record(atMs, to, why).Orderly()
  {
    var h := r.history;
    assert forall i | 0 <= i < |h| - 1 :: Rank(h[i].state) <= Rank(h[|h| - 1].state);
  }

  lemma MoveKeeps(r: TrackedResult, atMs: int, to: State, why: Option<string>, current: nat)
    requires r.Orderly() && r.InEpoch(current) && !IsTerminal(r.state) && (to == Delivering || IsTerminal(to))
    ensures var moved := (if to == Delivering then r.(epoch := current) else r).Record(atMs, to, why);
            moved.Orderly() && moved.InEpoch(current) && r.history <= moved.history
  {
    RecordKeepsOrder(if to == Delivering then r.(epoch := current) else r, atMs, to, why);
  }

  /** A result after an interruption. */
  function Cut(r: TrackedResult, atMs: int): TrackedResult {
    if r.state == Delivering then r.Record(atMs, Cancelled, Some("interrupted")) else r
  }

  lemma CutKeeps(r: TrackedResult, atMs: int, current: nat)
    requires current > 0 && r.Orderly() && r.InEpoch(current - 1)
    ensures var cut := Cut(r, atMs);
            && cut.Orderly() && cut.InEpoch(current) && cut.state != Delivering
            && r.history <= cut.history && (IsTerminal(r.state) ==> cut == r)
    ensures r.state == Delivering ==> r.epoch < current
    ensures Cut(r, atMs) == if r.state == Delivering then r.Record(atMs, Cancelled, Some("interrupted")) else r
  {
    if r.state == Delivering { RecordKeepsOrder(r, atMs, Cancelled, Some("interrupted")); }
  }

  /** A playback waiting for the device's acknowledgement. */
  datatype Pending = Pending(epoch: int, started: real)

  datatype Phase = StartedPhase | FinishedPhase | CancelledPhase

  /** What became of one send. `Replaced`: its id was sent again before it was settled. */
  datatype Fate = Waiting | Acknowledged | Interrupted | TimedOut | Replaced

  datatype Send = Send(id: string, fate: Fate)

  /** Settled sends stay settled, and every send keeps its id. */
  ghost predicate FatesSettle(before: seq<Send>, after: seq<Send>) {
    && |before| <= |after|
    && (forall n | 0 <= n < |before| ::
          after[n].id == before[n].id && (before[n].fate != Waiting ==> after[n].fate == before[n].fate))
  }

  /** Histories only grow, and a terminal state is for good. */
  ghost predicate ResultsGrow(before: map<string, TrackedResult>, after: map<string, TrackedResult>) {
    forall id | id in before ::
      && id in after
      && before[id].history <= after[id].history
      && (IsTerminal(before[id].state) ==> after[id].state == before[id].state && after[id].history == before[id].history)
  }

  /** The waiting sends are exactly the pending playbacks, one send for each. */
  ghost predicate SendsMatch(sends: seq<Send>, pending: map<string, Pending>, sendOf: map<string, nat>) {
    && (forall id | id in pending :: id in sendOf && sendOf[id] < |sends| && sends[sendOf[id]] == Send(id, Waiting))
    && (forall n | 0 <= n < |sends| && sends[n].fate == Waiting :: sends[n].id in pending && sendOf[sends[n].id] == n)
  }

  /** The timed-out sends, each once; those not yet taken are the ones in `expired`. */
  ghost predicate TimeoutsMatch(sends: seq<Send>, timeouts: seq<nat>, taken: nat, expired: seq<string>) {
    && taken + |expired| == |timeouts|
    && (forall i, j | 0 <= i < j < |timeouts| :: timeouts[i] != timeouts[j])
    && (forall i | 0 <= i < |timeouts| :: timeouts[i] < |sends| && sends[timeouts[i]].fate == TimedOut)
    && (forall n | 0 <= n < |sends| && sends[n].fate == TimedOut :: n in timeouts)
    && (forall k | 0 <= k < |expired| :: expired[k] == sends[timeouts[taken + k]].id)
  }

  /** Settling one waiting send other than by timeout. */
  lemma SettleKeeps(sends: seq<Send>, pending: map<string, Pending>, sendOf: map<string, nat>,
                    timeouts: seq<nat>, taken: nat, expired: seq<string>, id: string, fate: Fate)
    requires SendsMatch(sends, pending, sendOf) && TimeoutsMatch(sends, timeouts, taken, expired)
    requires id in pending && (fate == Acknowledged || fate == Interrupted || fate == Replaced)
    ensures var after := sends[sendOf[id] := Send(id, fate)];
            && SendsMatch(after, pending - {id}, sendOf)
            && TimeoutsMatch(after, timeouts, taken, expired)
            && FatesSettle(sends, after)
  {
  }

  /** Settling one waiting send by timeout. */
  lemma TimeoutKeeps(sends: seq<Send>, pending: map<string, Pending>, sendOf: map<string, nat>,
                     timeouts: seq<nat>, taken: nat, expired: seq<string>, id: string)
    requires SendsMatch(sends, pending, sendOf) && TimeoutsMatch(sends, timeouts, taken, expired)
    requires id in pending
    ensures var after := sends[sendOf[id] := Send(id, TimedOut)];
            && SendsMatch(after, pending - {id}, sendOf)
            && TimeoutsMatch(after, timeouts + [sendOf[id]], taken, expired + [id])
            && FatesSettle(sends, after)
  {
    var after := sends[sendOf[id] := Send(id, TimedOut)];
    var more := timeouts + [sendOf[id]];
    assert forall i | 0 <= i < |timeouts| :: more[i] == timeouts[i] && timeouts[i] != sendOf[id];
    forall n | 0 <= n < |after| && after[n].fate == TimedOut ensures n in more {
      if n == sendOf[id] { assert more[|timeouts|] == n; } else { assert n in timeouts; }
    }
  }

  lemma SendKeeps(sends: seq<Send>, pending: map<string, Pending>, sendOf: map<string, nat>,
                  timeouts: seq<nat>, taken: nat, expired: seq<string>, id: string, p: Pending)
    requires SendsMatch(sends, pending, sendOf) && TimeoutsMatch(sends, timeouts, taken, expired)
    requires id !in pending
    ensures SendsMatch(sends + [Send(id, Waiting)], pending[id := p], sendOf[id := |sends|])
    ensures TimeoutsMatch(sends + [Send(id, Waiting)], timeouts, taken, expired)
    ensures FatesSettle(sends, sends + [Send(id, Waiting)])
  {
  }

  datatype Operation =
    | DoInterrupt(atMs: int)
    | UserSpoke(now: real)
    | ModelOutput(open: bool)
    | OutputSent(id: string, epoch: Option<int>, now: real)
    | Ack(id: string, phase: Phase, epoch: Option<int>, now: real)
    | Drain(now: real)
    | Take
    | DoRegister(id: string, deliveryId: Option<string>, atMs: int)
    | Move(id: string, to: State, why: Option<string>, atMs: int)
    | Announce(id: string, interruptTiming: bool, now: real)

  // ---- what the operations say ------------------------------------------------------------

  /** The gate as its operations leave it; in which order playbacks of one moment expire is left open. */
  datatype Situation = Situation(
    epoch: nat, lastSpoke: Option<real>, outputOpen: bool,
    pending: map<string, Pending>, expired: multiset<string>, results: map<string, TrackedResult>)
  {
    /** Did the user speak within the window? */
    predicate Speaking(now: real, window: real) {
      lastSpoke.Some? && now <= lastSpoke.value + window
    }

    /** The playbacks given up when somebody looks. */
    ghost function Overdue(now: real, timeout: real): set<string> {
      set id | id in pending && now > pending[id].started + timeout
    }

    ghost function GivenUp(now: real, timeout: real): Situation {
      var gone := Overdue(now, timeout);
      this.(pending := pending - gone, expired := expired + multiset(gone))
    }

    ghost function Blocked(interruptTiming: bool, now: real, timeout: real, window: real): Option<Block> {
      if Speaking(now, window) then Some(UserSpeaking)
      else if interruptTiming then None
      else if outputOpen then Some(ModelSpeaking)
      else if pending.Keys != Overdue(now, timeout) then Some(Block.PlaybackDraining)
      else None
    }

    /** Asking whether a safe pause has come gives up overdue playbacks, unless somebody speaks. */
    ghost function Looked(interruptTiming: bool, now: real, timeout: real, window: real): Situation {
      if Speaking(now, window) || interruptTiming || outputOpen then this else GivenUp(now, timeout)
    }

    ghost function Announced(id: string, interruptTiming: bool, now: real, timeout: real, window: real): Situation {
      if id in results && IsTerminal(results[id].state) then this
      else
        var looked := Looked(interruptTiming, now, timeout, window);
        if id !in results then looked
        else looked.(results := results[id := results[id].(blockedBy := Blocked(interruptTiming, now, timeout, window))])
    }

    ghost function Interrupted(atMs: int): Situation {
      var next := epoch + 1;
      this.(epoch := next, outputOpen := false,
            pending := map id | id in pending && pending[id].epoch >= next :: pending[id],
            results := map id | id in results :: Cut(results[id], atMs))
    }

    function Acked(id: string, phase: Phase, ackEpoch: Option<int>, now: real): Situation {
      if id !in pending || ackEpoch.GetOr(pending[id].epoch) < epoch then this
      else if phase == StartedPhase then this.(pending := pending[id := Pending(ackEpoch.GetOr(pending[id].epoch), now)])
      else this.(pending := pending - {id})
    }

    function Registered(id: string, deliveryId: Option<string>, atMs: int): Situation {
      if id in results then this
      else this.(results := results[id := TrackedResult(deliveryId, 0, AwaitingDelivery, None, None, [Entry("", AwaitingDelivery, atMs)])])
    }

    function Moved(id: string, to: State, why: Option<string>, atMs: int): Situation {
      if id !in results || IsTerminal(results[id].state) || !(to == Delivering || IsTerminal(to)) then this
      else
        var r := if to == Delivering then results[id].(epoch := epoch) else results[id];
        this.(results := results[id := r.Record(atMs, to, why)])
    }

    ghost function Next(o: Operation, timeout: real, window: real): Situation {
      match o
      case DoInterrupt(atMs) => Interrupted(atMs)
      case UserSpoke(now) => this.(lastSpoke := Some(now))
      case ModelOutput(open) => this.(outputOpen := open)
      case OutputSent(id, e, now) => this.(pending := pending[id := Pending(e.GetOr(epoch), now)])
      case Ack(id, phase, e, now) => Acked(id, phase, e, now)
      case Drain(now) => GivenUp(now, timeout)
      case Take => this.(expired := multiset{})
      case DoRegister(id, deliveryId, atMs) => Registered(id, deliveryId, atMs)
      case Move(id, to, why, atMs) => Moved(id, to, why, atMs)
      case Announce(id, interruptTiming, now) => Announced(id, interruptTiming, now, timeout, window)
    }

    ghost function After(operations: seq<Operation>, timeout: real, window: real): Situation {
      if operations == [] then this
      else After(operations[..|operations| - 1], timeout, window).Next(operations[|operations| - 1], timeout, window)
    }
  }

  class Gate {
    const ackTimeout: real
    const speechWindow: real
    var outputEpoch: nat
    var userLastSpoke: Option<real>
    var modelOutputOpen: bool
    var pending: map<string, Pending>
    var expired: seq<string>
    var results: map<string, TrackedResult>
    /** Every call of `note_output_sent` and what became of it; the latest send of each id. */
    ghost var sends: seq<Send>
    ghost var sendOf: map<string, nat>
    /** The sends that timed out, and how many of them `take_expired` has returned. */
    ghost var timeouts: seq<nat>
    ghost var taken: nat

    constructor (ackTimeout: real, speechWindow: real)
      requires ackTimeout > 0.0 && speechWindow >= 0.0
      ensures Valid() && outputEpoch == 0 && results == map[] && pending == map[] && sends == []
      ensures userLastSpoke.None? && !modelOutputOpen
      ensures this.ackTimeout == ackTimeout && this.speechWindow == speechWindow
    {
      this.ackTimeout, this.speechWindow := ackTimeout, speechWindow;
      outputEpoch, userLastSpoke, modelOutputOpen := 0, None, false;
      pending, expired, results := map[], [], map[];
      sends, sendOf, timeouts, taken := [], map[], [], 0;
    }

    ghost function Now(): Situation
      reads this
    {
      Situation(outputEpoch, userLastSpoke, modelOutputOpen, pending, multiset(expired), results)
    }

    ghost predicate Accounts()
      reads this`sends, this`pending, this`sendOf, this`timeouts, this`taken, this`expired
    {
      SendsMatch(sends, pending, sendOf) && TimeoutsMatch(sends, timeouts, taken, expired)
    }

    /**
     * A result waits for delivery with no epoch of its own, is being delivered in the current
     * output epoch, or has come to an end.
     */
    ghost predicate Lifecycles()
      reads this`results, this`outputEpoch
    {
      forall id | id in results :: results[id].Orderly() && results[id].InEpoch(outputEpoch)
    }

    ghost predicate Valid()
      reads this
    {
      Accounts() && Lifecycles()
    }

    // ---- epochs -------------------------------------------------------------------

    /** A meaningful interruption: nothing of an older epoch stays pending or being delivered. */
    method Interrupt(atMs: int) returns (epoch: nat)
      requires Valid()
      modifies this`outputEpoch, this`modelOutputOpen, this`pending, this`sends, this`results
      ensures Valid()
      ensures epoch == outputEpoch == old(outputEpoch) + 1 && !modelOutputOpen
      ensures pending == map id | id in old(pending) && old(pending)[id].epoch >= outputEpoch :: old(pending)[id]
      ensures FatesSettle(old(sends), sends) && |sends| == |old(sends)|
      ensures forall n | 0 <= n < |sends| && sends[n].fate != old(sends)[n].fate :: sends[n].fate == Interrupted
      ensures results.Keys == old(results).Keys && ResultsGrow(old(results), results)
      ensures results == map id | id in old(results) :: Cut(old(results)[id], atMs)
      ensures forall id | id in results :: results[id].state != Delivering
      ensures Now() == old(Now()).Interrupted(atMs)
    {
      hide SendsMatch, TimeoutsMatch, TrackedResult.Orderly, TrackedResult.InEpoch, Cut, FatesSettle, ResultsGrow;
      outputEpoch := outputEpoch + 1;
      modelOutputOpen := false;
      DropStale();
      CancelDelivering(atMs);
      epoch := outputEpoch;
    }

    method DropStale()
      requires Accounts()
      modifies this`pending, this`sends
      ensures Accounts()
      ensures pending == map id | id in old(pending) && old(pending)[id].epoch >= outputEpoch :: old(pending)[id]
      ensures FatesSettle(old(sends), sends) && |sends| == |old(sends)|
      ensures forall n | 0 <= n < |sends| && sends[n].fate != old(sends)[n].fate :: sends[n].fate == Interrupted
    {
      hide SendsMatch, TimeoutsMatch;
      var stale := set id | id in pending && pending[id].epoch < outputEpoch;
      var left := stale;
      while left != {}
        invariant Accounts()
        invariant left <= stale && pending == old(pending) - (stale - left)
        invariant FatesSettle(old(sends), sends) && |sends| == |old(sends)|
        invariant forall n | 0 <= n < |sends| && sends[n].fate != old(sends)[n].fate :: sends[n].fate == Interrupted
        decreases left
      {
        var id :| id in left;
        Settle(id, Interrupted);
        left := left - {id};
      }
    }

    /** A pending playback leaves, other than by timeout. */
    method Settle(id: string, ghost fate: Fate)
      requires Accounts() && id in pending
      requires fate == Acknowledged || fate == Interrupted || fate == Replaced
      modifies this`pending, this`sends
      ensures Accounts()
      ensures pending == old(pending) - {id} && sendOf[id] < |old(sends)|
      ensures sends == old(sends)[sendOf[id] := Send(id, fate)]
      ensures FatesSettle(old(sends), sends) && |sends| == |old(sends)|
    {
      SettleKeeps(sends, pending, sendOf, timeouts, taken, expired, id, fate);
      sends := sends[sendOf[id] := Send(id, fate)];
      pending := pending - {id};
    }

    /** The acknowledgement of a pending playback is overdue: it counts as undelivered. */
    method Expire(id: string)
      requires Accounts() && id in pending
      modifies this`pending, this`sends, this`expired, this`timeouts
      ensures Accounts()
      ensures pending == old(pending) - {id} && sendOf[id] < |old(sends)|
      ensures sends == old(sends)[sendOf[id] := Send(id, TimedOut)]
      ensures FatesSettle(old(sends), sends) && |sends| == |old(sends)|
      ensures expired == old(expired) + [id] && timeouts == old(timeouts) + [sendOf[id]]
    {
      TimeoutKeeps(sends, pending, sendOf, timeouts, taken, expired, id);
      sends := sends[sendOf[id] := Send(id, TimedOut)];
      pending := pending - {id};
      timeouts := timeouts + [sendOf[id]];
      expired := expired + [id];
    }

    method CancelDelivering(atMs: int)
      requires outputEpoch > 0 && forall id | id in results ::
                 results[id].Orderly() && results[id].InEpoch(outputEpoch - 1)
      modifies this`results
      ensures Lifecycles()
      ensures results.Keys == old(results).Keys && ResultsGrow(old(results), results)
      ensures results == map id | id in old(results) :: Cut(old(results)[id], atMs)
      ensures forall id | id in results :: results[id].state != Delivering
    {
      hide TrackedResult.Orderly, TrackedResult.InEpoch, TrackedResult.Record, Cut;
      var left := results.Keys;
      while left != {}
        invariant left <= results.Keys == old(results).Keys
        invariant forall id | id in left :: results[id] == old(results)[id]
        invariant forall id | id in results && id !in left :: results[id] == Cut(old(results)[id], atMs)
        decreases left
      {
        var id :| id in left;
        CutKeeps(results[id], atMs, outputEpoch);
        var r := results[id];
        if r.state == Delivering && r.epoch < outputEpoch {
          results := results[id := r.Record(atMs, Cancelled, Some("interrupted"))];
        }
        left := left - {id};
      }
      forall id | id in results
        ensures results[id].Orderly() && results[id].InEpoch(outputEpoch) && results[id].state != Delivering
        ensures old(results)[id].history <= results[id].history
        ensures IsTerminal(old(results)[id].state) ==> results[id] == old(results)[id]
      {
        CutKeeps(old(results)[id], atMs, outputEpoch);
      }
    }

    // ---- speech activity ---------------------------------------------------------------

    method NoteUserSpeech(now: real)
      modifies this`userLastSpoke
      ensures userLastSpoke == Some(now)
    {
      userLastSpoke := Some(now);
    }

    method NoteModelOutput(open: bool)
      modifies this`modelOutputOpen
      ensures modelOutputOpen == open
    {
      modelOutputOpen := open;
    }

    // ---- playback acknowledgements -------------------------------------------------------

    method NoteOutputSent(id: string, epoch: Option<int>, now: real)
      requires Valid()
      modifies this`pending, this`sends, this`sendOf
      ensures Valid()
      ensures Now() == old(Now()).(pending := old(pending)[id := Pending(epoch.GetOr(outputEpoch), now)])
      ensures FatesSettle(old(sends), sends)
      ensures |sends| == |old(sends)| + 1 && sends[|old(sends)|] == Send(id, Waiting)
      ensures id !in old(pending) ==> sends == old(sends) + [Send(id, Waiting)]
      ensures id in old(pending) ==> sends == old(sends)[old(sendOf[id]) := Send(id, Replaced)] + [Send(id, Waiting)]
    {
      hide SendsMatch, TimeoutsMatch;
      if id in pending { Settle(id, Replaced); }
      var p := Pending(epoch.GetOr(outputEpoch), now);
      SendKeeps(sends, pending, sendOf, timeouts, taken, expired, id, p);
      sendOf := sendOf[id := |sends|];
      sends := sends + [Send(id, Waiting)];
      pending := pending[id := p];
    }

    /** Is an acknowledgement of this playback stale? It may name the epoch it is for. */
    predicate IsStale(id: string, epoch: Option<int>)
      reads this`pending, this`outputEpoch
    {
      epoch.GetOr(if id in pending then pending[id].epoch else outputEpoch) < outputEpoch
    }

    method NotePlaybackAck(id: string, phase: Phase, epoch: Option<int>, now: real) returns (current: bool)
      requires Valid()
      modifies this`pending, this`sends
      ensures Valid()
      ensures current <==> !old(IsStale(id, epoch))
      ensures !current || id !in old(pending) ==> pending == old(pending) && sends == old(sends)
      ensures Now() == old(Now()).Acked(id, phase, epoch, now)
      ensures current && id in old(pending) ==>
                if phase == StartedPhase
                then pending == old(pending)[id := Pending(epoch.GetOr(old(pending)[id].epoch), now)] && sends == old(sends)
                else pending == old(pending) - {id} && sends == old(sends)[sendOf[id] := Send(id, Acknowledged)]
      ensures FatesSettle(old(sends), sends)
    {
      var ackEpoch := epoch.GetOr(if id in pending then pending[id].epoch else outputEpoch);
      if ackEpoch < outputEpoch { return false; }
      if phase == FinishedPhase || phase == CancelledPhase {
        if id in pending { Settle(id, Acknowledged); }
      } else if id in pending {
        pending := pending[id := Pending(ackEpoch, now)];
      }
      return true;
    }

    /** Is sent output still waiting for the device? Playbacks whose acknowledgement is overdue are given up. */
    method PlaybackDraining(now: real) returns (draining: bool)
      requires Valid()
      modifies this`pending, this`sends, this`expired, this`timeouts
      ensures Valid()
      ensures pending == map id | id in old(pending) && now - old(pending)[id].started <= ackTimeout :: old(pending)[id]
      ensures Now() == old(Now()).GivenUp(now, ackTimeout)
      ensures draining <==> pending != map[]
      ensures draining <==> old(pending).Keys != old(Now()).Overdue(now, ackTimeout)
      ensures FatesSettle(old(sends), sends) && |sends| == |old(sends)|
      ensures forall n | 0 <= n < |sends| && sends[n].fate != old(sends)[n].fate :: sends[n].fate == TimedOut
      ensures old(expired) <= expired && old(timeouts) <= timeouts
    {
      var overdue := set id | id in pending && now - pending[id].started > ackTimeout;
      ExpireAll(overdue);
      assert overdue == old(Now()).Overdue(now, ackTimeout);
      draining := pending != map[];
    }

    method ExpireAll(overdue: set<string>)
      requires Accounts() && overdue <= pending.Keys
      modifies this`pending, this`sends, this`expired, this`timeouts
      ensures Accounts()
      ensures pending == old(pending) - overdue && multiset(expired) == multiset(old(expired)) + multiset(overdue)
      ensures FatesSettle(old(sends), sends) && |sends| == |old(sends)|
      ensures forall n | 0 <= n < |sends| && sends[n].fate != old(sends)[n].fate :: sends[n].fate == TimedOut
      ensures old(expired) <= expired && old(timeouts) <= timeouts
    {
      hide SendsMatch, TimeoutsMatch;
      var left := overdue;
      while left != {}
        invariant Accounts() && left <= overdue && pending == old(pending) - (overdue - left)
        invariant FatesSettle(old(sends), sends) && |sends| == |old(sends)|
        invariant forall n | 0 <= n < |sends| && sends[n].fate != old(sends)[n].fate :: sends[n].fate == TimedOut
        invariant old(expired) <= expired && old(timeouts) <= timeouts
        invariant multiset(expired) == multiset(old(expired)) + multiset(overdue - left)
        decreases left
      {
        var id :| id in left;
        OneMoreGone(overdue, left, id);
        Expire(id);
        left := left - {id};
      }
      assert overdue - left == overdue;
    }

    lemma OneMoreGone(overdue: set<string>, left: set<string>, id: string)
      requires left <= overdue && id in left
      ensures overdue - (left - {id}) == (overdue - left) + {id}
      ensures multiset(overdue - (left - {id})) == multiset(overdue - left) + multiset{id}
    {
      assert overdue - (left - {id}) == (overdue - left) + {id};
    }

    /** The playbacks that timed out since the last call. */
    method TakeExpired() returns (ids: seq<string>)
      requires Valid()
      modifies this`expired, this`taken
      ensures Valid()
      ensures ids == old(expired) && expired == [] && taken == |timeouts|
      ensures |ids| == |timeouts| - old(taken)
      ensures forall k | 0 <= k < |ids| :: ids[k] == sends[timeouts[old(taken) + k]].id
    {
      ids := expired;
      expired := [];
      taken := |timeouts|;
    }

    // ---- result lifecycle --------------------------------------------------------------

    method Register(id: string, deliveryId: Option<string>, atMs: int)
      requires Valid()
      modifies this`results
      ensures Valid() && ResultsGrow(old(results), results)
      ensures if id in old(results) then results == old(results)
              else results == old(results)[id :=
                TrackedResult(deliveryId, 0, AwaitingDelivery, None, None, [Entry("", AwaitingDelivery, atMs)])]
    {
      if id in results { return; }
      assert [] + [Entry("", AwaitingDelivery, atMs)] == [Entry("", AwaitingDelivery, atMs)];
      results := results[id := TrackedResult(deliveryId, 0, ResultReady, None, None, []).Record(atMs, AwaitingDelivery, None)];
    }

    /** Move a result that is not terminal yet; a result on its way out takes the current epoch. */
    method Transition(id: string, to: State, why: Option<string>, atMs: int)
      requires Valid() && (to == Delivering || IsTerminal(to))
      modifies this`results
      ensures Valid() && ResultsGrow(old(results), results)
      ensures if id !in old(results) || IsTerminal(old(results)[id].state) then results == old(results)
              else results == old(results)[id := (if to == Delivering then old(results)[id].(epoch := outputEpoch)
                                                  else old(results)[id]).Record(atMs, to, why)]
    {
      hide TrackedResult.Orderly, TrackedResult.InEpoch, TrackedResult.Record;
      if id !in results || IsTerminal(results[id].state) { return; }
      var r := results[id];
      MoveKeeps(r, atMs, to, why, outputEpoch);
      if to == Delivering { r := r.(epoch := outputEpoch); }
      results := results[id := r.Record(atMs, to, why)];
    }

    // ---- the gate -----------------------------------------------------------------------

    predicate UserActive(now: real)
      reads this`userLastSpoke
    {
      userLastSpoke.Some? && now - userLastSpoke.value <= speechWindow
    }

    method BlockedReason(interruptTiming: bool, now: real) returns (reason: Option<Block>)
      requires Valid()
      modifies this`pending, this`sends, this`expired, this`timeouts
      ensures Valid() && FatesSettle(old(sends), sends)
      ensures reason == old(Now()).Blocked(interruptTiming, now, ackTimeout, speechWindow)
      ensures reason == Some(UserSpeaking) <==> userLastSpoke.Some? && now <= userLastSpoke.value + speechWindow
      ensures Now() == old(Now()).Looked(interruptTiming, now, ackTimeout, speechWindow)
      ensures !interruptTiming && reason.None? ==> pending == map[] && !modelOutputOpen
    {
      hide Gate.Valid, Situation.GivenUp;
      if UserActive(now) { return Some(UserSpeaking); }
      if !interruptTiming {
        if modelOutputOpen { return Some(ModelSpeaking); }
        var draining := PlaybackDraining(now);
        if draining { return Some(Block.PlaybackDraining); }
      }
      return None;
    }

    /** May this queued result be announced now? */
    method MayAnnounce(id: string, interruptTiming: bool, now: real) returns (allowed: bool, blocked: Option<Block>)
      requires Valid()
      modifies this`pending, this`sends, this`expired, this`timeouts, this`results
      ensures Valid() && FatesSettle(old(sends), sends) && ResultsGrow(old(results), results)
      ensures blocked == old(Answer(id, interruptTiming, now))
      ensures allowed <==> blocked.None?
      ensures Now() == old(Now()).Announced(id, interruptTiming, now, ackTimeout, speechWindow)
      ensures allowed && !interruptTiming ==> pending == map[] && !modelOutputOpen
      // The gate asks for no epoch: what it allows is of the current one exactly in the first epoch or when being delivered already.
      ensures allowed && id in old(results) ==>
                (old(results)[id].epoch == outputEpoch <==> outputEpoch == 0 || old(results)[id].state == Delivering)
    {
      hide SendsMatch, TimeoutsMatch, FatesSettle, ResultsGrow, Lifecycles;
      NothingSettles();
      InItsEpoch(id);
      if id in results && IsTerminal(results[id].state) {
        return false, Some(InState(results[id].state));
      }
      hide Situation.Looked, Situation.Blocked;
      blocked := BlockedReason(interruptTiming, now);
      if id in results { NoteBlocked(id, blocked); }
      allowed := blocked.None?;
    }

    /** What `MayAnnounce` would answer about a result now. */
    ghost function Answer(id: string, interruptTiming: bool, now: real): Option<Block>
      reads this
    {
      if id in results && IsTerminal(results[id].state) then Some(InState(results[id].state))
      else Now().Blocked(interruptTiming, now, ackTimeout, speechWindow)
    }

    /** A result goes out at a safe pause while one of these waits that could go out at once, as an interruption. */
    ghost predicate PassesOver(id: string, urgent: set<string>, now: real)
      reads this
    {
      && Answer(id, false, now).None?
      && exists u | u in urgent && u != id :: IsWaiting(u) && Answer(u, true, now).None?
    }

    ghost predicate IsWaiting(id: string)
      reads this`results
    {
      id in results && results[id].state == AwaitingDelivery
    }

    /**
     * The gate of the urgent ones: what is allowed at a safe pause leaves every waiting result
     * free to interrupt, so none of them is passed over exactly when the answer is no or none waits.
     */
    lemma NonePassedOverExactly(id: string, urgent: set<string>, now: real)
      ensures Answer(id, false, now).None? ==> forall u | IsWaiting(u) :: Answer(u, true, now).None?
      ensures !PassesOver(id, urgent, now) <==>
              Answer(id, false, now).Some? || forall u | u in urgent && u != id :: !IsWaiting(u)
    {
      if Answer(id, false, now).None? && exists u | u in urgent && u != id :: IsWaiting(u) {
        var u :| u in urgent && u != id && IsWaiting(u);
        assert Answer(u, true, now).None?;
      }
    }

    method NoteBlocked(id: string, blocked: Option<Block>)
      requires Lifecycles() && id in results
      modifies this`results
      ensures Lifecycles() && ResultsGrow(old(results), results)
      ensures results == old(results)[id := old(results)[id].(blockedBy := blocked)]
    {
      results := results[id := results[id].(blockedBy := blocked)];
    }

    lemma InItsEpoch(id: string)
      requires Lifecycles()
      ensures id in results ==> results[id].InEpoch(outputEpoch)
    {
    }

    lemma NothingSettles()
      ensures FatesSettle(sends, sends) && ResultsGrow(results, results)
    {
    }

    // ---- whole runs -----------------------------------------------------------------------

    /** Any operations in any order. */
    method Run(operations: seq<Operation>)
      requires Valid()
      modifies this
      ensures Valid() && Now() == old(Now()).After(operations, ackTimeout, speechWindow)
      ensures FatesSettle(old(sends), sends) && ResultsGrow(old(results), results)
    {
      hide Gate.Valid, Situation.Next, Gate.Now;
      assert FatesSettle(sends, sends) && ResultsGrow(results, results);
      for n := 0 to |operations|
        invariant Valid() && FatesSettle(old(sends), sends) && ResultsGrow(old(results), results)
        invariant Now() == old(Now()).After(operations[..n], ackTimeout, speechWindow)
      {
        assert operations[..n + 1][..n] == operations[..n];
        ghost var s, r := sends, results;
        Handle(operations[n]);
        GrowsOn(old(sends), s, sends, old(results), r, results);
      }
      assert operations[..|operations|] == operations;
    }

    lemma GrowsOn(a: seq<Send>, b: seq<Send>, c: seq<Send>,
                  x: map<string, TrackedResult>, y: map<string, TrackedResult>, z: map<string, TrackedResult>)
      requires FatesSettle(a, b) && FatesSettle(b, c) && ResultsGrow(x, y) && ResultsGrow(y, z)
      ensures FatesSettle(a, c) && ResultsGrow(x, z)
    {
    }

    method Handle(operation: Operation)
      requires Valid()
      modifies this
      ensures Valid() && Now() == old(Now()).Next(operation, ackTimeout, speechWindow)
      ensures FatesSettle(old(sends), sends) && ResultsGrow(old(results), results)
    {
      hide Gate.Valid, FatesSettle, ResultsGrow, Situation.Interrupted, Situation.GivenUp, Situation.Announced,
           Situation.Registered, Situation.Moved;
      NothingSettles();
      match operation
      case DoInterrupt(atMs) => var epoch := Interrupt(atMs);
      case UserSpoke(now) => Spoke(now);
      case ModelOutput(open) => Opened(open);
      case OutputSent(id, epoch, now) => NoteOutputSent(id, epoch, now);
      case Ack(id, phase, epoch, now) => var current := NotePlaybackAck(id, phase, epoch, now);
      case Drain(now) => var draining := PlaybackDraining(now);
      case Take => var ids := TakeExpired();
      case DoRegister(_, _, _) | Move(_, _, _, _) | Announce(_, _, _) => HandleResult(operation);
    }

    method Spoke(now: real)
      requires Valid()
      modifies this`userLastSpoke
      ensures Valid() && Now() == old(Now()).(lastSpoke := Some(now))
    {
      NoteUserSpeech(now);
    }

    method Opened(open: bool)
      requires Valid()
      modifies this`modelOutputOpen
      ensures Valid() && Now() == old(Now()).(outputOpen := open)
    {
      NoteModelOutput(open);
    }

    method HandleResult(operation: Operation)
      requires Valid() && (operation.DoRegister? || operation.Move? || operation.Announce?)
      modifies this
      ensures Valid() && Now() == old(Now()).Next(operation, ackTimeout, speechWindow)
      ensures FatesSettle(old(sends), sends) && ResultsGrow(old(results), results)
    {
      hide Gate.Valid, FatesSettle, ResultsGrow, Situation.Announced;
      NothingSettles();
      match operation
      case DoRegister(id, deliveryId, atMs) => Register(id, deliveryId, atMs);
      case Move(id, to, why, atMs) => if to == Delivering || IsTerminal(to) { Transition(id, to, why, atMs); }
      case Announce(id, interruptTiming, now) => var allowed, blocked := MayAnnounce(id, interruptTiming, now);
    }
  }

  /** A result that waited through an interruption is announced, though it is of an older epoch than the current one. */
  method AnnouncedFromAnOlderEpoch(ackTimeout: real, speechWindow: real, id: string, now: real)
    returns (gate: Gate, allowed: bool)
    requires ackTimeout > 0.0 && speechWindow >= 0.0
    ensures allowed && id in gate.results && gate.results[id].state == AwaitingDelivery
    ensures gate.results[id].epoch < gate.outputEpoch
  {
    hide SendsMatch, TimeoutsMatch, FatesSettle, ResultsGrow, TrackedResult.Orderly, TrackedResult.InEpoch, Gate.Lifecycles, Gate.Accounts;
    gate := new Gate(ackTimeout, speechWindow);
    gate.Register(id, None, 0);
    var epoch := gate.Interrupt(0);
    var blocked;
    allowed, blocked := gate.MayAnnounce(id, true, now);
  }

  /**
   * A later result is announced at a safe pause while an earlier one waits that would be
   * announced even as an interruption: the gate looks at no other result.
   */
  method AnnouncedBeforeAnUrgentOne(ackTimeout: real, speechWindow: real, urgent: string, later: string, now: real)
    returns (gate: Gate, allowed: bool, urgentAllowed: bool)
    requires ackTimeout > 0.0 && speechWindow >= 0.0 && urgent != later
    ensures allowed && urgentAllowed && gate.PassesOver(later, {urgent}, now)
    ensures urgent in gate.results && gate.results[urgent].state == AwaitingDelivery
  {
    hide Gate.Valid, FatesSettle, ResultsGrow, Situation.Blocked, Situation.Announced, BothWait;
    gate := TwoWaiting(ackTimeout, speechWindow, urgent, later);
    var blocked;
    AnnouncedStillWaits(gate.Now(), urgent, later, later, false, now, gate.ackTimeout, gate.speechWindow);
    allowed, blocked := gate.MayAnnounce(later, false, now);
    AnnouncedStillWaits(gate.Now(), urgent, later, urgent, true, now, gate.ackTimeout, gate.speechWindow);
    urgentAllowed, blocked := gate.MayAnnounce(urgent, true, now);
    AnnouncedStillWaits(gate.Now(), urgent, later, urgent, true, now, gate.ackTimeout, gate.speechWindow);
    assert gate.IsWaiting(urgent);
  }

  /** Nothing plays, nobody speaks, and two results wait. */
  ghost predicate BothWait(s: Situation, urgent: string, later: string) {
    && s.pending == map[] && s.lastSpoke.None? && !s.outputOpen
    && urgent in s.results && s.results[urgent].state == AwaitingDelivery
    && later in s.results && s.results[later].state == AwaitingDelivery
  }

  /** Then either may be announced, in either way, and both still wait after asking. */
  lemma AnnouncedStillWaits(s: Situation, urgent: string, later: string, id: string, timing: bool, now: real, timeout: real, window: real)
    requires BothWait(s, urgent, later) && (id == urgent || id == later)
    ensures BothWait(s.Announced(id, timing, now, timeout, window), urgent, later)
    ensures s.Blocked(false, now, timeout, window).None? && s.Blocked(true, now, timeout, window).None?
    ensures s.results.Keys == s.Announced(id, timing, now, timeout, window).results.Keys
    ensures s.results[urgent].state == s.results[later].state == AwaitingDelivery
  {
  }

  method TwoWaiting(ackTimeout: real, speechWindow: real, urgent: string, later: string) returns (gate: Gate)
    requires ackTimeout > 0.0 && speechWindow >= 0.0 && urgent != later
    ensures fresh(gate) && gate.Valid() && BothWait(gate.Now(), urgent, later)
  {
    hide Gate.Valid, FatesSettle, ResultsGrow;
    gate := new Gate(ackTimeout, speechWindow);
    gate.Register(urgent, None, 0);
    gate.Register(later, None, 1);
  }
}
