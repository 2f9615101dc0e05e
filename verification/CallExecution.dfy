/**
 * From a call to its action: preparing it, asking the person, waiting for the desktop
 * lease, acting, answering. A timeout of the runtime can come in at any of these.
 *
 * A call that must wait for the lease races the chain before it against its own abort. A
 * lease that is free when the call comes to it wins that race, provided the chain has
 * `noticed` that it is free.
 */
module CallExecution {
  import opened Wrappers
  import opened ActionBroker
  import opened DesktopLease

  datatype Phase =
    | Preparing
    | Asking(lease: bool)
    | Queued(slot: nat)
    | Acting(held: Option<nat>)
    | Ended

  /** What preparing a call comes to: a failure, a question, or an action, with or without the lease. */
  datatype Prepared = Fails | Asks(lease: bool) | Goes(lease: bool)

  datatype Step =
    | Arrive(id: CallId)
    | Typed(id: CallId)
    | TimesOut(id: CallId, expired: Response)
    | IsPrepared(c: nat, prepared: Prepared, noticed: bool, failure: Response)
    | IsAnswered(c: nat, allowed: bool, noticed: bool, declined: Response)
    | GetsLease(c: nat)
    | Done(c: nat, response: Response)
    | PassesOn(slot: nat)

  /** The slot a call waits in or holds. */
  function SlotOf(p: Phase): Option<nat> {
    match p
    case Queued(s) => Some(s)
    case Acting(held) => held
    case _ => None
  }

  // ---- what the steps say ---------------------------------------------------------------

  /** Where all calls are: the ids they were accepted under, which were aborted, their phases, the lease's slots, what started. */
  datatype Situation = Situation(
    accepted: seq<CallId>,
    aborted: set<nat>,
    phases: seq<Phase>,
    slots: seq<Slot>,
    started: seq<nat>
  ) {
    predicate Free() {
      TailResolved(slots, |slots|)
    }

    /** Does call c wait behind a chain that has not resolved? */
    predicate Blocked(c: nat)
      requires c < |phases|
    {
      phases[c].Queued? && phases[c].slot < |slots| && !TailResolved(slots, phases[c].slot)
    }

    /** Is the person being asked about call c, or does it wait? */
    predicate Paused(c: nat)
      requires c < |phases|
    {
      phases[c].Asking? || Blocked(c)
    }
  }

  function Nothing(): Situation {
    Situation([], {}, [], [], [])
  }

  predicate Possible(phases: seq<Phase>, slots: seq<Slot>, s: Step) {
    match s
    case Arrive(_) | Typed(_) | TimesOut(_, _) => true
    case IsPrepared(c, _, _, _) => c < |phases| && phases[c].Preparing?
    case IsAnswered(c, _, _, _) => c < |phases| && phases[c].Asking?
    case GetsLease(c) => c < |phases| && phases[c].Queued? && phases[c].slot < |slots| && TailResolved(slots, phases[c].slot)
    case Done(c, _) => c < |phases| && phases[c].Acting? && (phases[c].held.Some? ==> phases[c].held.value < |slots|)
    case PassesOn(slot) => slot < |slots| && slots[slot] == Cancelled(false) && TailResolved(slots, slot)
  }

  /** An accepted call begins to be prepared. */
  ghost function Accepts(w: Situation, id: CallId): Situation {
    if Remembered(w.accepted, id) then w
    else w.(accepted := w.accepted + [id], phases := w.phases + [Preparing])
  }

  /** Call c acts, waits for the lease, or gives its place up. */
  ghost function GoesOn(w: Situation, c: nat, needed: bool, noticed: bool): Situation
    requires c < |w.phases|
  {
    if !needed then w.(phases := w.phases[c := Acting(None)], started := w.started + [c])
    else if noticed && w.Free() then
      w.(phases := w.phases[c := Acting(Some(|w.slots|))], slots := w.slots + [Running], started := w.started + [c])
    else if c in w.aborted then w.(phases := w.phases[c := Ended], slots := w.slots + [Cancelled(false)])
    else w.(phases := w.phases[c := Queued(|w.slots|)], slots := w.slots + [Waiting])
  }

  /** The remembered call of the id is aborted, and gives its place up if it waits. */
  ghost function Expires(w: Situation, id: CallId): Situation
    requires |w.phases| == |w.accepted|
  {
    if !Remembered(w.accepted, id) then w
    else
      var c := CallOf(w.accepted, id);
      var w' := w.(aborted := w.aborted + {c});
      if w.Blocked(c) then w'.(phases := w.phases[c := Ended], slots := w.slots[w.phases[c].slot := Cancelled(false)])
      else w'
  }

  ghost function Next(w: Situation, s: Step): (r: Situation)
    requires |w.phases| == |w.accepted|
    ensures |r.phases| == |r.accepted|
  {
    if !Possible(w.phases, w.slots, s) then w
    else match s
      case Arrive(id) => Accepts(w, id)
      case Typed(id) => Accepts(w, id)
      case TimesOut(id, _) => Expires(w, id)
      case IsPrepared(c, Fails, _, _) => w.(phases := w.phases[c := Ended])
      case IsPrepared(c, Asks(needed), _, _) => w.(phases := w.phases[c := Asking(needed)])
      case IsPrepared(c, Goes(needed), noticed, _) => GoesOn(w, c, needed, noticed)
      case IsAnswered(c, allowed, noticed, _) =>
        if allowed && c !in w.aborted then GoesOn(w, c, w.phases[c].lease, noticed) else w.(phases := w.phases[c := Ended])
      case GetsLease(c) =>
        var slot := w.phases[c].slot;
        w.(phases := w.phases[c := Acting(Some(slot))], slots := w.slots[slot := Running], started := w.started + [c])
      case Done(c, _) =>
        var held := w.phases[c].held;
        w.(phases := w.phases[c := Ended], slots := if held.Some? then w.slots[held.value := Finished] else w.slots)
      case PassesOn(slot) => w.(slots := w.slots[slot := Cancelled(true)])
  }

  ghost function After(w: Situation, steps: seq<Step>): (r: Situation)
    requires |w.phases| == |w.accepted|
    ensures |r.phases| == |r.accepted|
  {
    if steps == [] then w else Next(After(w, steps[..|steps| - 1]), steps[|steps| - 1])
  }

  // What the steps tell the broker, and with that what each call is answered with.

  /** Giving its place up answers a call that cannot act at once. */
  ghost function GoingOnTells(w: Situation, c: nat, needed: bool, noticed: bool, response: Response): seq<Event> {
    if needed && !(noticed && w.Free()) && c in w.aborted then [Event.Complete(c, response)] else []
  }

  ghost function Tells(w: Situation, s: Step): seq<Event>
    requires |w.phases| == |w.accepted|
  {
    if !Possible(w.phases, w.slots, s) then []
    else match s
      case Arrive(id) => [Deliver(id)]
      case Typed(id) => [TypeLocally(id)]
      case TimesOut(id, expired) =>
        [Event.TimeOut(id)]
        + if Remembered(w.accepted, id) && w.Blocked(CallOf(w.accepted, id)) then [Event.Complete(CallOf(w.accepted, id), expired)] else []
      case IsPrepared(c, Fails, _, failure) => [Event.Complete(c, failure)]
      case IsPrepared(c, Asks(_), _, _) => []
      case IsPrepared(c, Goes(needed), noticed, failure) => GoingOnTells(w, c, needed, noticed, failure)
      case IsAnswered(c, allowed, noticed, declined) =>
        if allowed && c !in w.aborted then GoingOnTells(w, c, w.phases[c].lease, noticed, declined)
        else [Event.Complete(c, declined)]
      case Done(c, response) => [Event.Complete(c, response)]
      case GetsLease(_) => []
      case PassesOn(_) => []
  }

  ghost function HistoryOf(w: Situation, steps: seq<Step>): seq<Event>
    requires |w.phases| == |w.accepted|
  {
    if steps == [] then []
    else HistoryOf(w, steps[..|steps| - 1]) + Tells(After(w, steps[..|steps| - 1]), steps[|steps| - 1])
  }

  /** The response a step carries for the call it may end. */
  function ResponseIn(s: Step): Response {
    match s
    case TimesOut(_, expired) => expired
    case IsPrepared(_, _, _, failure) => failure
    case IsAnswered(_, _, _, declined) => declined
    case Done(_, response) => response
    case _ => ""
  }

  ghost predicate EndedIn(w: Situation, c: nat) {
    c < |w.phases| && w.phases[c].Ended?
  }

  /** What call c is answered with: the response of the step that ended it. */
  ghost function AnswerTo(w: Situation, steps: seq<Step>, c: nat): Option<Response>
    requires |w.phases| == |w.accepted|
  {
    if steps == [] then None
    else
      var earlier, s := steps[..|steps| - 1], steps[|steps| - 1];
      var was := After(w, earlier);
      if AnswerTo(w, earlier, c).Some? then AnswerTo(w, earlier, c)
      else if !EndedIn(was, c) && EndedIn(Next(was, s), c) then Some(ResponseIn(s))
      else None
  }

  /** Calls that ended are those with an outcome. */
  ghost predicate EndingsAgree(w: Situation, h: seq<Event>) {
    && AcceptedIn(h) == w.accepted && |w.phases| == |w.accepted|
    && forall c: nat :: EndedIn(w, c) <==> Outcome(h, c).Some?
  }

  lemma OutcomeOfTwo(h: seq<Event>, a: Event, b: Event, c: nat)
    ensures Outcome(h + [], c) == Outcome(h, c)
    ensures Outcome(h + [a], c) ==
            if Outcome(h, c).None? && a.Complete? && a.call == c && c < |AcceptedIn(h)| then Some(a.response) else Outcome(h, c)
    ensures Outcome(h + [a, b], c) == Outcome(h + [a] + [b], c)
    ensures Outcome(h + [a] + [b], c) ==
            if Outcome(h + [a], c).None? && b.Complete? && b.call == c && c < |AcceptedIn(h + [a])| then Some(b.response) else Outcome(h + [a], c)
  {
    assert h + [] == h && (h + [a])[..|h|] == h;
    assert h + [a, b] == h + [a] + [b] && (h + [a] + [b])[..|h| + 1] == h + [a];
  }

  /** One step gives an outcome to exactly the call it ends, and that is the response it carries. */
  lemma StepAnswers(w: Situation, h: seq<Event>, s: Step, c: nat)
    requires EndingsAgree(w, h)
    ensures Outcome(h + Tells(w, s), c) ==
            if Outcome(h, c).Some? then Outcome(h, c)
            else if !EndedIn(w, c) && EndedIn(Next(w, s), c) then Some(ResponseIn(s))
            else None
  {
    hide AcceptedIn, Outcome, TailResolved;
    var tells := Tells(w, s);
    assert h + [] == h;
    if |tells| == 1 {
      assert tells == [tells[0]];
      OutcomeOfTwo(h, tells[0], tells[0], c);
    } else if |tells| == 2 {
      assert tells == [tells[0], tells[1]];
      HistoryStep(h, tells[0]);
      OutcomeOfTwo(h, tells[0], tells[1], c);
    }
  }

  /** The paused calls a timeout for the id gives up: those that are still the remembered call of it. */
  ghost function GivenUp(w: Situation, id: CallId): set<nat>
    requires |w.phases| == |w.accepted|
  {
    set c: nat | Oldest(|w.accepted|) <= c < |w.accepted| && w.accepted[c] == id && w.Paused(c)
  }

  /** The calls that were given up while the person was asked or while they waited, according to the steps. */
  ghost function TimedOut(w: Situation, steps: seq<Step>): set<nat>
    requires |w.phases| == |w.accepted|
  {
    if steps == [] then {}
    else
      var earlier, s := steps[..|steps| - 1], steps[|steps| - 1];
      TimedOut(w, earlier) + if s.TimesOut? then GivenUp(After(w, earlier), s.id) else {}
  }

  ghost function AbortedIn(records: seq<CallRecord>): set<nat> {
    set c: nat | c < |records| && records[c].aborted
  }

  lemma AbortedNext(records: seq<CallRecord>, c: nat, response: Response, fresher: CallRecord)
    requires !fresher.aborted
    ensures AbortedIn(records + [fresher]) == AbortedIn(records)
    ensures c < |records| ==> AbortedIn(records[c := records[c].(response := Some(response))]) == AbortedIn(records)
    ensures c < |records| ==> AbortedIn(records[c := records[c].(aborted := true)]) == AbortedIn(records) + {c}
  {
  }

  // ---- what every step keeps ------------------------------------------------------------

  /** Waiting calls wait in slots of their own, and acting ones hold running slots of their own; no such slot is without its call. */
  ghost predicate SlotsFit(phases: seq<Phase>, slots: seq<Slot>) {
    && (forall c | 0 <= c < |phases| :: SlotFits(phases[c], slots))
    && (forall c, d | 0 <= c < d < |phases| && SlotOf(phases[c]).Some? :: SlotOf(phases[c]) != SlotOf(phases[d]))
    && (forall s | 0 <= s < |slots| && InUse(slots[s]) :: Owned(phases, s))
  }

  predicate InUse(s: Slot) {
    s.Waiting? || s.Running?
  }

  ghost predicate Owned(phases: seq<Phase>, s: nat) {
    exists c :: 0 <= c < |phases| && SlotOf(phases[c]) == Some(s)
  }

  /** A slot keeps its call while that call's phase stays. */
  lemma StillOwned(phases: seq<Phase>, after: seq<Phase>, c: nat, s: nat)
    requires Owned(phases, s) && |phases| <= |after| && (c < |phases| ==> SlotOf(phases[c]) != Some(s))
    requires forall d | 0 <= d < |phases| && d != c :: after[d] == phases[d]
    ensures Owned(after, s)
  {
    var d :| 0 <= d < |phases| && SlotOf(phases[d]) == Some(s);
    assert SlotOf(after[d]) == Some(s);
  }

  ghost predicate SlotFits(p: Phase, slots: seq<Slot>) {
    match p
    case Queued(s) => s < |slots| && slots[s].Waiting?
    case Acting(Some(s)) => s < |slots| && slots[s].Running?
    case _ => true
  }

  /** What has started, and what is doomed not to. */
  ghost predicate StartsFit(phases: seq<Phase>, records: seq<CallRecord>, started: seq<nat>, doomed: set<nat>) {
    && |phases| == |records|
    && (forall i, j | 0 <= i < j < |started| :: started[i] != started[j])
    && (forall c | c in started :: c < |phases| && (phases[c].Acting? || phases[c].Ended?))
    && (forall c | 0 <= c < |phases| && phases[c].Acting? :: c in started)
    && (forall c | c in doomed ::
          c < |phases| && c !in started && (phases[c].Ended? || (phases[c].Asking? && records[c].aborted)))
    && (forall c | 0 <= c < |phases| :: phases[c].Ended? <==> records[c].response.Some?)
  }

  lemma StartsFacts(phases: seq<Phase>, records: seq<CallRecord>, started: seq<nat>, doomed: set<nat>, c: nat)
    requires StartsFit(phases, records, started, doomed) && c < |phases|
    ensures |phases| == |records| && (phases[c].Preparing? || phases[c].Asking? || phases[c].Queued? ==> c !in started)
  {
  }

  lemma ActsFit(phases: seq<Phase>, records: seq<CallRecord>, started: seq<nat>, doomed: set<nat>, c: nat, p: Phase)
    requires StartsFit(phases, records, started, doomed) && c < |phases| && c !in doomed && p.Acting?
    requires phases[c].Preparing? || phases[c].Asking? || phases[c].Queued?
    ensures StartsFit(phases[c := p], records, started + [c], doomed)
  {
    assert c !in started;
  }

  lemma WaitsFit(phases: seq<Phase>, records: seq<CallRecord>, started: seq<nat>, doomed: set<nat>, c: nat, p: Phase)
    requires StartsFit(phases, records, started, doomed) && c < |phases| && c !in doomed && p.Queued?
    requires phases[c].Preparing? || phases[c].Asking?
    ensures StartsFit(phases[c := p], records, started, doomed)
  {
  }

  lemma OtherSlot(phases: seq<Phase>, slots: seq<Slot>, c: nat, p: Phase, s: nat, now: Slot)
    requires SlotsFit(phases, slots) && c < |phases| && s < |slots|
    requires SlotOf(phases[c]) == Some(s)
    requires SlotFits(p, slots[s := now]) && (SlotOf(p) == Some(s) || (SlotOf(p).None? && !InUse(now)))
    ensures SlotsFit(phases[c := p], slots[s := now])
  {
    var after, later := phases[c := p], slots[s := now];
    forall d | 0 <= d < |after| ensures SlotFits(after[d], later) {
      assert SlotFits(phases[d], slots);
    }
    forall t | 0 <= t < |later| && InUse(later[t]) ensures Owned(after, t) {
      if t == s { assert SlotOf(after[c]) == Some(t); } else { StillOwned(phases, after, c, t); }
    }
  }

  lemma NoSlot(phases: seq<Phase>, slots: seq<Slot>, c: nat, p: Phase)
    requires SlotsFit(phases, slots) && c < |phases| && SlotOf(phases[c]).None? && SlotOf(p).None?
    ensures SlotsFit(phases[c := p], slots)
  {
    var after := phases[c := p];
    forall d | 0 <= d < |after| ensures SlotFits(after[d], slots) {
      assert SlotFits(phases[d], slots);
    }
    forall t | 0 <= t < |slots| && InUse(slots[t]) ensures Owned(after, t) {
      StillOwned(phases, after, c, t);
    }
  }

  lemma NewSlot(phases: seq<Phase>, slots: seq<Slot>, c: nat, p: Phase, now: Slot)
    requires SlotsFit(phases, slots) && c < |phases| && SlotOf(phases[c]).None?
    requires SlotFits(p, slots + [now]) && (SlotOf(p) == Some(|slots|) || (SlotOf(p).None? && !InUse(now)))
    ensures SlotsFit(phases[c := p], slots + [now])
  {
    var after, later := phases[c := p], slots + [now];
    forall d | 0 <= d < |after| ensures SlotFits(after[d], later) {
      assert SlotFits(phases[d], slots);
    }
    forall d | 0 <= d < |phases| ensures SlotOf(phases[d]) != Some(|slots|) {
      assert SlotFits(phases[d], slots);
    }
    forall t | 0 <= t < |later| && InUse(later[t]) ensures Owned(after, t) {
      if t == |slots| { assert SlotOf(after[c]) == Some(t); } else { StillOwned(phases, after, c, t); }
    }
  }

  lemma NewPhase(phases: seq<Phase>, slots: seq<Slot>)
    requires SlotsFit(phases, slots)
    ensures SlotsFit(phases + [Preparing], slots)
  {
    var after := phases + [Preparing];
    forall d | 0 <= d < |after| ensures SlotFits(after[d], slots) {
      if d < |phases| { assert SlotFits(phases[d], slots); }
    }
    forall t | 0 <= t < |slots| && InUse(slots[t]) ensures Owned(after, t) {
      StillOwned(phases, after, |phases|, t);
    }
  }

  /** A slot nobody waits in or holds may change. */
  lemma FreeSlot(phases: seq<Phase>, slots: seq<Slot>, s: nat, now: Slot)
    requires SlotsFit(phases, slots) && s < |slots| && slots[s].Cancelled? && !InUse(now)
    ensures SlotsFit(phases, slots[s := now])
  {
    forall d | 0 <= d < |phases| ensures SlotFits(phases[d], slots[s := now]) {
      assert SlotFits(phases[d], slots);
    }
  }

  class Executor {
    const broker: Broker
    const lease: Lease
    /** Where each accepted call has come to. */
    var phases: seq<Phase>
    /** The calls whose action started, in order; those timed out while the person was asked or while they waited. */
    ghost var started: seq<nat>
    ghost var doomed: set<nat>

    constructor ()
      ensures Valid() && phases == [] && started == [] && doomed == {} && fresh(broker) && fresh(lease)
      ensures broker.history == [] && Now() == Nothing()
    {
      var b := new Broker();
      var l := new Lease();
      broker, lease := b, l;
      phases, started, doomed := [], [], {};
    }

    ghost predicate Valid()
      reads this, broker, lease
    {
      && broker.Valid() && lease.Valid() && |broker.records| == |broker.accepted|
      && SlotsFit(phases, lease.slots)
      && StartsFit(phases, broker.records, started, doomed)
    }

    ghost function Now(): (w: Situation)
      reads this, broker, lease
    {
      Situation(broker.accepted, AbortedIn(broker.records), phases, lease.slots, started)
    }

    /** Is the lease free for the next to come? */
    predicate Free()
      reads lease
    {
      TailResolved(lease.slots, |lease.slots|)
    }

    method Arrives(id: CallId, typed: bool)
      requires Valid()
      modifies this`phases, broker
      ensures Valid()
      ensures broker.history == old(broker.history) + [if typed then TypeLocally(id) else Deliver(id)]
      ensures if Remembered(old(broker.accepted), id)
              then phases == old(phases) && broker.accepted == old(broker.accepted) && broker.records == old(broker.records)
              else && phases == old(phases) + [Preparing] && broker.accepted == old(broker.accepted) + [id]
                   && broker.records == old(broker.records) + [CallRecord(typed, None, false)]
      ensures Now() == Accepts(old(Now()), id)
    {
      hide Broker.Remembers, Broker.Answers, Spaced, Lease.Valid, SlotsFit, AbortedIn;
      AbortedNext(broker.records, 0, "", CallRecord(typed, None, false));
      if typed {
        var answer := broker.RunLocal(id);
      } else {
        broker.Dispatch(id);
      }
      NewPhase(phases, lease.slots);
      if |broker.records| > |phases| { phases := phases + [Preparing]; }
    }

    /** The call's answer, whatever came of it. */
    method End(c: nat, response: Response)
      requires Valid() && c < |phases| && !phases[c].Ended? && SlotOf(phases[c]).None?
      modifies this`phases, broker
      ensures Valid() && phases == old(phases)[c := Ended]
      ensures broker.history == old(broker.history) + [Event.Complete(c, response)]
      ensures AbortedIn(broker.records) == old(AbortedIn(broker.records)) && broker.accepted == old(broker.accepted)
    {
      hide Broker.Remembers, Broker.Answers, Spaced, Lease.Valid, SlotsFit, AbortedIn;
      AbortedNext(broker.records, c, response, CallRecord(false, None, false));
      NoSlot(phases, lease.slots, c, Ended);
      broker.Complete(c, response);
      phases := phases[c := Ended];
    }

    // ---- towards the action -----------------------------------------------------------

    /** Preparing ended: the call fails, asks the person, or goes on. Nothing here looks whether it timed out. */
    method OnPrepared(c: nat, prepared: Prepared, noticed: bool, failure: Response)
      requires Valid() && c < |phases| && phases[c].Preparing?
      modifies this, broker, lease
      ensures Valid() && doomed == old(doomed) && |phases| == |old(phases)|
      ensures prepared.Fails? ==> phases == old(phases)[c := Ended] && started == old(started)
      ensures prepared.Asks? ==>
                && phases == old(phases)[c := Asking(prepared.lease)] && started == old(started)
                && broker.records == old(broker.records) && broker.accepted == old(broker.accepted)
      // It acts at once exactly when it needs no lease or finds the lease free, timed out or not.
      ensures prepared.Goes? ==> started == old(started) + if !prepared.lease || (old(Free()) && noticed) then [c] else []
      ensures prepared.Goes? && c !in started && old(broker.records[c]).aborted ==> phases[c].Ended?
      ensures prepared.Goes? && c in started ==> phases[c].Acting? && broker.records == old(broker.records)
      ensures Now() == Next(old(Now()), IsPrepared(c, prepared, noticed, failure))
      ensures broker.history == old(broker.history) + old(Tells(Now(), IsPrepared(c, prepared, noticed, failure)))
    {
      hide Broker.Remembers, Broker.Answers, Spaced, Lease.Valid, SlotsFit, AbortedIn, GoesOn, GoingOnTells;
      match prepared
      case Fails => End(c, failure);
      case Asks(needed) =>
        NoSlot(phases, lease.slots, c, Asking(needed));
        phases := phases[c := Asking(needed)];
      case Goes(needed) => Begin(c, needed, noticed, failure);
    }

    /** The person answered; a call that timed out meanwhile is not done, whatever the answer. */
    method OnAnswered(c: nat, allowed: bool, noticed: bool, declined: Response)
      requires Valid() && c < |phases| && phases[c].Asking?
      modifies this, broker, lease
      ensures Valid() && doomed == old(doomed)
      ensures !allowed || old(broker.records[c]).aborted ==> phases == old(phases)[c := Ended] && started == old(started)
      ensures allowed && !old(broker.records[c]).aborted ==>
                started == old(started) + if !old(phases[c]).lease || (old(Free()) && noticed) then [c] else []
      ensures Now() == Next(old(Now()), IsAnswered(c, allowed, noticed, declined))
      ensures broker.history == old(broker.history) + old(Tells(Now(), IsAnswered(c, allowed, noticed, declined)))
    {
      hide Broker.Remembers, Broker.Answers, Spaced, Lease.Valid, SlotsFit, GoesOn, GoingOnTells;
      if allowed && !broker.records[c].aborted {
        Begin(c, phases[c].lease, noticed, declined);
      } else {
        End(c, declined);
      }
    }

    /** Act, or come to the lease. */
    method Begin(c: nat, needed: bool, noticed: bool, expired: Response)
      requires Valid() && c < |phases| && c !in doomed && (phases[c].Preparing? || phases[c].Asking?)
      modifies this`phases, this`started, broker, lease
      ensures Valid() && |phases| == |old(phases)|
      ensures started == old(started) + if !needed || (old(Free()) && noticed) then [c] else []
      ensures c !in started ==> if old(broker.records[c]).aborted then phases[c].Ended? else phases[c].Queued?
      ensures c in started ==> phases[c].Acting? && broker.records == old(broker.records)
      ensures Now() == GoesOn(old(Now()), c, needed, noticed)
      ensures broker.history == old(broker.history) + old(GoingOnTells(Now(), c, needed, noticed, expired))
    {
      hide Broker.Remembers, Broker.Answers, Spaced, SlotsFit, StartsFit, Lease.Valid, AbortedIn;
      StartsFacts(phases, broker.records, started, doomed, c);
      if needed {
        ComeToLease(c, noticed, expired);
      } else {
        NoSlot(phases, lease.slots, c, Acting(None));
        ActsFit(phases, broker.records, started, doomed, c, Acting(None));
        phases, started := phases[c := Acting(None)], started + [c];
      }
    }

    /** A lease noticed to be free is taken, even by a call that has timed out; else such a call gives up, and any other waits. */
    method ComeToLease(c: nat, noticed: bool, expired: Response)
      requires Valid() && c < |phases| && c !in doomed && (phases[c].Preparing? || phases[c].Asking?)
      modifies this`phases, this`started, broker, lease
      ensures Valid() && |phases| == |old(phases)|
      ensures started == old(started) + if old(Free()) && noticed then [c] else []
      ensures c !in started ==> if old(broker.records[c]).aborted then phases[c].Ended? else phases[c].Queued?
      ensures c in started ==> phases[c].Acting? && broker.records == old(broker.records)
      ensures Now() == GoesOn(old(Now()), c, true, noticed)
      ensures broker.history == old(broker.history) + old(GoingOnTells(Now(), c, true, noticed, expired))
    {
      hide Broker.Remembers, Broker.Answers, Spaced, SlotsFit, StartsFit, Lease.Valid;
      StartsFacts(phases, broker.records, started, doomed, c);
      ghost var before := lease.slots;
      var slot := lease.Enter();
      TailBefore(before, Waiting);
      if noticed && TailResolved(lease.slots, slot) {
        lease.Proceed(slot);
        assert before + [Running] == lease.slots;
        NewSlot(phases, before, c, Acting(Some(slot)), Running);
        ActsFit(phases, broker.records, started, doomed, c, Acting(Some(slot)));
        phases, started := phases[c := Acting(Some(slot))], started + [c];
      } else if broker.records[c].aborted {
        lease.Abort(slot);
        assert before + [Cancelled(false)] == lease.slots && phases[c := phases[c]] == phases;
        NewSlot(phases, before, c, phases[c], Cancelled(false));
        End(c, expired);
      } else {
        assert before + [Waiting] == lease.slots;
        NewSlot(phases, before, c, Queued(slot), Waiting);
        WaitsFit(phases, broker.records, started, doomed, c, Queued(slot));
        phases := phases[c := Queued(slot)];
      }
    }

    /** Everything before the call's slot has finished. */
    method OnLease(c: nat)
      requires Valid() && c < |phases| && phases[c].Queued? && c !in doomed
      requires TailResolved(lease.slots, phases[c].slot)
      modifies this`phases, this`started, lease
      ensures Valid() && started == old(started) + [c]
      ensures phases == old(phases)[c := Acting(Some(old(phases[c]).slot))]
      ensures Now() == Next(old(Now()), GetsLease(c))
    {
      hide Broker.Remembers, Broker.Answers, Spaced, SlotsFit;
      var slot := phases[c].slot;
      SlotIsThere(phases, lease.slots, c);
      OtherSlot(phases, lease.slots, c, Acting(Some(slot)), slot, Running);
      lease.Proceed(slot);
      phases, started := phases[c := Acting(Some(slot))], started + [c];
    }

    /**
     * `tool.timeout`. A call being asked about is doomed, and so is one that waits for the
     * lease: that one gives its place up at once and is answered. All this is only so for the
     * remembered call of the id: a timeout for a forgotten one goes unnoticed.
     */
    method OnTimeOut(id: CallId, expired: Response)
      requires Valid()
      modifies this, broker, lease
      ensures Valid() && started == old(started) && old(doomed) <= doomed
      ensures var known := Remembered(old(broker.accepted), id);
              known ==>
                var c := CallOf(old(broker.accepted), id);
                && c < |old(phases)| == |broker.records| && broker.records[c].aborted
                && (old(phases)[c].Asking? ==> c in doomed && phases == old(phases))
                && (old(phases)[c].Queued? && !TailResolved(old(lease.slots), old(phases)[c].slot) ==>
                      c in doomed && phases == old(phases)[c := Ended])
                && (old(phases)[c].Preparing? || old(phases)[c].Acting? || old(phases)[c].Ended? ==>
                      phases == old(phases) && doomed == old(doomed) && lease.slots == old(lease.slots))
      ensures !Remembered(old(broker.accepted), id) ==>
                && phases == old(phases) && doomed == old(doomed) && lease.slots == old(lease.slots)
                && broker.records == old(broker.records) && broker.accepted == old(broker.accepted)
      ensures doomed == old(doomed) + old(GivenUp(Now(), id))
      ensures Now() == Expires(old(Now()), id)
      ensures broker.history == old(broker.history) + old(Tells(Now(), TimesOut(id, expired)))
    {
      hide Broker.Remembers, Broker.Answers, Spaced, SlotsFit, Lease.Valid, GivenUp;
      broker.MapIsMemory(id);
      GivenUpIsRemembered(Now(), id);
      if id !in broker.calls {
        broker.TimeOut(id);
        return;
      }
      var c := broker.calls[id];
      AbortedNext(broker.records, c, expired, CallRecord(false, None, false));
      SlotIsThere(phases, lease.slots, c);
      broker.TimeOut(id);
      if phases[c].Asking? {
        doomed := doomed + {c};
      } else if phases[c].Queued? && !TailResolved(lease.slots, phases[c].slot) {
        GiveUp(c, expired);
      }
    }

    /** A call that waits for the lease gives its place up, and is answered. */
    method GiveUp(c: nat, expired: Response)
      requires Valid() && c < |phases| && phases[c].Queued?
      modifies this`phases, this`doomed, broker, lease
      ensures Valid() && phases == old(phases)[c := Ended] && doomed == old(doomed) + {c}
      ensures broker.accepted == old(broker.accepted) && broker.history == old(broker.history) + [Event.Complete(c, expired)]
      ensures |broker.records| == |old(broker.records)| > c && broker.records[c].aborted == old(broker.records[c]).aborted
      ensures AbortedIn(broker.records) == old(AbortedIn(broker.records))
      ensures lease.slots == old(lease.slots)[old(phases[c]).slot := Cancelled(false)]
    {
      hide Broker.Remembers, Broker.Answers, Spaced, SlotsFit, AbortedIn;
      AbortedNext(broker.records, c, expired, CallRecord(false, None, false));
      var slot := phases[c].slot;
      SlotIsThere(phases, lease.slots, c);
      OtherSlot(phases, lease.slots, c, Ended, slot, Cancelled(false));
      lease.Abort(slot);
      broker.Complete(c, expired);
      phases := phases[c := Ended];
      doomed := doomed + {c};
    }

    /** The action ended, well or badly. */
    method OnDone(c: nat, response: Response)
      requires Valid() && c < |phases| && phases[c].Acting?
      modifies this`phases, broker, lease
      ensures Valid() && phases == old(phases)[c := Ended]
      ensures Now() == Next(old(Now()), Done(c, response))
      ensures broker.history == old(broker.history) + [Event.Complete(c, response)]
    {
      hide Broker.Remembers, Broker.Answers, Spaced, SlotsFit, AbortedIn;
      AbortedNext(broker.records, c, response, CallRecord(false, None, false));
      if phases[c].held.Some? {
        var slot := phases[c].held.value;
        SlotIsThere(phases, lease.slots, c);
        OtherSlot(phases, lease.slots, c, Ended, slot, Finished);
        lease.Finish(slot);
      } else {
        NoSlot(phases, lease.slots, c, Ended);
      }
      broker.Complete(c, response);
      phases := phases[c := Ended];
    }

    /** A place that was given up opens its gate. */
    method OnPass(slot: nat)
      requires Valid() && slot < |lease.slots| && lease.slots[slot] == Cancelled(false) && TailResolved(lease.slots, slot)
      modifies lease
      ensures Valid() && Now() == Next(old(Now()), PassesOn(slot))
    {
      hide Broker.Remembers, Broker.Answers, Spaced, SlotsFit;
      FreeSlot(phases, lease.slots, slot, Cancelled(true));
      lease.Pass(slot);
    }

    predicate Enabled(s: Step)
      reads this`phases, lease
    {
      Possible(phases, lease.slots, s)
    }

    method Handle(s: Step)
      requires Valid() && Enabled(s)
      modifies this, broker, lease
      ensures Valid() && Now() == Next(old(Now()), s)
      ensures old(started) <= started
      ensures doomed == old(doomed) + if s.TimesOut? then old(GivenUp(Now(), s.id)) else {}
      ensures broker.history == old(broker.history) + old(Tells(Now(), s))
    {
      hide Broker.Valid, SlotsFit, Lease.Valid, GivenUp, AbortedIn, GoesOn, GoingOnTells;
      assert broker.history + [] == broker.history;
      match s
      case Arrive(id) => Arrives(id, false);
      case Typed(id) => Arrives(id, true);
      case TimesOut(id, expired) => OnTimeOut(id, expired);
      case IsPrepared(c, prepared, noticed, failure) => OnPrepared(c, prepared, noticed, failure);
      case IsAnswered(c, allowed, noticed, declined) => OnAnswered(c, allowed, noticed, declined);
      case GetsLease(c) => OnLease(c);
      case Done(c, response) => OnDone(c, response);
      case PassesOn(slot) => OnPass(slot);
    }

    /**
     * Any interleaving: every action starts at most once; at most one holds the lease; a call
     * that timed out while the person was asked or while it waited, and was still remembered,
     * never starts its action; and every call that ended has its one answer, the response of
     * the step that ended it, everything sent for it being as the broker owes.
     */
    method Run(steps: seq<Step>)
      requires Valid()
      modifies this, broker, lease
      ensures Valid() && old(started) <= started && Now() == After(old(Now()), steps)
      ensures doomed == old(doomed) + old(TimedOut(Now(), steps))
      ensures forall i, j | 0 <= i < j < |started| :: started[i] != started[j]
      ensures forall c | c in doomed :: c !in started
      ensures forall c, d | 0 <= c < d < |phases| && Holds(phases[c]) :: !Holds(phases[d])
      ensures broker.history == old(broker.history) + old(HistoryOf(Now(), steps))
      ensures forall c: nat :: Outcome(broker.history, c) == if old(Outcome(broker.history, c)).Some? then old(Outcome(broker.history, c))
                                                             else old(AnswerTo(Now(), steps, c))
      ensures forall c: nat | c < |phases| ::
                && (phases[c].Ended? <==> Outcome(broker.history, c).Some?)
                && CountFor(broker.sent, c) == Owed(broker.history, c)
    {
      hide Next, Tells, GivenUp, Outcome, Owed, AcceptedIn, SlotsFit, CountFor;
      hide Broker.Valid, Lease.Valid;
      ghost var told := broker.history;
      assert told + [] == told;
      for n := 0 to |steps|
        invariant Valid() && old(started) <= started && Now() == After(old(Now()), steps[..n])
        invariant doomed == old(doomed) + old(TimedOut(Now(), steps[..n]))
        invariant broker.history == told + old(HistoryOf(Now(), steps[..n]))
        invariant forall c: nat :: Outcome(broker.history, c) == if Outcome(told, c).Some? then Outcome(told, c)
                                                                 else old(AnswerTo(Now(), steps[..n], c))
      {
        assert steps[..n + 1][..n] == steps[..n];
        EndingsAgreeNow();
        forall c: nat { StepAnswers(Now(), broker.history, steps[n], c); }
        if Enabled(steps[n]) { Handle(steps[n]); } else { NothingTold(steps[n]); }
      }
      assert steps[..|steps|] == steps;
      OneHolder(phases, lease.slots);
      Kept();
    }

    lemma Kept()
      requires Valid()
      ensures forall i, j | 0 <= i < j < |started| :: started[i] != started[j]
      ensures forall c | c in doomed :: c !in started
      ensures forall c: nat | c < |phases| ::
                && (phases[c].Ended? <==> Outcome(broker.history, c).Some?)
                && CountFor(broker.sent, c) == Owed(broker.history, c)
    {
    }

    /**
     * A timeout under its own id keeps a call that could still act from ever acting, exactly
     * when the call is asked about, or waits behind a chain that has not resolved, and fewer
     * than 128 newer ones were accepted.
     */
    lemma TimeOutStopsExactly(c: nat, expired: Response)
      requires Valid() && c < |phases| && c !in started && !Hopeless(Now(), c)
      ensures |phases| == |broker.accepted|
      ensures (forall steps :: c !in After(Next(Now(), TimesOut(broker.accepted[c], expired)), steps).started)
              <==> Now().Paused(c) && |broker.accepted| - 1 - c < MAX_REMEMBERED_CALLS
    {
      hide Broker.Answers, Broker.Remembers, Lease.Valid, SlotsFit;
      var id := broker.accepted[c];
      ExpiresFits(Now(), id);
      ExpiresMakesHopeless(Now(), id, c);
      CanActUnlessHopeless(Expires(Now(), id), c);
      assert Next(Now(), TimesOut(id, expired)) == Expires(Now(), id);
      assert c in GivenUp(Now(), id) <==> Now().Paused(c) && |broker.accepted| - 1 - c < MAX_REMEMBERED_CALLS;
    }

    lemma EndingsAgreeNow()
      requires Valid()
      ensures EndingsAgree(Now(), broker.history)
    {
      forall c: nat ensures EndedIn(Now(), c) <==> Outcome(broker.history, c).Some? {
        if c >= |phases| { BeforeTheCall(broker.history, c); }
      }
    }

    lemma NothingTold(s: Step)
      requires !Enabled(s) && |phases| == |broker.accepted|
      ensures Next(Now(), s) == Now() && Tells(Now(), s) == [] && broker.history + [] == broker.history
    {
    }

    lemma OneHolder(phases: seq<Phase>, slots: seq<Slot>)
      requires lease.Valid() && slots == lease.slots && SlotsFit(phases, slots)
      ensures forall c, d | 0 <= c < d < |phases| && Holds(phases[c]) :: !Holds(phases[d])
    {
      lease.ValidIsSafe();
      forall c, d | 0 <= c < d < |phases| && Holds(phases[c]) ensures !Holds(phases[d]) {
        assert SlotFits(phases[c], slots) && SlotFits(phases[d], slots);
      }
    }
  }

  /** Only the remembered call of an id is given up for it. */
  lemma GivenUpIsRemembered(w: Situation, id: CallId)
    requires |w.phases| == |w.accepted| && Spaced(w.accepted)
    ensures GivenUp(w, id) == if Remembered(w.accepted, id) && w.Paused(CallOf(w.accepted, id))
                              then {CallOf(w.accepted, id)} else {}
  {
    forall c | c in GivenUp(w, id) ensures Remembered(w.accepted, id) && c == CallOf(w.accepted, id) {
      assert w.accepted[Oldest(|w.accepted|)..][c - Oldest(|w.accepted|)] == id;
      OneRememberedCall(w.accepted, id, c);
    }
  }

  predicate Holds(p: Phase) {
    p.Acting? && p.held.Some?
  }

  lemma SlotIsThere(phases: seq<Phase>, slots: seq<Slot>, c: nat)
    requires SlotsFit(phases, slots) && c < |phases|
    ensures SlotFits(phases[c], slots)
  {
  }

  /** Joining the queue does not change what is before the new slot. */
  lemma TailBefore(slots: seq<Slot>, now: Slot)
    ensures TailResolved(slots + [now], |slots|) == TailResolved(slots, |slots|)
  {
    TailMeansAllGates(slots, |slots|);
    TailMeansAllGates(slots + [now], |slots|);
    assert forall i | 0 <= i < |slots| :: (slots + [now])[i] == slots[i];
  }

  /** The timed-out calls are those that were remembered and paused when a timeout for their id came. */
  lemma {:induction false} TimedOutByAStep(w: Situation, steps: seq<Step>, c: nat)
    requires |w.phases| == |w.accepted|
    ensures c in TimedOut(w, steps) <==>
            exists n: nat :: n < |steps| && steps[n].TimesOut? && c in GivenUp(After(w, steps[..n]), steps[n].id)
  {
    hide After, GivenUp;
    if steps != [] {
      var m := |steps| - 1;
      var earlier := steps[..m];
      TimedOutByAStep(w, earlier, c);
      assert forall n: nat | n < m :: earlier[..n] == steps[..n];
    }
  }

  /** The call has not acted and never will: it ended, or its question will be answered in vain. */
  ghost predicate Hopeless(w: Situation, c: nat) {
    c < |w.phases| && c !in w.started && (w.phases[c].Ended? || (w.phases[c].Asking? && c in w.aborted))
  }

  lemma {:induction false} HopelessStays(w: Situation, steps: seq<Step>, c: nat)
    requires |w.phases| == |w.accepted| && Hopeless(w, c)
    ensures Hopeless(After(w, steps), c)
  {
    if steps != [] {
      HopelessStays(w, steps[..|steps| - 1], c);
      hide After;
      var now := After(w, steps[..|steps| - 1]);
      HopelessNext(now, steps[|steps| - 1], c);
    }
  }

  lemma HopelessNext(w: Situation, s: Step, c: nat)
    requires |w.phases| == |w.accepted| && Hopeless(w, c)
    ensures Hopeless(Next(w, s), c)
  {
    hide Remembered;
  }

  lemma {:induction false} AfterBoth(w: Situation, a: seq<Step>, b: seq<Step>)
    requires |w.phases| == |w.accepted|
    ensures After(w, a + b) == After(After(w, a), b)
  {
    if b == [] {
      assert a + b == a;
    } else {
      var m := |b| - 1;
      AfterBoth(w, a, b[..m]);
      assert (a + b)[..|a + b| - 1] == a + b[..m];
    }
  }

  lemma AfterOne(w: Situation, s: Step)
    requires |w.phases| == |w.accepted|
    ensures After(w, [s]) == Next(w, s)
  {
    assert [s][..0] == [] && After(w, []) == w;
  }

  /** One step opens the first gate that is shut, or starts the call that waits there. */
  lemma GateStep(w: Situation, k: nat) returns (s: Step)
    requires |w.phases| == |w.accepted| && SlotsFit(w.phases, w.slots)
    requires k < |w.slots| && TailResolved(w.slots, k) && !GateOpen(w.slots[k])
    ensures var r := Next(w, s);
            && SlotsFit(r.phases, r.slots) && |r.phases| == |w.phases| && |r.slots| == |w.slots|
            && TailResolved(r.slots, k) && (if w.slots[k].Waiting? then r.slots[k].Running? else GateOpen(r.slots[k]))
            && (forall c: nat | c < |w.phases| && SlotOf(w.phases[c]) != Some(k) :: r.phases[c] == w.phases[c])
  {
    TailMeansAllGates(w.slots, k);
    if w.slots[k].Cancelled? {
      FreeSlot(w.phases, w.slots, k, Cancelled(true));
      s := PassesOn(k);
    } else {
      var d: nat :| d < |w.phases| && SlotOf(w.phases[d]) == Some(k);
      SlotIsThere(w.phases, w.slots, d);
      if w.slots[k].Waiting? {
        OtherSlot(w.phases, w.slots, d, Acting(Some(k)), k, Running);
        s := GetsLease(d);
      } else {
        OtherSlot(w.phases, w.slots, d, Ended, k, Finished);
        s := Done(d, "");
      }
    }
    TailMeansAllGates(Next(w, s).slots, k);
  }

  /** The steps until the slot's gate is open. */
  function TurnsLeft(s: Slot): nat {
    if s.Waiting? then 2 else if GateOpen(s) then 0 else 1
  }

  /** A call that waits comes to act once those before it have had their turn. */
  lemma {:induction false} WaitingCanAct(w: Situation, c: nat, k: nat) returns (steps: seq<Step>)
    requires |w.phases| == |w.accepted| && SlotsFit(w.phases, w.slots)
    requires c < |w.phases| && w.phases[c].Queued? && k <= w.phases[c].slot < |w.slots| && TailResolved(w.slots, k)
    ensures c in After(w, steps).started
    decreases w.phases[c].slot - k, TurnsLeft(w.slots[k])
  {
    hide SlotsFit, TailResolved;
    if k == w.phases[c].slot {
      steps := [GetsLease(c)];
      AfterOne(w, GetsLease(c));
    } else if GateOpen(w.slots[k]) {
      NextGate(w.slots, k);
      steps := WaitingCanAct(w, c, k + 1);
    } else {
      var s := GateStep(w, k);
      var r := Next(w, s);
      var more := WaitingCanAct(r, c, k);
      AfterOne(w, s);
      AfterBoth(w, [s], more);
      steps := [s] + more;
    }
  }

  lemma NextGate(slots: seq<Slot>, k: nat)
    requires k < |slots| && TailResolved(slots, k) && GateOpen(slots[k])
    ensures TailResolved(slots, k + 1)
  {
  }

  /** Whatever happened so far, a call that has not acted can still come to act exactly unless it is hopeless. */
  lemma CanActUnlessHopeless(w: Situation, c: nat)
    requires |w.phases| == |w.accepted| && SlotsFit(w.phases, w.slots)
    requires c < |w.phases| && c !in w.started && !w.phases[c].Acting?
    ensures (exists steps :: c in After(w, steps).started) <==> !Hopeless(w, c)
  {
    if Hopeless(w, c) {
      forall steps ensures c !in After(w, steps).started {
        HopelessStays(w, steps, c);
      }
    } else {
      var steps := CanAct(w, c);
    }
  }

  lemma CanAct(w: Situation, c: nat) returns (steps: seq<Step>)
    requires |w.phases| == |w.accepted| && SlotsFit(w.phases, w.slots)
    requires c < |w.phases| && c !in w.started && !w.phases[c].Acting? && !Hopeless(w, c)
    ensures c in After(w, steps).started
  {
    hide SlotsFit;
    if w.phases[c].Queued? {
      SlotIsThere(w.phases, w.slots, c);
      steps := WaitingCanAct(w, c, 0);
    } else {
      var s := if w.phases[c].Preparing? then IsPrepared(c, Goes(false), true, "") else IsAnswered(c, true, true, "");
      AfterOne(w, s);
      var r := Next(w, s);
      if r.phases[c].Queued? {
        NewSlot(w.phases, w.slots, c, Queued(|w.slots|), Waiting);
        var more := WaitingCanAct(r, c, 0);
        AfterBoth(w, [s], more);
        steps := [s] + more;
      } else {
        steps := [s];
      }
    }
  }

  lemma ExpiresFits(w: Situation, id: CallId)
    requires |w.phases| == |w.accepted| && SlotsFit(w.phases, w.slots)
    ensures SlotsFit(Expires(w, id).phases, Expires(w, id).slots)
  {
    if Remembered(w.accepted, id) && w.Blocked(CallOf(w.accepted, id)) {
      var c := CallOf(w.accepted, id);
      SlotIsThere(w.phases, w.slots, c);
      OtherSlot(w.phases, w.slots, c, Ended, w.phases[c].slot, Cancelled(false));
    }
  }

  /** What a timeout under its own id makes hopeless is what it gives up. */
  lemma ExpiresMakesHopeless(w: Situation, id: CallId, c: nat)
    requires |w.phases| == |w.accepted| && Spaced(w.accepted)
    requires c < |w.phases| && w.accepted[c] == id && c !in w.started && !Hopeless(w, c)
    ensures Hopeless(Expires(w, id), c) <==> c in GivenUp(w, id)
  {
    GivenUpIsRemembered(w, id);
  }

  /**
   * A step starts the action of a call that timed out exactly when it takes the call straight
   * from being prepared, with no lease needed or the lease found free, or when the lease had
   * come to the call already.
   */
  lemma StartsThoughTimedOut(w: Situation, s: Step, c: nat)
    requires |w.phases| == |w.accepted| && c < |w.phases| && c in w.aborted && c !in w.started
    ensures c in Next(w, s).started <==>
            && Possible(w.phases, w.slots, s)
            && (s == GetsLease(c)
                || (s.IsPrepared? && s.c == c && s.prepared.Goes? && (!s.prepared.lease || (s.noticed && w.Free()))))
  {
    hide Remembered, TailResolved;
  }

  // ---- a timeout nobody notices ---------------------------------------------------------

  function NumberedId(n: nat): (id: CallId)
    ensures |id| == n
  {
    seq(n, _ => 'i')
  }

  /** The person is asked about the first call, and then n others come in. */
  function AskedThen(n: nat, lease: bool): seq<Step> {
    if n == 0 then [Arrive(NumberedId(0)), IsPrepared(0, Asks(lease), false, "")]
    else AskedThen(n - 1, lease) + [Arrive(NumberedId(n))]
  }

  function NumberedIds(n: nat): (ids: seq<CallId>)
    ensures |ids| == n && forall k | 0 <= k < n :: |ids[k]| == k
  {
    if n == 0 then [] else NumberedIds(n - 1) + [NumberedId(n - 1)]
  }

  ghost function AskedFirst(n: nat, lease: bool): Situation {
    Situation(NumberedIds(n + 1), {}, [Asking(lease)] + seq(n, _ => Preparing), [], [])
  }

  lemma AskedIs(lease: bool)
    ensures After(Nothing(), AskedThen(0, lease)) == AskedFirst(0, lease)
  {
    var steps := AskedThen(0, lease);
    assert steps[..1] == [Arrive(NumberedId(0))];
    AfterOne(Nothing(), Arrive(NumberedId(0)));
    assert NumberedIds(0) == [];
  }

  lemma OneMoreAfterIt(n: nat, lease: bool)
    requires n > 0
    ensures Next(AskedFirst(n - 1, lease), Arrive(NumberedId(n))) == AskedFirst(n, lease)
  {
    var w := AskedFirst(n - 1, lease);
    assert forall k | 0 <= k < n :: w.accepted[k] != NumberedId(n);
    assert w.phases + [Preparing] == AskedFirst(n, lease).phases;
  }

  lemma {:induction false} AskedThenIs(n: nat, lease: bool)
    ensures After(Nothing(), AskedThen(n, lease)) == AskedFirst(n, lease)
  {
    if n == 0 {
      AskedIs(lease);
    } else {
      hide AskedFirst, Next;
      AskedThenIs(n - 1, lease);
      OneMoreAfterIt(n, lease);
      var steps := AskedThen(n, lease);
      assert steps[..|steps| - 1] == AskedThen(n - 1, lease);
    }
  }

  /**
   * A call is asked about and 128 others come in. A timeout for it then changes nothing, and
   * when the person allows it, it acts.
   */
  lemma ForgottenYetActs(lease: bool, expired: Response)
    ensures var asked := After(Nothing(), AskedThen(MAX_REMEMBERED_CALLS, lease));
            && asked.phases[0] == Asking(lease) && asked.accepted[0] == NumberedId(0)
            && After(asked, [TimesOut(NumberedId(0), expired)]) == asked
            && After(asked, [TimesOut(NumberedId(0), expired), IsAnswered(0, true, true, "")]).started == [0]
  {
    AskedThenIs(MAX_REMEMBERED_CALLS, lease);
    var asked := After(Nothing(), AskedThen(MAX_REMEMBERED_CALLS, lease));
    var out, answer := TimesOut(NumberedId(0), expired), IsAnswered(0, true, true, "");
    AfterOne(asked, out);
    assert [out, answer][..1] == [out];
  }

  /**
   * A call that timed out while it was being prepared acts all the same, when it is not
   * asked about and finds the lease free.
   */
  lemma TimedOutYetActs(id: CallId, expired: Response, failure: Response)
    ensures var w := After(Nothing(), [Arrive(id), TimesOut(id, expired), IsPrepared(0, Goes(true), true, failure)]);
            w.accepted == [id] && w.started == [0] && w.phases == [Acting(Some(0))] && w.aborted == {0}
  {
    var first, second, third := Arrive(id), TimesOut(id, expired), IsPrepared(0, Goes(true), true, failure);
    assert [first, second, third][..2] == [first, second] && [first, second][..1] == [first];
    AfterOne(Nothing(), first);
    var w := Next(Nothing(), first);
    assert w == Situation([id], {}, [Preparing], [], []) && Remembered([id], id) && CallOf([id], id) == 0;
    assert w.aborted + {0} == {0};
  }
}
