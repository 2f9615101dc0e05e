/**
 * A call id runs at most once while the broker remembers it. The memory is a map in
 * insertion order, cut to the most recent 128 accepted ids; a redelivered call is answered
 * from its saved result once it has one, and left alone while it runs.
 */
module ActionBroker {
  import opened Wrappers

  type CallId = string
  type Response = string

  const MAX_REMEMBERED_CALLS := 128

  /** A call from the moment its action may start. `local`: typed here, so nothing is sent for it. */
  datatype CallRecord = CallRecord(local: bool, response: Option<Response>, aborted: bool)

  datatype Sent = Sent(call: nat, callId: CallId, content: Response)

  datatype Event =
    | Deliver(callId: CallId)
    | TypeLocally(callId: CallId)
    | Complete(call: nat, response: Response)
    | TimeOut(callId: CallId)

  /** What `runLocal` answers. */
  datatype LocalAnswer = Saved(response: Response) | AlreadyRunning | Accepted(call: nat)

  /** The first call still remembered among n accepted ones. */
  function Oldest(n: nat): nat {
    if n <= MAX_REMEMBERED_CALLS then 0 else n - MAX_REMEMBERED_CALLS
  }

  /** Two starts of the same id are more than 128 acceptances apart. */
  ghost predicate Spaced(accepted: seq<CallId>) {
    forall i, j | 0 <= i < j < |accepted| && accepted[i] == accepted[j] :: j - i > MAX_REMEMBERED_CALLS
  }

  lemma SpacedExtends(accepted: seq<CallId>, id: CallId)
    requires Spaced(accepted) && forall k | Oldest(|accepted|) <= k < |accepted| :: accepted[k] != id
    ensures Spaced(accepted + [id])
  {
    var after := accepted + [id];
    forall i, j | 0 <= i < j < |after| && after[i] == after[j] ensures j - i > MAX_REMEMBERED_CALLS {
      if j == |accepted| { assert i < Oldest(|accepted|); }
    }
  }

  ghost function IdsBetween(accepted: seq<CallId>, lo: nat, hi: nat): set<CallId>
    requires lo <= hi <= |accepted|
  {
    set k | lo <= k < hi :: accepted[k]
  }

  lemma OneMoreId(accepted: seq<CallId>, lo: nat, hi: nat)
    requires Spaced(accepted) && lo < hi <= |accepted| && hi - lo <= MAX_REMEMBERED_CALLS + 1
    ensures IdsBetween(accepted, lo, hi) == IdsBetween(accepted, lo, hi - 1) + {accepted[hi - 1]}
    ensures accepted[hi - 1] !in IdsBetween(accepted, lo, hi - 1)
  {
  }

  lemma {:induction false} DistinctIds(accepted: seq<CallId>, lo: nat, hi: nat)
    requires Spaced(accepted) && lo <= hi <= |accepted| && hi - lo <= MAX_REMEMBERED_CALLS + 1
    ensures |IdsBetween(accepted, lo, hi)| == hi - lo
  {
    if lo < hi {
      hide IdsBetween, Spaced;
      DistinctIds(accepted, lo, hi - 1);
      OneMoreId(accepted, lo, hi);
    } else {
      assert IdsBetween(accepted, lo, hi) == {};
    }
  }

  lemma SubsetSize(a: set<CallId>, b: set<CallId>)
    requires a <= b
    ensures |a| <= |b|
  {
    assert b == a + (b - a);
  }

  /** An id starts again only after at least 128 distinct other ids were accepted in between. */
  lemma RestartNeedsNewerIds(accepted: seq<CallId>, i: nat, j: nat)
    requires Spaced(accepted) && i < j < |accepted| && accepted[i] == accepted[j]
    ensures |IdsBetween(accepted, i + 1, j) - {accepted[i]}| >= 128
  {
    var window := IdsBetween(accepted, i + 1, i + 1 + MAX_REMEMBERED_CALLS);
    DistinctIds(accepted, i + 1, i + 1 + MAX_REMEMBERED_CALLS);
    assert accepted[i] !in window;
    SubsetSize(window, IdsBetween(accepted, i + 1, j) - {accepted[i]});
  }

  // ---- what a history of events says about its calls -------------------------------------

  /** The ids accepted, in order: an id begins a call unless it is among the 128 remembered. */
  ghost function AcceptedIn(h: seq<Event>): seq<CallId> {
    if h == [] then []
    else
      var earlier, e := AcceptedIn(h[..|h| - 1]), h[|h| - 1];
      if Arrives(e) && !Remembered(earlier, e.callId) then earlier + [e.callId] else earlier
  }

  predicate Arrives(e: Event) {
    e.Deliver? || e.TypeLocally?
  }

  predicate Remembered(accepted: seq<CallId>, id: CallId) {
    id in accepted[Oldest(|accepted|)..]
  }

  /** Was call c typed here? The event that began it says so. */
  ghost predicate TypedHere(h: seq<Event>, c: nat)
    requires c < |AcceptedIn(h)|
  {
    var earlier := h[..|h| - 1];
    if c < |AcceptedIn(earlier)| then TypedHere(earlier, c) else h[|h| - 1].TypeLocally?
  }

  /** How call c ended: its first completion after it began, if any. */
  ghost function Outcome(h: seq<Event>, c: nat): Option<Response> {
    if h == [] then None
    else
      var earlier, e := h[..|h| - 1], h[|h| - 1];
      if Outcome(earlier, c).Some? then Outcome(earlier, c)
      else if e.Complete? && e.call == c && c < |AcceptedIn(earlier)| then Some(e.response)
      else None
  }

  /** Event n delivers again the id of call c, still remembered as that call, after the call completed. */
  ghost predicate AnsweredAgain(h: seq<Event>, n: nat, c: nat)
    requires n < |h|
  {
    var accepted := AcceptedIn(h[..n]);
    && h[n].Deliver?
    && Oldest(|accepted|) <= c < |accepted| && accepted[c] == h[n].callId
    && Outcome(h[..n], c).Some?
  }

  /** The redeliveries of call c after it completed. */
  ghost function Redeliveries(h: seq<Event>, c: nat): set<nat> {
    set n: nat | n < |h| && AnsweredAgain(h, n, c)
  }

  /** The responses call c has coming: one for its completion, unless typed here, and one per later redelivery. */
  ghost function Owed(h: seq<Event>, c: nat): nat
    requires c < |AcceptedIn(h)|
  {
    (if Outcome(h, c).Some? && !TypedHere(h, c) then 1 else 0) + |Redeliveries(h, c)|
  }

  lemma RedeliveriesAfter(h: seq<Event>, e: Event, c: nat)
    ensures Redeliveries(h + [e], c) ==
            Redeliveries(h, c) + if AnsweredAgain(h + [e], |h|, c) then {|h|} else {}
  {
    var after := h + [e];
    forall n: nat | n < |h| ensures AnsweredAgain(after, n, c) <==> AnsweredAgain(h, n, c) {
      assert after[..n] == h[..n];
    }
  }

  lemma HistoryStep(h: seq<Event>, e: Event)
    ensures var accepted := AcceptedIn(h);
            AcceptedIn(h + [e]) == if Arrives(e) && !Remembered(accepted, e.callId) then accepted + [e.callId] else accepted
  {
    assert (h + [e])[..|h|] == h;
  }

  /** Nothing is said of a call that has not begun. */
  lemma {:induction false} BeforeTheCall(h: seq<Event>, c: nat)
    requires c >= |AcceptedIn(h)|
    ensures Outcome(h, c).None? && Redeliveries(h, c) == {}
  {
    if h != [] {
      var earlier := h[..|h| - 1];
      BeforeTheCall(earlier, c);
      assert h == earlier + [h[|h| - 1]];
      RedeliveriesAfter(earlier, h[|h| - 1], c);
    }
  }

  /** How one more event changes what a call that had begun has coming. */
  lemma OwedStep(h: seq<Event>, e: Event, c: nat)
    requires c < |AcceptedIn(h)|
    ensures c < |AcceptedIn(h + [e])| && TypedHere(h + [e], c) == TypedHere(h, c)
    ensures Outcome(h + [e], c) == if Outcome(h, c).None? && e.Complete? && e.call == c then Some(e.response) else Outcome(h, c)
    ensures var accepted := AcceptedIn(h);
            var again := e.Deliver? && Oldest(|accepted|) <= c && accepted[c] == e.callId && Outcome(h, c).Some?;
            Owed(h + [e], c) == Owed(h, c) + (if again then 1 else 0)
                                + if Outcome(h, c).None? && e.Complete? && e.call == c && !TypedHere(h, c) then 1 else 0
  {
    HistoryStep(h, e);
    assert (h + [e])[..|h|] == h;
    RedeliveriesAfter(h, e, c);
    assert |h| !in Redeliveries(h, c);
  }

  /** A call that begins has nothing coming yet. */
  lemma OwedAtFirst(h: seq<Event>, e: Event)
    requires Arrives(e) && !Remembered(AcceptedIn(h), e.callId)
    ensures var c := |AcceptedIn(h)|;
            && |AcceptedIn(h + [e])| == c + 1
            && Outcome(h + [e], c).None? && TypedHere(h + [e], c) == e.TypeLocally? && Owed(h + [e], c) == 0
  {
    var c := |AcceptedIn(h)|;
    HistoryStep(h, e);
    assert (h + [e])[..|h|] == h;
    BeforeTheCall(h, c);
    RedeliveriesAfter(h, e, c);
  }

  ghost function CountFor(sent: seq<Sent>, call: nat): nat {
    if sent == [] then 0
    else CountFor(sent[..|sent| - 1], call) + if sent[|sent| - 1].call == call then 1 else 0
  }

  lemma {:induction false} NoneBeyond(sent: seq<Sent>, n: nat)
    requires forall s | s in sent :: s.call < n
    ensures CountFor(sent, n) == 0
  {
    if sent != [] { NoneBeyond(sent[..|sent| - 1], n); }
  }

  lemma OneMoreSent(sent: seq<Sent>, s: Sent)
    ensures forall c :: CountFor(sent + [s], c) == CountFor(sent, c) + if c == s.call then 1 else 0
  {
    assert (sent + [s])[..|sent|] == sent;
  }

  /** The records are what the history says of each call. */
  ghost predicate RecordsTell(h: seq<Event>, accepted: seq<CallId>, records: seq<CallRecord>) {
    && accepted == AcceptedIn(h) && |records| == |accepted|
    && forall c: nat | c < |accepted| :: records[c].local == TypedHere(h, c) && records[c].response == Outcome(h, c)
  }

  /** What was sent for each call is what it has coming, and always its outcome. */
  ghost predicate SentAsOwed(h: seq<Event>, accepted: seq<CallId>, sent: seq<Sent>) {
    && accepted == AcceptedIn(h)
    && (forall s | s in sent ::
          s.call < |accepted| && accepted[s.call] == s.callId && Outcome(h, s.call) == Some(s.content))
    && (forall c: nat | c < |accepted| :: CountFor(sent, c) == Owed(h, c))
  }

  /** What the event makes the broker send. */
  ghost function Sends(h: seq<Event>, accepted: seq<CallId>, e: Event): seq<Sent>
    requires accepted == AcceptedIn(h)
  {
    match e
    case Deliver(id) =>
      if Remembered(accepted, id) && Outcome(h, CallOf(accepted, id)).Some?
      then [Sent(CallOf(accepted, id), id, Outcome(h, CallOf(accepted, id)).value)] else []
    case Complete(c, r) =>
      if c < |accepted| && Outcome(h, c).None? && !TypedHere(h, c) then [Sent(c, accepted[c], r)] else []
    case _ => []
  }

  /** The remembered call of an id: the latest accepted under it. */
  ghost function CallOf(accepted: seq<CallId>, id: CallId): (c: nat)
    requires Remembered(accepted, id)
    ensures Oldest(|accepted|) <= c < |accepted| && accepted[c] == id
  {
    var first := Oldest(|accepted|);
    var k :| 0 <= k < |accepted| - first && accepted[first..][k] == id;
    first + k
  }

  lemma OneRememberedCall(accepted: seq<CallId>, id: CallId, c: nat)
    requires Spaced(accepted) && Remembered(accepted, id)
    requires Oldest(|accepted|) <= c < |accepted| && accepted[c] == id
    ensures c == CallOf(accepted, id)
  {
    var d := CallOf(accepted, id);
    assert c < d ==> d - c <= MAX_REMEMBERED_CALLS;
    assert d < c ==> c - d <= MAX_REMEMBERED_CALLS;
  }

  /** What is sent is for a call that has begun, tells its outcome, and is exactly what comes to be owed. */
  lemma SendsAreOwed(h: seq<Event>, accepted: seq<CallId>, e: Event, c: nat)
    requires accepted == AcceptedIn(h) && Spaced(accepted) && c < |accepted|
    ensures var more := Sends(h, accepted, e);
            Owed(h + [e], c) == Owed(h, c) + if |more| == 1 && more[0].call == c then 1 else 0
  {
    OwedStep(h, e, c);
    if e.Deliver? && Remembered(accepted, e.callId) && Oldest(|accepted|) <= c && accepted[c] == e.callId {
      OneRememberedCall(accepted, e.callId, c);
    }
  }

  lemma SendsTell(h: seq<Event>, accepted: seq<CallId>, e: Event)
    requires accepted == AcceptedIn(h)
    ensures var more := Sends(h, accepted, e);
            && |more| <= 1
            && (more != [] ==>
                  && more[0].call < |accepted| && accepted[more[0].call] == more[0].callId
                  && Outcome(h + [e], more[0].call) == Some(more[0].content)
                  && |AcceptedIn(h + [e])| == |accepted|)
  {
    var more := Sends(h, accepted, e);
    HistoryStep(h, e);
    if more != [] { OwedStep(h, e, more[0].call); }
  }

  lemma OutcomesStay(h: seq<Event>, e: Event, s: Sent)
    requires s.call < |AcceptedIn(h)| && Outcome(h, s.call) == Some(s.content)
    ensures Outcome(h + [e], s.call) == Some(s.content)
  {
    OwedStep(h, e, s.call);
  }

  lemma CountsKeep(h: seq<Event>, accepted: seq<CallId>, sent: seq<Sent>, e: Event, c: nat)
    requires SentAsOwed(h, accepted, sent) && Spaced(accepted) && c < |AcceptedIn(h + [e])|
    ensures CountFor(sent + Sends(h, accepted, e), c) == Owed(h + [e], c)
  {
    HistoryStep(h, e);
    SendsTell(h, accepted, e);
    NoneBeyond(sent, |accepted|);
    CountsAdd(sent, Sends(h, accepted, e));
    hide Sends, Owed, Outcome, AcceptedIn, Spaced, CountFor, Remembered;
    if c < |accepted| { SendsAreOwed(h, accepted, e, c); } else { OwedAtFirst(h, e); }
  }

  /** Sending just that keeps every account. */
  lemma SendsKeepAccounts(h: seq<Event>, accepted: seq<CallId>, sent: seq<Sent>, e: Event)
    requires SentAsOwed(h, accepted, sent) && Spaced(accepted)
    ensures SentAsOwed(h + [e], AcceptedIn(h + [e]), sent + Sends(h, accepted, e))
  {
    var more, now := Sends(h, accepted, e), AcceptedIn(h + [e]);
    HistoryStep(h, e);
    SendsTell(h, accepted, e);
    hide Sends, Owed, Outcome, AcceptedIn, Spaced, CountFor, Remembered;
    forall c: nat | c < |now| ensures CountFor(sent + more, c) == Owed(h + [e], c) {
      CountsKeep(h, accepted, sent, e, c);
    }
    forall s | s in sent + more
      ensures s.call < |now| && now[s.call] == s.callId && Outcome(h + [e], s.call) == Some(s.content)
    {
      if s in sent { OutcomesStay(h, e, s); }
    }
  }

  lemma CountsAdd(sent: seq<Sent>, more: seq<Sent>)
    requires |more| <= 1
    ensures forall c :: CountFor(sent + more, c) == CountFor(sent, c) + if |more| == 1 && more[0].call == c then 1 else 0
  {
    if more == [] {
      assert sent + more == sent;
    } else {
      assert more == [more[0]];
      OneMoreSent(sent, more[0]);
    }
  }

  /** The records after one more event. */
  ghost function RecordsAfter(accepted: seq<CallId>, records: seq<CallRecord>, e: Event): seq<CallRecord> {
    if Arrives(e) && !Remembered(accepted, e.callId) then records + [CallRecord(e.TypeLocally?, None, false)]
    else if e.Complete? && e.call < |records| && records[e.call].response.None?
    then records[e.call := records[e.call].(response := Some(e.response))]
    else records
  }

  lemma RecordsKeepTelling(h: seq<Event>, accepted: seq<CallId>, records: seq<CallRecord>, e: Event)
    requires RecordsTell(h, accepted, records)
    ensures RecordsTell(h + [e], AcceptedIn(h + [e]), RecordsAfter(accepted, records, e))
  {
    var now, after := AcceptedIn(h + [e]), RecordsAfter(accepted, records, e);
    HistoryStep(h, e);
    hide AcceptedIn, Outcome, TypedHere, Owed, Remembered;
    forall c: nat | c < |now|
      ensures after[c].local == TypedHere(h + [e], c) && after[c].response == Outcome(h + [e], c)
    {
      if c < |accepted| { OwedStep(h, e, c); } else { OwedAtFirst(h, e); }
    }
  }

  lemma AbortTellsNothing(h: seq<Event>, accepted: seq<CallId>, records: seq<CallRecord>, c: nat)
    requires RecordsTell(h, accepted, records) && c < |records|
    ensures RecordsTell(h, accepted, records[c := records[c].(aborted := true)])
  {
    hide Outcome, TypedHere, AcceptedIn;
  }

  class Broker {
    /** The map's keys in insertion order, and the call each key remembers. */
    var order: seq<CallId>
    var calls: map<CallId, nat>
    var records: seq<CallRecord>
    var sent: seq<Sent>
    /** The id each call was accepted under; the coroutine that runs the call keeps it. */
    var accepted: seq<CallId>
    /** Everything that happened. */
    ghost var history: seq<Event>

    constructor ()
      ensures Valid() && records == [] && sent == [] && accepted == [] && history == []
    {
      order, calls, records, sent, accepted, history := [], map[], [], [], [], [];
    }

    /** The memory is exactly the last 128 accepted ids. */
    ghost predicate Remembers()
      reads this`order, this`calls, this`accepted
    {
      var first := if |accepted| <= 128 then 0 else |accepted| - 128;
      && order == accepted[first..]
      && (forall id | id in calls :: first <= calls[id] < |accepted| && accepted[calls[id]] == id)
      && (forall k | first <= k < |accepted| :: accepted[k] in calls && calls[accepted[k]] == k)
    }

    ghost predicate Answers()
      reads this`history, this`accepted, this`records, this`sent
    {
      RecordsTell(history, accepted, records) && SentAsOwed(history, accepted, sent)
    }

    ghost predicate Valid()
      reads this
    {
      Remembers() && Spaced(accepted) && Answers()
    }

    /** The map remembers an id exactly when it is among the last 128, as its latest call. */
    lemma MapIsMemory(id: CallId)
      requires Remembers() && Spaced(accepted)
      ensures id in calls <==> Remembered(accepted, id)
      ensures id in calls ==> calls[id] == CallOf(accepted, id)
    {
      var first := Oldest(|accepted|);
      if id in calls { assert accepted[first..][calls[id] - first] == id; }
      if Remembered(accepted, id) { OneRememberedCall(accepted, id, calls[id]); }
    }

    /** Remember a new call, and forget the oldest ones beyond the limit. */
    method Remember(callId: CallId, local: bool)
      requires Valid() && callId !in calls
      modifies this`order, this`calls, this`records, this`accepted, this`history
      ensures Valid()
      ensures accepted == old(accepted) + [callId]
      ensures records == old(records) + [CallRecord(local, None, false)]
      ensures history == old(history) + [Begins(callId, local)]
    {
      hide RecordsTell, SentAsOwed, Spaced;
      ghost var first := Oldest(|accepted|);
      NewCall(callId, local);
      history := history + [Begins(callId, local)];
      records := records + [CallRecord(local, None, false)];
      Insert(callId, first);
    }

    ghost function Begins(callId: CallId, local: bool): Event {
      if local then TypeLocally(callId) else Deliver(callId)
    }

    lemma NewCall(callId: CallId, local: bool)
      requires Valid() && callId !in calls
      ensures Spaced(accepted + [callId])
      ensures RecordsTell(history + [Begins(callId, local)], accepted + [callId], records + [CallRecord(local, None, false)])
      ensures SentAsOwed(history + [Begins(callId, local)], accepted + [callId], sent)
    {
      hide RecordsTell, SentAsOwed;
      assert forall k | Oldest(|accepted|) <= k < |accepted| :: accepted[k] != callId;
      MapIsMemory(callId);
      SpacedExtends(accepted, callId);
      Account(Begins(callId, local));
      assert sent + [] == sent;
    }

    /** What one more event asks for keeps the accounts. */
    lemma Account(e: Event)
      requires Answers() && Spaced(accepted)
      ensures RecordsTell(history + [e], AcceptedIn(history + [e]), RecordsAfter(accepted, records, e))
      ensures SentAsOwed(history + [e], AcceptedIn(history + [e]), sent + Sends(history, accepted, e))
      ensures AcceptedIn(history + [e]) == if Arrives(e) && !Remembered(accepted, e.callId) then accepted + [e.callId] else accepted
      ensures forall c: nat | c < |accepted| :: records[c].local == TypedHere(history, c) && records[c].response == Outcome(history, c)
    {
      RecordsKeepTelling(history, accepted, records, e);
      SendsKeepAccounts(history, accepted, sent, e);
      HistoryStep(history, e);
    }

    /** What delivering a remembered id sends, and that it records nothing. */
    lemma Redelivered(callId: CallId)
      requires Answers() && Remembers() && Spaced(accepted) && callId in calls
      ensures Remembered(accepted, callId) && calls[callId] == CallOf(accepted, callId) < |records|
      ensures var record := records[calls[callId]];
              Sends(history, accepted, Deliver(callId)) ==
                if record.response.Some? then [Sent(calls[callId], callId, record.response.value)] else []
      ensures RecordsAfter(accepted, records, Deliver(callId)) == records
    {
      MapIsMemory(callId);
    }

    /** Typing a remembered command again sends and records nothing. */
    lemma TypedAgain(callId: CallId)
      requires Answers() && Remembers() && Spaced(accepted) && callId in calls
      ensures Remembered(accepted, callId) && calls[callId] == CallOf(accepted, callId) < |records|
      ensures Sends(history, accepted, TypeLocally(callId)) == []
      ensures RecordsAfter(accepted, records, TypeLocally(callId)) == records
    {
      MapIsMemory(callId);
    }

    method Insert(callId: CallId, ghost first: nat)
      requires first == Oldest(|accepted|) && Remembers() && callId !in calls
      modifies this`order, this`calls, this`accepted
      ensures Remembers() && accepted == old(accepted) + [callId]
    {
      accepted := accepted + [callId];
      calls := calls[callId := |accepted| - 1];
      order := order + [callId];
      Forget(first);
    }

    method Forget(ghost first: nat)
      requires first <= Oldest(|accepted|)
      requires order == accepted[first..]
      requires forall id | id in calls :: first <= calls[id] < |accepted| && accepted[calls[id]] == id
      requires forall k | first <= k < |accepted| :: accepted[k] in calls && calls[accepted[k]] == k
      modifies this`order, this`calls
      ensures Remembers()
    {
      ghost var dropped: nat := first;
      while |order| > MAX_REMEMBERED_CALLS
        invariant dropped <= Oldest(|accepted|) && order == accepted[dropped..]
        invariant forall id | id in calls :: dropped <= calls[id] < |accepted| && accepted[calls[id]] == id
        invariant forall k | dropped <= k < |accepted| :: accepted[k] in calls && calls[accepted[k]] == k
      {
        calls := calls - {order[0]};
        order := order[1..];
        dropped := dropped + 1;
      }
    }

    /** A `tool.call` from the runtime: it begins a call, or is answered from the call's result, or is left alone. */
    method Dispatch(callId: CallId)
      requires Valid()
      modifies this
      ensures Valid() && history == old(history) + [Deliver(callId)]
      ensures if Remembered(old(accepted), callId)
              then accepted == old(accepted) && records == old(records)
              else accepted == old(accepted) + [callId] && records == old(records) + [CallRecord(false, None, false)]
      ensures sent == old(sent) +
                if Remembered(old(accepted), callId) && old(records)[CallOf(old(accepted), callId)].response.Some?
                then [Sent(CallOf(old(accepted), callId), callId, old(records)[CallOf(old(accepted), callId)].response.value)]
                else []
    {
      hide RecordsTell, SentAsOwed, Spaced, Sends, RecordsAfter, Remembered, CallOf;
      MapIsMemory(callId);
      if callId in calls {
        Redelivered(callId);
        var c := calls[callId];
        Account(Deliver(callId));
        if records[c].response.Some? { sent := sent + [Sent(c, callId, records[c].response.value)]; }
        assert old(sent) + [] == old(sent);
        history := history + [Deliver(callId)];
        return;
      }
      Remember(callId, false);
    }

    /** A command parsed from the person's typed words. */
    method RunLocal(callId: CallId) returns (answer: LocalAnswer)
      requires Valid()
      modifies this
      ensures Valid() && sent == old(sent) && history == old(history) + [TypeLocally(callId)]
      ensures answer == if !Remembered(old(accepted), callId) then Accepted(|old(records)|)
                        else match old(records)[CallOf(old(accepted), callId)].response
                             case Some(r) => Saved(r)
                             case None => AlreadyRunning
      ensures if answer.Accepted?
              then accepted == old(accepted) + [callId] && records == old(records) + [CallRecord(true, None, false)]
              else accepted == old(accepted) && records == old(records)
    {
      hide RecordsTell, SentAsOwed, Spaced, Sends, RecordsAfter, Remembered, CallOf;
      MapIsMemory(callId);
      if callId in calls {
        Account(TypeLocally(callId));
        TypedAgain(callId);
        assert sent + [] == sent;
        history := history + [TypeLocally(callId)];
        match records[calls[callId]].response
        case Some(r) => return Saved(r);
        case None => return AlreadyRunning;
      }
      Remember(callId, true);
      return Accepted(|records| - 1);
    }

    /** A call's action ended, well or badly; its id may have been forgotten meanwhile. */
    method Complete(call: nat, response: Response)
      requires Valid()
      requires call < |records| && records[call].response.None?
      modifies this`records, this`sent, this`history
      ensures Valid() && history == old(history) + [Event.Complete(call, response)]
      ensures records == old(records)[call := old(records[call]).(response := Some(response))]
      ensures sent == old(sent) + if old(records[call]).local then [] else [Sent(call, accepted[call], response)]
    {
      hide RecordsTell, SentAsOwed, Spaced;
      Account(Event.Complete(call, response));
      records := records[call := records[call].(response := Some(response))];
      if !records[call].local { sent := sent + [Sent(call, accepted[call], response)]; }
      assert old(sent) + [] == old(sent);
      history := history + [Event.Complete(call, response)];
    }

    /** `tool.timeout`: stop waiting on the person for a remembered call. */
    method TimeOut(callId: CallId)
      requires Valid()
      modifies this`records, this`history
      ensures Valid() && history == old(history) + [Event.TimeOut(callId)]
      ensures records == if Remembered(accepted, callId)
                         then old(records)[CallOf(accepted, callId) := old(records[CallOf(accepted, callId)]).(aborted := true)]
                         else old(records)
    {
      hide RecordsTell, SentAsOwed, Spaced, Remembered, CallOf;
      MapIsMemory(callId);
      Account(Event.TimeOut(callId));
      assert sent + [] == sent;
      history := history + [Event.TimeOut(callId)];
      if callId in calls {
        AbortTellsNothing(history, accepted, records, calls[callId]);
        records := records[calls[callId] := records[calls[callId]].(aborted := true)];
      }
    }

    /** A completion of a call that is not running changes nothing. */
    ghost method Ignore(call: nat, response: Response)
      requires Valid() && !(call < |records| && records[call].response.None?)
      modifies this`history
      ensures Valid() && history == old(history) + [Event.Complete(call, response)]
    {
      hide RecordsTell, SentAsOwed, Spaced;
      Account(Event.Complete(call, response));
      assert sent + [] == sent;
      history := history + [Event.Complete(call, response)];
    }

    /**
     * Any mix of deliveries, redeliveries, typed commands, completions and timeouts: between
     * two starts of an id at least 128 newer ids came in; all responses for a call are its
     * outcome, and they number one for its completion plus one for every redelivery after it.
     */
    method Run(events: seq<Event>)
      requires Valid() && history == []
      modifies this
      ensures Valid() && accepted == AcceptedIn(events)
      ensures forall i, j | 0 <= i < j < |accepted| && accepted[i] == accepted[j] ::
                |IdsBetween(accepted, i + 1, j) - {accepted[i]}| >= MAX_REMEMBERED_CALLS
      ensures forall s | s in sent :: s.call < |accepted| && Outcome(events, s.call) == Some(s.content) && s.callId == accepted[s.call]
      ensures forall c: nat | c < |accepted| :: CountFor(sent, c) == Owed(events, c)
    {
      for k := 0 to |events|
        invariant Valid() && history == events[..k]
      {
        assert events[..k + 1] == events[..k] + [events[k]];
        match events[k]
        case Deliver(callId) => Dispatch(callId);
        case TypeLocally(callId) => var answer := RunLocal(callId);
        case Complete(call, response) =>
          if call < |records| && records[call].response.None? { Complete(call, response); } else { Ignore(call, response); }
        case TimeOut(callId) => TimeOut(callId);
      }
      assert events[..|events|] == events;
      forall i, j | 0 <= i < j < |accepted| && accepted[i] == accepted[j]
        ensures |IdsBetween(accepted, i + 1, j) - {accepted[i]}| >= MAX_REMEMBERED_CALLS
      {
        RestartNeedsNewerIds(accepted, i, j);
      }
    }
  }

  /** While a call runs, delivering its id again adds nothing to what it has coming. */
  lemma NothingWhileItRuns(h: seq<Event>, id: CallId, c: nat)
    requires c < |AcceptedIn(h)| && Outcome(h, c).None? && AcceptedIn(h)[c] == id
    requires Oldest(|AcceptedIn(h)|) <= c
    ensures AcceptedIn(h + [Deliver(id)]) == AcceptedIn(h) && Owed(h + [Deliver(id)], c) == Owed(h, c) == 0
  {
    HistoryStep(h, Deliver(id));
    assert AcceptedIn(h)[Oldest(|AcceptedIn(h)|)..][c - Oldest(|AcceptedIn(h)|)] == id;
    OwedStep(h, Deliver(id), c);
    NotAnsweredBefore(h, c);
  }

  lemma {:induction false} NotAnsweredBefore(h: seq<Event>, c: nat)
    requires Outcome(h, c).None?
    ensures Redeliveries(h, c) == {}
  {
    if h != [] {
      var earlier := h[..|h| - 1];
      NotAnsweredBefore(earlier, c);
      assert h == earlier + [h[|h| - 1]];
      RedeliveriesAfter(earlier, h[|h| - 1], c);
    }
  }
}
