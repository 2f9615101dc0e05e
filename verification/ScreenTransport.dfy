/**
 * The screen socket and its bounded reconnect: at most one socket whose closing is still
 * listened to, at most one pending timer, and a bounded number of reconnects in an outage.
 */
module ScreenTransport {
  import opened Wrappers

  const RECONNECT_DELAYS_MS: seq<nat> := [500, 1000, 2000, 5000]
  const RECONNECT_BUDGET_MS: nat := 60_000
  const REFUSED := 1008

  /** The delay before one more attempt; the last delay repeats. */
  function Delay(attempt: nat, delays: seq<nat>): nat
    requires delays != []
  {
    delays[if attempt < |delays| then attempt else |delays| - 1]
  }

  /** How long to wait before an attempt, or nothing when the budget is spent. */
  function ReconnectDelayMs(attempt: int, startedAtMs: nat, nowMs: nat, delays: seq<nat>, budgetMs: nat): (r: Option<nat>)
    ensures r.Some? ==> attempt >= 0 && delays != [] && nowMs <= startedAtMs + budgetMs && r.value == Delay(attempt, delays)
  {
    if attempt < 0 || delays == [] || nowMs - startedAtMs > budgetMs then None else Some(Delay(attempt, delays))
  }

  /** What n attempts wait in all, the first of them being attempt a. */
  function Waits(a: nat, n: nat, delays: seq<nat>): nat
    requires delays != []
  {
    if n == 0 then 0 else Waits(a, n - 1, delays) + Delay(a + n - 1, delays)
  }

  /** With the default delays, 15 waits are longer than the budget, whatever attempts went before. */
  lemma FifteenWaitsAreTooLong(a: nat, n: nat)
    requires n >= 15
    ensures Waits(a, n, RECONNECT_DELAYS_MS) > RECONNECT_BUDGET_MS
  {
    WaitsAtLeast(a, n);
  }

  lemma {:induction false} WaitsAtLeast(a: nat, n: nat)
    ensures Waits(a, n, RECONNECT_DELAYS_MS) >= (if n <= 3 then [0, 500, 1500, 3500][n] else 3500 + 5000 * (n - 3))
  {
    if n > 0 { WaitsAtLeast(a, n - 1); }
  }

  datatype SocketState = Connecting | Open | Closing | Closed

  /** A socket, and whether its closing is still listened to. */
  datatype Socket = Socket(state: SocketState, listened: bool)

  /** The token field of a channel config. */
  datatype TokenField = Absent | Null | Token(text: string)

  /** What a client of the transport could count. */
  datatype Note = Applied | ConnectCalled | Opened | Scheduled(attempt: nat, delayMs: nat) | Exhausted | Rejected

  predicate BeginsAnew(n: Note) {
    n.Applied? || n.ConnectCalled? || n.Opened?
  }

  /** Reconnects scheduled since the last successful open, channel config or connect call. */
  function Reconnects(log: seq<Note>): nat {
    if log == [] || BeginsAnew(log[|log| - 1]) then 0
    else Reconnects(log[..|log| - 1]) + if log[|log| - 1].Scheduled? then 1 else 0
  }

  lemma ReconnectsAppend(log: seq<Note>, n: Note)
    ensures Reconnects(log + [n]) == if BeginsAnew(n) then 0 else Reconnects(log) + if n.Scheduled? then 1 else 0
  {
    assert (log + [n])[..|log|] == log;
  }

  /** The outage so far: when each reconnect could be scheduled at the earliest. `count` of them, the last at lastAt. */
  ghost predicate Paced(count: nat, attempt: nat, startedAt: nat, lastAt: nat, delays: seq<nat>, budget: nat) {
    count > 0 ==>
      && delays != [] && startedAt > 0 && count <= attempt
      && startedAt + Waits(attempt - count, count - 1, delays) <= lastAt <= startedAt + budget
  }

  lemma OneMorePaced(count: nat, attempt: nat, startedAt: nat, lastAt: nat, now: nat, delays: seq<nat>, budget: nat)
    requires Paced(count, attempt, startedAt, lastAt, delays, budget) && count <= attempt
    requires delays != [] && 0 < startedAt <= now <= startedAt + budget
    requires count > 0 ==> now >= lastAt + Delay(attempt - 1, delays)
    ensures Paced(count + 1, attempt + 1, startedAt, now, delays, budget)
  {
  }

  /** Its close event will still be acted on. */
  predicate Live(sockets: map<nat, Socket>, id: nat) {
    id in sockets && sockets[id].listened && sockets[id].state != Closed
  }

  predicate IsLive(ws: Option<nat>, sockets: map<nat, Socket>) {
    ws.Some? && Live(sockets, ws.value)
  }

  /** Sockets and timers: one of each at most, never both at once, and neither once nothing is wanted. */
  ghost predicate OneTransport(ws: Option<nat>, sockets: map<nat, Socket>, timer: Option<nat>, timers: map<nat, nat>,
                               made: nat, wantOpen: bool) {
    && (forall id | id in sockets :: id < made) && (forall t | t in timers :: t < made)
    && (ws.Some? ==> ws.value in sockets)
    && (forall id: nat | Live(sockets, id) :: ws == Some(id))
    && (forall t :: t in timers <==> timer == Some(t))
    && (timer.Some? ==> !IsLive(ws, sockets))
    && (!wantOpen ==> !IsLive(ws, sockets) && timer.None?)
  }

  function Due(timer: Option<nat>, timers: map<nat, nat>): Option<nat> {
    if timer.Some? && timer.value in timers then Some(timers[timer.value]) else None
  }

  /** The outage: every scheduled reconnect waited for, each only after the one before was due. */
  ghost predicate InBudget(log: seq<Note>, attempt: nat, startedAt: nat, lastAt: nat, now: nat, due: Option<nat>, live: bool,
                           delays: seq<nat>, budget: nat) {
    var count := Reconnects(log);
    && count <= attempt
    && Paced(count, attempt, startedAt, lastAt, delays, budget)
    && lastAt <= now && startedAt <= now && now > 0
    && (count > 0 ==>
          && (due.Some? ==> due.value >= lastAt + Delay(attempt - 1, delays))
          && (due.None? && live ==> now >= lastAt + Delay(attempt - 1, delays)))
  }

  lemma BudgetAnew(log: seq<Note>, note: Note, attempt: nat, startedAt: nat, lastAt: nat, now: nat,
                   due: Option<nat>, live: bool, delays: seq<nat>, budget: nat)
    requires BeginsAnew(note) && lastAt <= now && startedAt <= now && now > 0
    ensures InBudget(log + [note], attempt, startedAt, lastAt, now, due, live, delays, budget)
  {
    ReconnectsAppend(log, note);
  }

  lemma BudgetNoted(log: seq<Note>, note: Note, attempt: nat, startedAt: nat, lastAt: nat, now: nat,
                    due: Option<nat>, live: bool, delays: seq<nat>, budget: nat)
    requires InBudget(log, attempt, startedAt, lastAt, now, due, live, delays, budget)
    requires !BeginsAnew(note) && !note.Scheduled?
    ensures InBudget(log + [note], attempt, startedAt, lastAt, now, due, live, delays, budget)
  {
    ReconnectsAppend(log, note);
  }

  /** A close that is acted on comes after the last reconnect was due, so one more fits the pace. */
  lemma BudgetScheduled(log: seq<Note>, attempt: nat, startedAt: nat, lastAt: nat, now: nat, began: nat, delay: nat,
                        delays: seq<nat>, budget: nat)
    requires InBudget(log, attempt, startedAt, lastAt, now, None, true, delays, budget)
    requires began == if startedAt == 0 then now else startedAt
    requires ReconnectDelayMs(attempt, began, now, delays, budget) == Some(delay)
    ensures InBudget(log + [Scheduled(attempt + 1, delay)], attempt + 1, began, now, now, Some(now + delay), false, delays, budget)
  {
    ReconnectsAppend(log, Scheduled(attempt + 1, delay));
    OneMorePaced(Reconnects(log), attempt, began, lastAt, now, delays, budget);
  }

  /** At no point from `start` on were more reconnects scheduled in an outage. */
  ghost predicate AtMostAlong(log: seq<Note>, start: nat, most: nat) {
    forall n | start <= n <= |log| :: Reconnects(log[..n]) <= most
  }

  lemma StillAtMost(before: seq<Note>, log: seq<Note>, start: nat, most: nat)
    requires AtMostAlong(before, start, most) && before <= log && |log| <= |before| + 1
    requires Reconnects(log) <= most
    ensures AtMostAlong(log, start, most)
  {
    assert log[..|log|] == log;
    forall n | start <= n <= |log| ensures Reconnects(log[..n]) <= most {
      if n <= |before| { assert log[..n] == before[..n]; }
    }
  }

  lemma AtMostHere(log: seq<Note>, most: nat)
    requires Reconnects(log) <= most
    ensures AtMostAlong(log, |log|, most)
  {
    assert log[..|log|] == log;
  }

  lemma TimerCleared(ws: Option<nat>, sockets: map<nat, Socket>, made: nat, timers: map<nat, nat>, timer: Option<nat>)
    requires OneTransport(ws, sockets, timer, timers, made, true)
    ensures OneTransport(ws, sockets, None, if timer.Some? then timers - {timer.value} else timers, made, true)
  {
  }

  lemma OneTimer(ws: Option<nat>, sockets: map<nat, Socket>, made: nat, timers: map<nat, nat>, due: nat)
    requires OneTransport(ws, sockets, None, timers, made, true) && !IsLive(ws, sockets)
    ensures OneTransport(ws, sockets, Some(made), timers[made := due], made + 1, true)
  {
  }

  // ---- what the events say ----------------------------------------------------------------

  datatype Event =
    | ChannelConfig(field: TokenField)
    | ConnectCall
    | SocketOpens(id: nat)
    | SocketCloses(id: nat, code: int)
    | TimerFires(t: nat)
    | CloseCall
    | TimePasses(ms: nat)

  datatype Situation = Situation(
    token: Option<string>, wantOpen: bool, ws: Option<nat>,
    attempt: nat, startedAt: nat, timer: Option<nat>,
    now: nat, sockets: map<nat, Socket>, timers: map<nat, nat>, made: nat, log: seq<Note>)
  {
    predicate HasToken() {
      token.Some? && token.value != ""
    }

    predicate Connected() {
      ws.Some? && ws.value in sockets && sockets[ws.value].state == Open
    }

    function Untimed(): Situation {
      this.(timers := if timer.Some? then timers - {timer.value} else timers, timer := None)
    }

    function Retired(): Situation {
      Untimed().(ws := None,
                 sockets := if ws.Some? && ws.value in sockets && sockets[ws.value].state != Closed
                            then sockets[ws.value := Socket(Closing, false)] else sockets)
    }

    /** A new socket in place of the old one, if one is wanted and there is a token for it. */
    function Renewed(): Situation {
      if !wantOpen || !HasToken() then this
      else
        var r := Retired();
        r.(sockets := r.sockets[made := Socket(Connecting, true)], ws := Some(made), made := made + 1)
    }

    function Configured(field: TokenField): Situation {
      var held := match field case Absent => token case Null => None case Token(t) => Some(t);
      var s := this.(token := held);
      if (held.Some? && held != token) || (s.HasToken() && !Connected())
      then s.(attempt := 0, startedAt := 0).Renewed().(log := log + [Applied])
      else s
    }

    function Scheduling(delays: seq<nat>, budget: nat): Situation {
      if !wantOpen || !HasToken() then this
      else
        var s := this.(startedAt := if startedAt == 0 then now else startedAt);
        match ReconnectDelayMs(attempt, s.startedAt, now, delays, budget)
        case None => s.(log := log + [Exhausted])
        case Some(delay) => s.Timed(delay).(attempt := attempt + 1, log := log + [Scheduled(attempt + 1, delay)])
    }

    function Timed(delay: nat): Situation {
      var s := Untimed();
      s.(timers := s.timers[made := now + delay], timer := Some(made), made := made + 1)
    }

    function Hearing(id: nat, code: int, delays: seq<nat>, budget: nat): Situation
      requires id in sockets
    {
      var s := this.(sockets := sockets[id := sockets[id].(state := Closed)]);
      if !sockets[id].listened then s
      else if code == 1008 then s.(ws := None, log := log + [Rejected])
      else s.Scheduling(delays, budget)
    }

    function Next(e: Event, delays: seq<nat>, budget: nat): Situation {
      match e
      case ChannelConfig(field) => Configured(field)
      case ConnectCall => this.(wantOpen := true).Renewed().(log := log + [ConnectCalled])
      case SocketOpens(id) =>
        if id in sockets && sockets[id].state == Connecting
        then this.(sockets := sockets[id := sockets[id].(state := Open)], attempt := 0, startedAt := 0, log := log + [Opened])
        else this
      case SocketCloses(id, code) => if id in sockets && sockets[id].state != Closed then Hearing(id, code, delays, budget) else this
      case TimerFires(t) => if t in timers && timers[t] <= now then this.(timers := timers - {t}, timer := None).Renewed() else this
      case CloseCall => Retired().(wantOpen := false)
      case TimePasses(ms) => this.(now := now + ms)
    }

    function After(events: seq<Event>, delays: seq<nat>, budget: nat): Situation {
      if events == [] then this else After(events[..|events| - 1], delays, budget).Next(events[|events| - 1], delays, budget)
    }
  }

  class ScreenClient {
    const delays: seq<nat>
    const budget: nat
    var token: Option<string>
    var wantOpen: bool
    var ws: Option<nat>
    var reconnectAttempt: nat
    /** 0 when no outage has begun. */
    var reconnectStartedAt: nat
    var reconnectTimer: Option<nat>
    /** The environment: the clock, all sockets ever made, and pending timers with when they are due. */
    var now: nat
    var sockets: map<nat, Socket>
    var timers: map<nat, nat>
    var made: nat
    var log: seq<Note>
    ghost var lastAt: nat

    constructor (delays: seq<nat>, budget: nat)
      ensures Valid() && log == [] && !wantOpen && this.delays == delays && this.budget == budget
    {
      this.delays, this.budget := delays, budget;
      token, wantOpen, ws, reconnectAttempt, reconnectStartedAt, reconnectTimer := None, false, None, 0, 0, None;
      now, sockets, timers, made, log, lastAt := 1, map[], map[], 0, [], 0;
    }

    ghost function Now(): Situation
      reads this
    {
      Situation(token, wantOpen, ws, reconnectAttempt, reconnectStartedAt, reconnectTimer, now, sockets, timers, made, log)
    }

    predicate HasToken()
      reads this`token
    {
      token.Some? && token.value != ""
    }

    predicate Connected()
      reads this`ws, this`sockets
    {
      ws.Some? && ws.value in sockets && sockets[ws.value].state == Open
    }

    ghost predicate One()
      reads this`ws, this`sockets, this`reconnectTimer, this`timers, this`made, this`wantOpen
    {
      OneTransport(ws, sockets, reconnectTimer, timers, made, wantOpen)
    }

    ghost predicate Budgeted()
      reads this
    {
      InBudget(log, reconnectAttempt, reconnectStartedAt, lastAt, now, Due(reconnectTimer, timers), IsLive(ws, sockets), delays, budget)
    }

    ghost predicate Valid()
      reads this
    {
      One() && Budgeted()
    }

    predicate ByDefault() {
      delays == [500, 1000, 2000, 5000] && budget == 60_000
    }

    /** In an outage, the waits before the last reconnect fit the budget; by default that is at most 15 reconnects. */
    lemma BoundedReconnects()
      requires Valid()
      ensures Reconnects(log) > 0 ==>
                && delays != [] && Reconnects(log) <= reconnectAttempt
                && Waits(reconnectAttempt - Reconnects(log), Reconnects(log) - 1, delays) <= budget
      ensures ByDefault() ==> Reconnects(log) <= 15
    {
      var count := Reconnects(log);
      if count > 15 && ByDefault() {
        FifteenWaitsAreTooLong(reconnectAttempt - count, count - 1);
      }
    }

    /** Drops the socket, unlistened, and the pending timer. */
    method Retire()
      requires One()
      modifies this`ws, this`sockets, this`reconnectTimer, this`timers
      ensures One() && ws.None? && reconnectTimer.None? && timers == map[]
      ensures sockets == if old(ws).Some? && old(sockets)[old(ws).value].state != Closed
                         then old(sockets)[old(ws).value := Socket(Closing, false)] else old(sockets)
      ensures Now() == old(Now()).Retired()
    {
      if reconnectTimer.Some? {
        timers := timers - {reconnectTimer.value};
        reconnectTimer := None;
      }
      if ws.Some? && sockets[ws.value].state != Closed {
        sockets := sockets[ws.value := Socket(Closing, false)];
      }
      ws := None;
      assert timers == map[];
    }

    /** Retires the old transport and opens a new one; without a token, or unless wanted, nothing. */
    method OpenSocket()
      requires One()
      modifies this`ws, this`sockets, this`reconnectTimer, this`timers, this`made
      ensures One()
      ensures if !wantOpen || !HasToken()
              then ws == old(ws) && sockets == old(sockets) && reconnectTimer == old(reconnectTimer) && timers == old(timers) && made == old(made)
              else OpensNew(old(made)) && timers == map[]
      ensures Now() == old(Now()).Renewed()
    {
      if !wantOpen || !HasToken() { return; }
      Retire();
      sockets := sockets[made := Socket(Connecting, true)];
      ws := Some(made);
      made := made + 1;
    }

    /** What opening does when it may: a new socket, the only one listened to. */
    ghost predicate OpensNew(before: nat)
      reads this`ws, this`sockets, this`reconnectTimer
    {
      ws == Some(before) && before in sockets && sockets[before] == Socket(Connecting, true) && reconnectTimer.None?
    }

    /** A new channel config from the daemon. */
    method ApplyChannel(field: TokenField)
      requires Valid()
      modifies this
      ensures Valid() && wantOpen == old(wantOpen) && now == old(now)
      ensures token == match field case Absent => old(token) case Null => None case Token(t) => Some(t)
      // A token that is not the one held, or one to use while not connected, begins anew with a new socket.
      ensures var anew := (field.Token? && Some(field.text) != old(token)) || (HasToken() && !old(Connected()));
              && log == old(log) + (if anew then [Applied] else [])
              && (anew ==> reconnectAttempt == reconnectStartedAt == 0)
              && (anew && wantOpen && HasToken() ==> OpensNew(old(made)))
      ensures Now() == old(Now()).Configured(field)
    {
      hide OneTransport, InBudget, Situation.Renewed, IsLive, Due;
      var tokenChanged := field.Token? && token != Some(field.text);
      match field {
        case Absent =>
        case Null => token := None;
        case Token(t) => token := Some(t);
      }
      Facts();
      if tokenChanged || (HasToken() && !Connected()) {
        reconnectAttempt := 0;
        reconnectStartedAt := 0;
        OpenSocket();
        BudgetAnew(log, Applied, 0, 0, lastAt, now, Due(reconnectTimer, timers), IsLive(ws, sockets), delays, budget);
        log := log + [Applied];
      }
    }

    lemma Facts()
      requires Budgeted()
      ensures lastAt <= now && reconnectStartedAt <= now && now > 0
    {
    }

    method Connect()
      requires Valid()
      modifies this
      ensures Valid() && wantOpen && log == old(log) + [ConnectCalled] && now == old(now)
      ensures HasToken() ==> OpensNew(old(made))
      ensures Now() == old(Now()).Next(ConnectCall, delays, budget)
    {
      hide InBudget;
      Facts();
      wantOpen := true;
      OpenSocket();
      BudgetAnew(log, ConnectCalled, reconnectAttempt, reconnectStartedAt, lastAt, now,
                 Due(reconnectTimer, timers), IsLive(ws, sockets), delays, budget);
      log := log + [ConnectCalled];
    }

    /** A handshake finished. */
    method OnOpen(id: nat)
      requires Valid() && id in sockets && sockets[id].state == Connecting
      modifies this
      ensures Valid() && log == old(log) + [Opened] && reconnectAttempt == reconnectStartedAt == 0
      ensures sockets == old(sockets)[id := old(sockets)[id].(state := Open)] && ws == old(ws) && now == old(now)
      ensures Now() == old(Now()).Next(SocketOpens(id), delays, budget)
    {
      hide InBudget;
      Facts();
      ghost var before := sockets;
      sockets := sockets[id := sockets[id].(state := Open)];
      assert forall other: nat :: Live(sockets, other) == Live(before, other);
      reconnectAttempt := 0;
      reconnectStartedAt := 0;
      BudgetAnew(log, Opened, 0, 0, lastAt, now, Due(reconnectTimer, timers), IsLive(ws, sockets), delays, budget);
      log := log + [Opened];
    }

    /** A socket closed; only the one still listened to has a handler. */
    method OnClose(id: nat, code: int)
      requires Valid() && id in sockets && sockets[id].state != Closed
      modifies this
      ensures Valid() && wantOpen == old(wantOpen) && now == old(now)
      ensures if !old(Live(sockets, id)) then log == old(log) && reconnectTimer == old(reconnectTimer) && timers == old(timers)
              else if code == REFUSED then log == old(log) + [Rejected] && reconnectTimer.None? && ws.None?
              else Rescheduled(old(log), old(reconnectAttempt))
      ensures Now() == old(Now()).Hearing(id, code, delays, budget)
    {
      hide InBudget;
      var handled := sockets[id].listened;
      ghost var before := sockets;
      sockets := sockets[id := sockets[id].(state := Closed)];
      assert forall other: nat :: Live(sockets, other) <==> Live(before, other) && other != id;
      if !handled {
        assert IsLive(ws, sockets) == IsLive(ws, before);
        return;
      }
      assert Live(before, id) && wantOpen && Due(reconnectTimer, timers) == None;
      if code == REFUSED {
        NothingLive(before);
        ws := None;
        BudgetNoted(log, Rejected, reconnectAttempt, reconnectStartedAt, lastAt, now, None, false, delays, budget);
        log := log + [Rejected];
        return;
      }
      ScheduleReconnect();
    }

    lemma NothingLive(before: map<nat, Socket>)
      requires InBudget(log, reconnectAttempt, reconnectStartedAt, lastAt, now, None, IsLive(ws, before), delays, budget)
      ensures InBudget(log, reconnectAttempt, reconnectStartedAt, lastAt, now, None, false, delays, budget)
    {
    }

    /** What follows a close: one more reconnect, unless there is no token or the budget is spent. */
    ghost predicate Rescheduled(before: seq<Note>, attempt: nat)
      reads this
    {
      if !HasToken() then log == before && reconnectTimer.None?
      else if Due(reconnectTimer, timers).None? then
        log == before + [Exhausted] && (delays == [] || now - reconnectStartedAt > budget)
      else
        && delays != [] && now - reconnectStartedAt <= budget && reconnectAttempt == attempt + 1
        && Due(reconnectTimer, timers) == Some(now + Delay(attempt, delays))
        && log == before + [Scheduled(reconnectAttempt, Delay(attempt, delays))]
    }

    method ScheduleReconnect()
      requires One() && !IsLive(ws, sockets) && wantOpen && reconnectTimer.None?
      requires InBudget(log, reconnectAttempt, reconnectStartedAt, lastAt, now, None, true, delays, budget)
      modifies this`reconnectStartedAt, this`reconnectAttempt, this`reconnectTimer, this`timers, this`made, this`log, this`lastAt
      ensures Valid() && Rescheduled(old(log), old(reconnectAttempt))
      ensures Now() == old(Now()).Scheduling(delays, budget)
    {
      hide InBudget, Live, OneTransport, IsLive;
      Quieter();
      if !wantOpen || !HasToken() { return; }
      ghost var began := reconnectStartedAt;
      if reconnectStartedAt == 0 { reconnectStartedAt := now; }
      var delay := ReconnectDelayMs(reconnectAttempt, reconnectStartedAt, now, delays, budget);
      if delay.None? {
        BeganNow(began);
        BudgetNoted(log, Exhausted, reconnectAttempt, reconnectStartedAt, lastAt, now, None, false, delays, budget);
        log := log + [Exhausted];
        return;
      }
      BudgetScheduled(log, reconnectAttempt, began, lastAt, now, reconnectStartedAt, delay.value, delays, budget);
      reconnectAttempt := reconnectAttempt + 1;
      lastAt := now;
      log := log + [Scheduled(reconnectAttempt, delay.value)];
      SetTimer(delay.value);
    }

    /** Replaces any pending timer. */
    method SetTimer(delay: nat)
      requires One() && !IsLive(ws, sockets) && wantOpen
      modifies this`reconnectTimer, this`timers, this`made
      ensures One() && Due(reconnectTimer, timers) == Some(now + delay)
      ensures Now() == old(Now()).Timed(delay)
    {
      hide OneTransport, IsLive;
      TimerCleared(ws, sockets, made, timers, reconnectTimer);
      if reconnectTimer.Some? { timers := timers - {reconnectTimer.value}; }
      OneTimer(ws, sockets, made, timers, now + delay);
      timers := timers[made := now + delay];
      reconnectTimer := Some(made);
      made := made + 1;
    }

    lemma Quieter()
      requires InBudget(log, reconnectAttempt, reconnectStartedAt, lastAt, now, None, true, delays, budget)
      ensures InBudget(log, reconnectAttempt, reconnectStartedAt, lastAt, now, None, false, delays, budget)
    {
    }

    lemma BeganNow(began: nat)
      requires InBudget(log, reconnectAttempt, began, lastAt, now, None, false, delays, budget)
      requires reconnectStartedAt == if began == 0 then now else began
      ensures InBudget(log, reconnectAttempt, reconnectStartedAt, lastAt, now, None, false, delays, budget)
    {
    }

    /** A timer that is due fires. */
    method OnTimer(t: nat)
      requires Valid() && t in timers && timers[t] <= now
      modifies this
      ensures Valid() && log == old(log) && wantOpen == old(wantOpen) && now == old(now)
      ensures reconnectTimer.None? && (HasToken() ==> OpensNew(old(made)))
      ensures Now() == old(Now()).Next(TimerFires(t), delays, budget)
    {
      TimerWasDue(t);
      hide InBudget;
      timers := timers - {t};
      reconnectTimer := None;
      OpenSocket();
    }

    lemma TimerWasDue(t: nat)
      requires Valid() && t in timers && timers[t] <= now
      ensures InBudget(log, reconnectAttempt, reconnectStartedAt, lastAt, now, None, true, delays, budget)
      ensures InBudget(log, reconnectAttempt, reconnectStartedAt, lastAt, now, None, false, delays, budget)
    {
    }

    method Close()
      requires Valid()
      modifies this
      ensures Valid() && !wantOpen && !IsLive(ws, sockets) && timers == map[] && log == old(log) && now == old(now)
      ensures Now() == old(Now()).Retired().(wantOpen := false)
    {
      Retire();
      wantOpen := false;
    }

    method Tick(ms: nat)
      requires Valid()
      modifies this`now
      ensures Valid() && Now() == old(Now()).(now := old(now) + ms)
    {
      now := now + ms;
    }

    method Handle(e: Event)
      requires Valid()
      modifies this
      ensures Valid() && Now() == old(Now()).Next(e, delays, budget)
      ensures old(log) <= log && |log| <= |old(log)| + 1
    {
      hide ScreenClient.Valid;
      match e
      case ChannelConfig(field) => ApplyChannel(field);
      case ConnectCall => Connect();
      case SocketOpens(id) => if id in sockets && sockets[id].state == Connecting { OnOpen(id); }
      case SocketCloses(id, code) => if id in sockets && sockets[id].state != Closed { OnClose(id, code); }
      case TimerFires(t) => if t in timers && timers[t] <= now { OnTimer(t); }
      case CloseCall => Close();
      case TimePasses(ms) => Tick(ms);
    }

    /** Any run of calls and events: never more than 15 reconnects in an outage with the default policy. */
    method Run(events: seq<Event>)
      requires Valid()
      modifies this
      ensures Valid() && Now() == old(Now()).After(events, delays, budget) && |log| >= |old(log)|
      ensures ByDefault() ==> AtMostAlong(log, |old(log)|, 15)
    {
      hide ScreenClient.Valid, ByDefault, AtMostAlong, Situation.Next, ScreenClient.Now;
      BoundedReconnects();
      if ByDefault() { AtMostHere(log, 15); }
      for n := 0 to |events|
        invariant Valid() && |log| >= |old(log)|
        invariant Now() == old(Now()).After(events[..n], delays, budget)
        invariant ByDefault() ==> AtMostAlong(log, |old(log)|, 15)
      {
        assert events[..n + 1][..n] == events[..n];
        ghost var before := log;
        Handle(events[n]);
        BoundedReconnects();
        if ByDefault() { StillAtMost(before, log, |old(log)|, 15); }
      }
      assert events[..|events|] == events;
    }
  }
}
