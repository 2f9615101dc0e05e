/**
 * Starting, ending, muting and unmuting a live conversation on the desktop. The methods of
 * the source are coroutines; each stretch between two awaits is one method here, and a
 * program counter per started coroutine says where it waits. Any number of start attempts
 * and unmutes may be pending, and they resume in any order their promises allow.
 */
module LiveSession {
  import opened Wrappers

  datatype LinkState = Connecting | Ready | Closed | Error

  datatype Outcome = BecameReady | Aborted | TimedOut

  /** Something that may still open the microphone. */
  datatype Opener = Attempt(k: nat) | Unmute(u: nat)

  /** Where a start attempt waits. `on`: what the `settling` promise it captured still waits for. */
  datatype Pc =
    | AwaitSettling(on: set<Opener>)
    | AwaitReady
    | ReadyResolved(outcome: Outcome)
    | MicPending
    | MicResolved(ok: bool)

  /** Past the wait for earlier attempts: in the opening section. */
  predicate Opening(pc: Pc) {
    !pc.AwaitSettling?
  }

  /** Between `startCall` and handling the microphone's answer. */
  predicate InCall(pc: Pc) {
    pc.MicPending? || pc.MicResolved?
  }

  datatype Event =
    | StartLive
    | EndLive
    | SetMuted(muted: bool)
    | SetLink(link: LinkState)
    | ReadyTimeout
    | ResumeStart(k: nat, remote: bool)
    | ResumeReady(k: nat)
    | MicAnswers(k: nat, ok: bool)
    | ResumeMic(k: nat)
    | UnmuteAnswers(u: nat, ok: bool)
    | ResumeUnmute(u: nat)

  // ---- what the events say --------------------------------------------------------------

  datatype Situation = Situation(
    live: bool, muted: bool, attempt: nat, link: LinkState, waiting: Option<nat>, settling: set<Opener>,
    starts: map<nat, Pc>, unmutes: map<nat, Option<bool>>, nextUnmute: nat,
    micOpen: bool, callsOpened: nat, callsClosed: nat)

  function Idle(): Situation {
    Situation(false, false, 0, Connecting, None, {}, map[], map[], 0, false, 0, 0)
  }

  predicate Active(s: Situation, o: Opener) {
    match o
    case Attempt(k) => k in s.starts && Opening(s.starts[k])
    case Unmute(u) => u in s.unmutes
  }

  predicate Possible(s: Situation, e: Event) {
    match e
    case ReadyTimeout => s.waiting.Some?
    case ResumeStart(k, _) => k in s.starts && s.starts[k].AwaitSettling? && forall o | o in s.starts[k].on :: !Active(s, o)
    case ResumeReady(k) => k in s.starts && s.starts[k].ReadyResolved?
    case MicAnswers(k, _) => k in s.starts && s.starts[k] == MicPending
    case ResumeMic(k) => k in s.starts && s.starts[k].MicResolved?
    case UnmuteAnswers(u, _) => u in s.unmutes && s.unmutes[u].None?
    case ResumeUnmute(u) => u in s.unmutes && s.unmutes[u].Some?
    case _ => true
  }

  /** A pending wait for the runtime is over. */
  function Waited(s: Situation, outcome: Outcome): Situation {
    match s.waiting
    case Some(k) => s.(starts := s.starts[k := ReadyResolved(outcome)], waiting := None)
    case None => s
  }

  function HungUp(s: Situation): Situation {
    if s.live then s.(live := false, micOpen := false, callsClosed := s.callsClosed + 1) else s
  }

  function Asking(s: Situation, k: nat): Situation {
    s.(starts := s.starts[k := MicPending], callsOpened := s.callsOpened + 1)
  }

  function Muting(s: Situation, wanted: bool): Situation {
    if wanted == s.muted then s
    else if wanted then s.(muted := true, micOpen := false)
    else if !s.live then s.(muted := false)
    else s.(muted := false, unmutes := s.unmutes[s.nextUnmute := None], nextUnmute := s.nextUnmute + 1,
            settling := s.settling + {Unmute(s.nextUnmute)})
  }

  function Next(s: Situation, e: Event): Situation {
    if !Possible(s, e) then s
    else match e
      case StartLive =>
        if s.live || s.waiting.Some? then s
        else s.(attempt := s.attempt + 1, starts := s.starts[s.attempt + 1 := AwaitSettling(s.settling)])
      case EndLive => HungUp(Waited(s.(attempt := s.attempt + 1), Aborted))
      case SetMuted(wanted) => Muting(s, wanted)
      case SetLink(link) =>
        if link == Connecting then s.(link := link)
        else Waited(s.(link := link), if link == Ready then BecameReady else Aborted)
      case ReadyTimeout => Waited(s, TimedOut)
      case ResumeStart(k, remote) =>
        if k != s.attempt then s.(starts := s.starts - {k})
        else if remote && s.link != Ready then
          s.(settling := {Attempt(k)}, link := Connecting, waiting := Some(k), starts := s.starts[k := AwaitReady])
        else Asking(s.(settling := {Attempt(k)}), k)
      case ResumeReady(k) =>
        if s.starts[k] == ReadyResolved(BecameReady) && k == s.attempt then Asking(s, k) else s.(starts := s.starts - {k})
      case MicAnswers(k, ok) => s.(starts := s.starts[k := MicResolved(ok)], micOpen := s.micOpen || ok)
      case ResumeMic(k) =>
        if s.starts[k].ok && k == s.attempt then s.(starts := s.starts - {k}, live := true, muted := false)
        else s.(starts := s.starts - {k}, callsClosed := s.callsClosed + 1, micOpen := s.micOpen && !s.starts[k].ok)
      case UnmuteAnswers(u, ok) => s.(unmutes := s.unmutes[u := Some(ok)], micOpen := s.micOpen || ok)
      case ResumeUnmute(u) =>
        s.(unmutes := s.unmutes - {u}, micOpen := s.micOpen && (s.unmutes[u] == Some(false) || (s.live && !s.muted)))
  }

  function After(s: Situation, events: seq<Event>): Situation {
    if events == [] then s else Next(After(s, events[..|events| - 1]), events[|events| - 1])
  }

  /** Does the device answer that it opened the microphone? */
  predicate Opens(e: Event) {
    (e.MicAnswers? || e.UnmuteAnswers?) && e.ok
  }

  lemma NextMutes(s: Situation, e: Event)
    ensures e == SetMuted(true) ==> Next(s, e).muted && (s.muted || !Next(s, e).micOpen)
    ensures e == SetMuted(false) ==> !Next(s, e).muted
    ensures Next(s, e).micOpen && !s.micOpen ==> Opens(e)
    ensures Next(s, e).muted != s.muted ==> e.SetMuted? || e.ResumeMic?
    ensures e == EndLive ==> !Next(s, e).live && (s.live ==> !Next(s, e).micOpen)
  {
  }

  /** What the person asked for last holds: muted or not as they said, and ended when they ended it. */
  lemma LastWordHolds(s: Situation, events: seq<Event>, wanted: bool)
    ensures After(s, events + [SetMuted(wanted)]).muted == wanted
    ensures !After(s, events + [EndLive]).live
  {
    assert (events + [SetMuted(wanted)])[..|events|] == events && (events + [EndLive])[..|events|] == events;
    NextMutes(After(s, events), SetMuted(wanted));
    NextMutes(After(s, events), EndLive);
  }

  /**
   * From the moment the person mutes, or ends a live conversation, the microphone is closed
   * until the device answers a request with it, whatever else happens.
   */
  lemma {:induction false} SilentUntilAnswered(s: Situation, events: seq<Event>, last: Event, more: seq<Event>)
    requires (last == SetMuted(true) && !After(s, events).muted) || (last == EndLive && After(s, events).live)
    requires forall e | e in more :: !Opens(e)
    ensures !After(s, events + [last] + more).micOpen
  {
    var upTo := events + [last] + more;
    if more == [] {
      assert upTo == events + [last] && upTo[..|upTo| - 1] == events;
      NextMutes(After(s, events), last);
    } else {
      var earlier := more[..|more| - 1];
      assert upTo[..|upTo| - 1] == events + [last] + earlier && upTo[|upTo| - 1] == more[|more| - 1];
      SilentUntilAnswered(s, events, last, earlier);
      NextMutes(After(s, events + [last] + earlier), more[|more| - 1]);
    }
  }

  /** While nothing but its own microphone is resumed, a muted conversation stays muted. */
  lemma {:induction false} StaysMuted(s: Situation, events: seq<Event>, more: seq<Event>)
    requires forall e | e in more :: !e.SetMuted? && !e.ResumeMic?
    ensures After(s, events + [SetMuted(true)] + more).muted
  {
    var upTo := events + [SetMuted(true)] + more;
    if more == [] {
      assert upTo == events + [SetMuted(true)];
      LastWordHolds(s, events, true);
    } else {
      var earlier := more[..|more| - 1];
      assert upTo[..|upTo| - 1] == events + [SetMuted(true)] + earlier && upTo[|upTo| - 1] == more[|more| - 1];
      StaysMuted(s, events, earlier);
      NextMutes(After(s, events + [SetMuted(true)] + earlier), more[|more| - 1]);
    }
  }

  class ElectronHost {
    var live: bool
    var muted: bool
    var attempt: nat
    var link: LinkState
    /** The attempt whose `waitForReady` is pending. */
    var waiting: Option<nat>
    /** What the current `settling` promise waits for. */
    var settling: set<Opener>
    var starts: map<nat, Pc>
    /** Unmutes whose microphone has not been dealt with; the value is the device's answer, once there. */
    var unmutes: map<nat, Option<bool>>
    var nextUnmute: nat
    var micOpen: bool
    var callsOpened: nat
    var callsClosed: nat
    /** Was the microphone open when the conversation last became live and unmuted, and what did the device answer since? */
    ghost var openAtFirst: bool
    ghost var answers: seq<bool>
    /** Was a mute asked for since the device last answered a start attempt? */
    ghost var cutShort: bool

    constructor ()
      ensures Valid() && Now() == Idle()
    {
      live, muted, attempt, link, waiting := false, false, 0, Connecting, None;
      settling, starts, unmutes, nextUnmute := {}, map[], map[], 0;
      micOpen, callsOpened, callsClosed := false, 0, 0;
      openAtFirst, answers, cutShort := false, [], false;
    }

    ghost function Now(): Situation
      reads this
    {
      Situation(live, muted, attempt, link, waiting, settling, starts, unmutes, nextUnmute, micOpen, callsOpened, callsClosed)
    }

    predicate IsActive(o: Opener)
      reads this`starts, this`unmutes
    {
      match o
      case Attempt(k) => k in starts && Opening(starts[k])
      case Unmute(u) => u in unmutes
    }

    /** Has a promise that waits for these openers resolved? */
    predicate Settled(on: set<Opener>)
      reads this`starts, this`unmutes
    {
      forall o | o in on :: !IsActive(o)
    }

    /** One attempt at a time is in the opening section, none beside a live call or a pending unmute. */
    ghost predicate Exclusive()
      reads this`starts, this`unmutes, this`live
    {
      && (forall j, k | j in starts && k in starts && Opening(starts[j]) && Opening(starts[k]) :: j == k)
      && (forall k | k in starts && Opening(starts[k]) :: !live && unmutes == map[])
    }

    ghost predicate StartInCall()
      reads this`starts
    {
      exists k :: k in starts && InCall(starts[k])
    }

    /** Calls opened minus calls closed: one for a live call, one for an attempt that opens one. */
    ghost predicate CallsBalance()
      reads this`starts, this`live, this`callsOpened, this`callsClosed
    {
      && !(live && StartInCall())
      && callsOpened == callsClosed + if live || StartInCall() then 1 else 0
    }

    ghost predicate StartHasMic()
      reads this`starts
    {
      exists k :: k in starts && starts[k] == MicResolved(true)
    }

    ghost predicate UnmuteHasMic()
      reads this`unmutes
    {
      exists u :: u in unmutes && unmutes[u] == Some(true)
    }

    /** An open microphone belongs to an unmuted live call, or its opener has yet to look at it. */
    ghost predicate MicOwned()
      reads this`starts, this`unmutes, this`live, this`muted, this`micOpen
    {
      micOpen ==> (live && !muted) || StartHasMic() || UnmuteHasMic()
    }

    /**
     * Live and unmuted, the microphone is open exactly when it was at first or was opened
     * since; of an attempt about to go live, exactly when no mute came since it was opened.
     */
    ghost predicate Hears()
      reads this`starts, this`live, this`muted, this`micOpen, this`openAtFirst, this`answers, this`cutShort
    {
      && (live && !muted ==> (micOpen <==> openAtFirst || true in answers))
      && (forall k | k in starts && starts[k] == MicResolved(true) :: micOpen <==> !cutShort)
    }

    ghost predicate Valid()
      reads this
    {
      && Exclusive() && CallsBalance() && MicOwned() && Hears()
      && (forall k | k in starts :: 1 <= k <= attempt)
      && (live ==> attempt !in starts)
      && (forall k :: waiting == Some(k) <==> k in starts && starts[k] == AwaitReady)
      && (forall u | u in unmutes :: u < nextUnmute)
      && (forall o | IsActive(o) :: o in settling)
      && (attempt in starts && starts[attempt].AwaitSettling? ==> forall o | IsActive(o) :: o in starts[attempt].on)
    }

    /** What the person and the runtime are promised, at every moment of every run. */
    ghost predicate Safe()
      reads this
    {
      && Exclusive()
      && callsClosed <= callsOpened <= callsClosed + 1
      && CallsBalance() && Hears()
      && (starts == map[] && unmutes == map[] ==> (micOpen ==> live && !muted))
      && (attempt in starts && starts[attempt].AwaitSettling? ==>
            (Settled(starts[attempt].on) <==> forall o :: !IsActive(o)))
    }

    // ---- requests from the person ---------------------------------------------------------

    method OnStartLive()
      requires Valid()
      modifies this`attempt, this`starts
      ensures Valid()
      ensures if live || waiting.Some? then attempt == old(attempt) && starts == old(starts)
              else attempt == old(attempt) + 1 && starts == old(starts)[attempt := AwaitSettling(settling)]
    {
      if live || waiting.Some? { return; }
      attempt := attempt + 1;
      starts := starts[attempt := AwaitSettling(settling)];
      assert forall j | j in old(starts) :: j in starts && starts[j] == old(starts[j]);
    }

    method OnEndLive()
      requires Valid()
      modifies this
      ensures Valid()
      ensures attempt == old(attempt) + 1 && !live && waiting.None?
      ensures muted == old(muted) && link == old(link) && settling == old(settling) && cutShort == old(cutShort)
      ensures unmutes == old(unmutes) && nextUnmute == old(nextUnmute) && callsOpened == old(callsOpened)
      ensures starts == match old(waiting)
                case Some(k) => old(starts)[k := ReadyResolved(Aborted)]
                case None => old(starts)
      ensures if old(live) then !micOpen && callsClosed == old(callsClosed) + 1
              else micOpen == old(micOpen) && callsClosed == old(callsClosed)
    {
      hide Exclusive, CallsBalance, MicOwned;
      attempt := attempt + 1;
      FinishWait(Aborted);
      if live { HangUp(); }
    }

    method HangUp()
      requires Valid() && live
      modifies this`live, this`micOpen, this`callsClosed
      ensures Valid() && !live && !micOpen && callsClosed == old(callsClosed) + 1
    {
      live := false;
      micOpen := false;
      callsClosed := callsClosed + 1;
    }

    method OnSetMuted(wanted: bool)
      requires Valid()
      modifies this`muted, this`micOpen, this`unmutes, this`nextUnmute, this`settling,
               this`openAtFirst, this`answers, this`cutShort
      ensures Valid()
      ensures muted == wanted
      ensures cutShort == (old(cutShort) || (wanted && !old(muted)))
      // Unmuted, it hears at once only what an unmute overtaken by a mute has opened.
      ensures if !wanted && old(muted) && live then openAtFirst == old(micOpen) && answers == []
              else openAtFirst == old(openAtFirst) && answers == old(answers)
      ensures micOpen == (old(micOpen) && (wanted == old(muted) || !wanted))
      ensures if !wanted && old(muted) && live
              then unmutes == old(unmutes)[old(nextUnmute) := None] && nextUnmute == old(nextUnmute) + 1
                   && settling == old(settling) + {Unmute(old(nextUnmute))}
              else unmutes == old(unmutes) && nextUnmute == old(nextUnmute) && settling == old(settling)
    {
      hide Exclusive, CallsBalance, MicOwned, Hears, Settled;
      if wanted == muted { return; }
      if wanted {
        Mute();
      } else if live {
        BeginUnmute();
      } else {
        UnmuteOffline();
      }
    }

    method Mute()
      requires Valid() && !muted
      modifies this`muted, this`micOpen, this`cutShort
      ensures Valid() && muted && !micOpen && cutShort
    {
      hide Exclusive, CallsBalance;
      muted, micOpen, cutShort := true, false, true;
    }

    method UnmuteOffline()
      requires Valid() && !live
      modifies this`muted
      ensures Valid() && !muted
    {
      hide Exclusive, CallsBalance;
      muted := false;
    }

    /** The microphone is asked for in the background. */
    method BeginUnmute()
      requires Valid() && live && muted
      modifies this`muted, this`unmutes, this`nextUnmute, this`settling, this`openAtFirst, this`answers
      ensures Valid() && !muted && openAtFirst == micOpen && answers == []
      ensures unmutes == old(unmutes)[old(nextUnmute) := None] && nextUnmute == old(nextUnmute) + 1
      ensures settling == old(settling) + {Unmute(old(nextUnmute))}
    {
      hide CallsBalance, Exclusive, Settled;
      LiveOpensNone();
      muted, openAtFirst, answers := false, micOpen, [];
      unmutes := unmutes[nextUnmute := None];
      settling := settling + {Unmute(nextUnmute)};
      nextUnmute := nextUnmute + 1;
      NoneOpening();
    }

    lemma LiveOpensNone()
      requires Exclusive() && live
      ensures forall k | k in starts :: !Opening(starts[k])
    {
    }

    lemma OpensAlone(k: nat)
      requires Exclusive() && k in starts && Opening(starts[k])
      ensures (forall j | j in starts && j != k :: !Opening(starts[j])) && !live && unmutes == map[]
    {
    }

    lemma NoneOpening()
      requires forall k | k in starts :: !Opening(starts[k])
      ensures Exclusive() && !StartInCall() && !StartHasMic()
    {
    }

    // ---- the link, and waiting for it -----------------------------------------------------

    /** Resolve a pending `waitForReady`; only its first outcome counts. */
    method FinishWait(outcome: Outcome)
      requires Valid()
      modifies this`waiting, this`starts
      ensures Valid()
      ensures waiting.None?
      ensures starts == match old(waiting)
                case Some(k) => old(starts)[k := ReadyResolved(outcome)]
                case None => old(starts)
    {
      match waiting
      case Some(k) =>
        starts := starts[k := ReadyResolved(outcome)];
        waiting := None;
      case None =>
    }

    method OnSetLink(state: LinkState)
      requires Valid()
      modifies this`link, this`waiting, this`starts
      ensures Valid()
      ensures link == state
      ensures state == Connecting ==> waiting == old(waiting) && starts == old(starts)
      ensures state != Connecting ==>
                waiting.None? && starts == match old(waiting)
                  case Some(k) => old(starts)[k := ReadyResolved(if state == Ready then BecameReady else Aborted)]
                  case None => old(starts)
    {
      hide Exclusive, CallsBalance, MicOwned;
      link := state;
      if state == Ready { FinishWait(BecameReady); }
      else if state == Closed || state == Error { FinishWait(Aborted); }
    }

    method OnReadyTimeout()
      requires Valid()
      modifies this`waiting, this`starts
      ensures Valid()
      ensures waiting.None?
      ensures starts == match old(waiting)
                case Some(k) => old(starts)[k := ReadyResolved(TimedOut)]
                case None => old(starts)
    {
      hide Exclusive, CallsBalance, MicOwned;
      FinishWait(TimedOut);
    }

    // ---- a start attempt, stretch by stretch ----------------------------------------------

    /** After `await settling`: an overtaken attempt gives up; the latest enters the opening section. */
    method OnResumeStart(k: nat, remote: bool)
      requires Valid()
      requires k in starts && starts[k].AwaitSettling? && Settled(starts[k].on)
      modifies this`starts, this`settling, this`link, this`waiting, this`callsOpened
      ensures Valid()
      ensures k != attempt ==> starts == old(starts) - {k} && settling == old(settling) && link == old(link)
      ensures k != attempt ==> waiting == old(waiting) && callsOpened == old(callsOpened)
      ensures k == attempt ==> settling == {Attempt(k)} && forall o :: !old(IsActive(o))
      ensures k == attempt && remote && old(link) != Ready ==>
                starts == old(starts)[k := AwaitReady] && waiting == Some(k) && callsOpened == old(callsOpened) && link == Connecting
      ensures k == attempt && !(remote && old(link) != Ready) ==>
                starts == old(starts)[k := MicPending] && waiting == old(waiting)
                && callsOpened == old(callsOpened) + 1 && link == old(link)
    {
      hide Exclusive, CallsBalance, MicOwned, Hears;
      if k != attempt { Overtaken(k); } else { Open(k, remote); }
    }

    method Overtaken(k: nat)
      requires Valid() && k in starts && starts[k].AwaitSettling? && k != attempt
      modifies this`starts
      ensures Valid() && starts == old(starts) - {k}
    {
      hide Settled;
      starts := starts - {k};
      assert forall j | j in old(starts) && j != k :: j in starts && starts[j] == old(starts[j]);
    }

    /** When the latest attempt's wait is over, no attempt and no unmute is still opening. */
    lemma LatestOpensAlone()
      requires Valid()
      requires attempt in starts && starts[attempt].AwaitSettling? && Settled(starts[attempt].on)
      ensures (forall j | j in starts :: !Opening(starts[j])) && unmutes == map[]
      ensures forall o :: !IsActive(o)
    {
      var on := starts[attempt].on;
      assert forall o | o in on :: !IsActive(o);
      forall j | j in starts ensures !Opening(starts[j]) { assert !IsActive(Attempt(j)); }
      forall u ensures u !in unmutes { assert !IsActive(Unmute(u)); }
    }

    /** The microphone opens only once the runtime is ready to hear it. */
    method Open(k: nat, remote: bool)
      requires Valid()
      requires k == attempt && k in starts && starts[k].AwaitSettling? && Settled(starts[k].on)
      modifies this`starts, this`settling, this`link, this`waiting, this`callsOpened
      ensures Valid()
      ensures settling == {Attempt(k)} && forall o :: !old(IsActive(o))
      ensures remote && old(link) != Ready ==>
                starts == old(starts)[k := AwaitReady] && waiting == Some(k) && callsOpened == old(callsOpened) && link == Connecting
      ensures !(remote && old(link) != Ready) ==>
                starts == old(starts)[k := MicPending] && waiting == old(waiting)
                && callsOpened == old(callsOpened) + 1 && link == old(link)
    {
      LatestOpensAlone();
      settling := {Attempt(k)};
      if remote && link != Ready {
        WaitForReady(k);
      } else {
        StartCall(k);
      }
    }

    /** The latest attempt, and nothing else, is opening; its microphone is not asked for yet. */
    ghost predicate Alone(k: nat)
      reads this
    {
      && CallsBalance() && MicOwned() && Hears()
      && (forall j | j in starts :: 1 <= j <= attempt)
      && k == attempt && k in starts && !InCall(starts[k])
      && (forall j | j in starts && j != k :: !Opening(starts[j]))
      && unmutes == map[] && !live && waiting.None? && Attempt(k) in settling
    }

    method WaitForReady(k: nat)
      requires Alone(k)
      modifies this`link, this`waiting, this`starts
      ensures Valid() && link == Connecting && waiting == Some(k) && starts == old(starts)[k := AwaitReady]
    {
      link := Connecting; // a closed link is reopened
      waiting := Some(k);
      starts := starts[k := AwaitReady];
      assert forall j | j in old(starts) && j != k :: j in starts && starts[j] == old(starts[j]);
    }

    method StartCall(k: nat)
      requires Alone(k)
      modifies this`starts, this`callsOpened
      ensures Valid() && starts == old(starts)[k := MicPending] && callsOpened == old(callsOpened) + 1
    {
      callsOpened := callsOpened + 1;
      starts := starts[k := MicPending];
      assert k in starts && InCall(starts[k]);
      assert forall j | j in old(starts) && j != k :: j in starts && starts[j] == old(starts[j]);
    }

    /** After `await waitForReady()`. */
    method OnResumeReady(k: nat)
      requires Valid()
      requires k in starts && starts[k].ReadyResolved?
      modifies this`starts, this`callsOpened
      ensures Valid()
      ensures if old(starts[k]) == ReadyResolved(BecameReady) && k == attempt
              then starts == old(starts)[k := MicPending] && callsOpened == old(callsOpened) + 1
              else starts == old(starts) - {k} && callsOpened == old(callsOpened)
    {
      if starts[k].outcome == Aborted || k != attempt {
        starts := starts - {k};
        return;
      }
      if starts[k].outcome == TimedOut {
        starts := starts - {k}; // "GNSIS could not be reached."
        return;
      }
      assert IsActive(Attempt(k));
      StartCall(k);
    }

    /** The device answers a start attempt: open, or unchanged. */
    method OnMicAnswers(k: nat, ok: bool)
      requires Valid()
      requires k in starts && starts[k] == MicPending
      modifies this`starts, this`micOpen, this`cutShort
      ensures Valid()
      ensures starts == old(starts)[k := MicResolved(ok)] && micOpen == (old(micOpen) || ok) && !cutShort
    {
      if ok { micOpen := true; }
      cutShort := false;
      starts := starts[k := MicResolved(ok)];
      assert InCall(old(starts[k])) && InCall(starts[k]);
    }

    /** After `await mic.start()`. */
    method OnResumeMic(k: nat)
      requires Valid()
      requires k in starts && starts[k].MicResolved?
      modifies this`starts, this`micOpen, this`callsClosed, this`live, this`muted, this`openAtFirst, this`answers
      ensures Valid()
      ensures starts == old(starts) - {k}
      // Whatever was asked while it started, it goes live unmuted; a mute that came after the microphone opened leaves it deaf.
      ensures live ==> !muted && openAtFirst == micOpen == !cutShort && answers == []
      ensures var goesLive := old(starts[k]).ok && k == attempt;
              && live == goesLive
              && (goesLive ==> !muted && micOpen == old(micOpen) && callsClosed == old(callsClosed))
              && (!goesLive ==> live == old(live) && muted == old(muted) && callsClosed == old(callsClosed) + 1)
              && (!goesLive ==> micOpen == (old(micOpen) && !old(starts[k]).ok))
    {
      hide Exclusive, CallsBalance, MicOwned;
      if !starts[k].ok {
        AbandonCall(k, false); // mic_failed
      } else if k != attempt {
        AbandonCall(k, true); // cancelled_while_starting
      } else {
        GoLive(k);
      }
    }

    /** The attempt ends, its call with it, and the microphone if it had isOpen. */
    method AbandonCall(k: nat, isOpen: bool)
      requires Valid() && k in starts && starts[k] == MicResolved(isOpen)
      modifies this`starts, this`micOpen, this`callsClosed
      ensures Valid() && !live && starts == old(starts) - {k} && callsClosed == old(callsClosed) + 1
      ensures micOpen == (old(micOpen) && !isOpen)
    {
      assert IsActive(Attempt(k));
      starts := starts - {k};
      if isOpen { micOpen := false; }
      callsClosed := callsClosed + 1;
    }

    method GoLive(k: nat)
      requires Valid() && k in starts && starts[k] == MicResolved(true) && k == attempt
      modifies this`starts, this`live, this`muted, this`openAtFirst, this`answers
      ensures Valid() && live && !muted && starts == old(starts) - {k}
      ensures openAtFirst == micOpen == !cutShort && answers == []
    {
      hide Settled, Exclusive;
      assert IsActive(Attempt(k)) && InCall(starts[k]);
      OpensAlone(k);
      openAtFirst, answers := micOpen, [];
      starts := starts - {k};
      live := true;
      muted := false;
      NoneOpening();
    }

    // ---- an unmute --------------------------------------------------------------------

    method OnUnmuteAnswers(u: nat, ok: bool)
      requires Valid()
      requires u in unmutes && unmutes[u].None?
      modifies this`unmutes, this`micOpen, this`answers
      ensures Valid()
      ensures unmutes == old(unmutes)[u := Some(ok)] && micOpen == (old(micOpen) || ok) && answers == old(answers) + [ok]
    {
      if ok { micOpen := true; }
      answers := answers + [ok];
      unmutes := unmutes[u := Some(ok)];
      assert forall v | v in old(unmutes) :: v in unmutes && (v != u ==> unmutes[v] == old(unmutes[v]));
    }

    /** Muted again, or ended, while the microphone opened: it is closed as soon as it is open. */
    method OnResumeUnmute(u: nat)
      requires Valid()
      requires u in unmutes && unmutes[u].Some?
      modifies this`unmutes, this`micOpen
      ensures Valid()
      ensures unmutes == old(unmutes) - {u}
      ensures micOpen == (old(micOpen) && (old(unmutes[u]) == Some(false) || (live && !muted)))
    {
      hide CallsBalance, Settled;
      var ok := unmutes[u].value;
      unmutes := unmutes - {u};
      if ok && !(!muted && live) { micOpen := false; }
      assert forall v | v in old(unmutes) && v != u :: v in unmutes && unmutes[v] == old(unmutes[v]);
    }

    // ---- whole runs -------------------------------------------------------------------

    /** May this event happen now? The person may ask anything at any time. */
    predicate Enabled(e: Event)
      reads this`starts, this`unmutes, this`waiting
    {
      match e
      case ReadyTimeout => waiting.Some?
      case ResumeStart(k, _) => k in starts && starts[k].AwaitSettling? && Settled(starts[k].on)
      case ResumeReady(k) => k in starts && starts[k].ReadyResolved?
      case MicAnswers(k, _) => k in starts && starts[k] == MicPending
      case ResumeMic(k) => k in starts && starts[k].MicResolved?
      case UnmuteAnswers(u, _) => u in unmutes && unmutes[u].None?
      case ResumeUnmute(u) => u in unmutes && unmutes[u].Some?
      case _ => true
    }

    method Handle(e: Event)
      requires Valid() && Enabled(e)
      modifies this
      ensures Valid() && Now() == Next(old(Now()), e)
    {
      hide ElectronHost.Valid, Next;
      if e.StartLive? || e.EndLive? || e.SetMuted? || e.SetLink? || e.ReadyTimeout? { HandleRequest(e); }
      else if e.MicAnswers? || e.ResumeMic? { HandleMicrophone(e); }
      else { HandleResumption(e); }
    }

    lemma ValidIsSafe()
      requires Valid()
      ensures Safe()
    {
    }

    /** Every interleaving of any number of requests, link changes and device answers. */
    method Run(events: seq<Event>)
      requires Valid()
      modifies this
      ensures Valid() && Safe() && Now() == After(old(Now()), events)
    {
      hide Next, ElectronHost.Valid, ElectronHost.Safe;
      for i := 0 to |events|
        invariant Valid() && Now() == After(old(Now()), events[..i])
      {
        assert events[..i + 1][..i] == events[..i];
        Step(events[i]);
      }
      assert events[..|events|] == events;
      ValidIsSafe();
    }

    method Step(e: Event)
      requires Valid()
      modifies this
      ensures Valid() && Now() == Next(old(Now()), e)
    {
      hide ElectronHost.Valid;
      if Enabled(e) { Handle(e); }
    }

    method HandleRequest(e: Event)
      requires Valid() && Enabled(e) && (e.StartLive? || e.EndLive? || e.SetMuted? || e.SetLink? || e.ReadyTimeout?)
      modifies this
      ensures Valid() && Now() == Next(old(Now()), e)
    {
      hide ElectronHost.Valid;
      match e
      case StartLive => OnStartLive();
      case EndLive => OnEndLive();
      case SetMuted(wanted) => OnSetMuted(wanted);
      case SetLink(state) => OnSetLink(state);
      case ReadyTimeout => OnReadyTimeout();
    }

    method HandleResumption(e: Event)
      requires Valid() && Enabled(e) && (e.ResumeStart? || e.ResumeReady? || e.UnmuteAnswers? || e.ResumeUnmute?)
      modifies this
      ensures Valid() && Now() == Next(old(Now()), e)
    {
      hide ElectronHost.Valid;
      match e
      case ResumeStart(k, remote) => OnResumeStart(k, remote);
      case ResumeReady(k) => OnResumeReady(k);
      case UnmuteAnswers(u, ok) => OnUnmuteAnswers(u, ok);
      case ResumeUnmute(u) => OnResumeUnmute(u);
    }

    method HandleMicrophone(e: Event)
      requires Valid() && Enabled(e) && (e.MicAnswers? || e.ResumeMic?)
      modifies this
      ensures Valid() && Now() == Next(old(Now()), e)
    {
      hide ElectronHost.Valid;
      match e
      case MicAnswers(k, ok) => OnMicAnswers(k, ok);
      case ResumeMic(k) => OnResumeMic(k);
    }
  }

  /** A first attempt whose microphone the device has opened, with a mute before or after that, and then resumed. */
  function StartMuted(early: bool): seq<Event> {
    if early then [StartLive, ResumeStart(1, false), SetMuted(true), MicAnswers(1, true), ResumeMic(1)]
    else [StartLive, ResumeStart(1, false), MicAnswers(1, true), SetMuted(true), ResumeMic(1)]
  }

  lemma AfterFive(s: Situation, a: Event, b: Event, c: Event, d: Event, e: Event)
    ensures After(s, [a, b, c, d, e]) == Next(Next(Next(Next(Next(s, a), b), c), d), e)
  {
    hide Next;
    assert [a, b, c, d, e][..4] == [a, b, c, d] && [a, b, c, d][..3] == [a, b, c];
    assert [a, b, c][..2] == [a, b] && [a, b][..1] == [a] && [a][..0] == [];
    assert After(s, []) == s && After(s, [a]) == Next(s, a) && After(s, [a, b]) == Next(Next(s, a), b);
    assert After(s, [a, b, c]) == Next(Next(Next(s, a), b), c);
    assert After(s, [a, b, c, d]) == Next(Next(Next(Next(s, a), b), c), d);
  }

  /**
   * The person mutes while a conversation starts: it goes live unmuted all the same, with the
   * microphone open if the mute came before the device answered, and without it otherwise.
   */
  lemma MutedWhileStarting(early: bool)
    ensures var s := After(Idle(), StartMuted(early));
            s.live && !s.muted && s.starts == map[] && s.unmutes == map[] && s.micOpen == early
  {
    var start, resume, answers, mute, goes := StartLive, ResumeStart(1, false), MicAnswers(1, true), SetMuted(true), ResumeMic(1);
    var asked := Next(Next(Idle(), start), resume);
    assert asked.attempt == 1 && asked.starts == map[1 := MicPending] && !asked.live && !asked.muted && !asked.micOpen;
    if early {
      AfterFive(Idle(), start, resume, mute, answers, goes);
      assert Next(Next(asked, mute), answers).starts == map[1 := MicResolved(true)];
    } else {
      AfterFive(Idle(), start, resume, answers, mute, goes);
      assert Next(asked, answers).starts == map[1 := MicResolved(true)];
    }
  }
}
