/**
 * Whether an action may run as asked or needs the person's word first. What is on the
 * screen can talk the model into asking for things; the person's own fresh words are what
 * an action's targets are held against.
 */
module ActionPolicy {
  import opened Wrappers
  import opened Words
  import opened Sites

  datatype Effect = Read | OpenLocal | OpenRemote | Change | Input

  datatype Origin = NamedByModel | Selection

  /** A thing an action is aimed at, with the other ways of saying it; a site's value is its host. */
  datatype Target = Target(value: string, origin: Origin, also: seq<string>, isSite: bool)

  datatype Action = Action(effect: Effect, targets: seq<Target>, consequential: Option<string>)

  datatype Turn = Turn(id: string, text: string, endedAtMs: int)

  datatype Provenance = DirectUser | Mixed | Unknown
  datatype Decision = Allow | Confirm
  datatype Reason = AlwaysAsked(why: string) | Harmless | OwnWords | NotInTheWords | NoRecord
  datatype Verdict = Verdict(provenance: Provenance, decision: Decision, reason: Reason, turnId: Option<string>)

  /** The well-known sites and the shared endings. */
  datatype Tables = Tables(endings: set<string>, sites: seq<KnownSite>)

  const TURN_FRESH_MS := 90_000
  const CLOCK_SLACK_MS := 5_000

  predicate Fresh(turn: Option<Turn>, nowMs: int) {
    turn.Some? && nowMs - turn.value.endedAtMs <= TURN_FRESH_MS && nowMs >= turn.value.endedAtMs - CLOCK_SLACK_MS
  }

  ghost predicate InTheWords(target: Target, words: string, tables: Tables) {
    || target.origin == Selection
    || if target.isSite then SiteNamed(target.value, words, tables.endings, tables.sites)
       else Named(target.value, words) || exists n | 0 <= n < |target.also| :: Named(target.also[n], words)
  }

  ghost function ProvenanceOf(action: Action, turn: Option<Turn>, nowMs: int, tables: Tables): Provenance {
    if !Fresh(turn, nowMs) then Unknown
    else if forall k | 0 <= k < |action.targets| :: InTheWords(action.targets[k], turn.value.text, tables) then DirectUser
    else Mixed
  }

  ghost function Judge(action: Action, turn: Option<Turn>, nowMs: int, tables: Tables): Verdict {
    var provenance := ProvenanceOf(action, turn, nowMs, tables);
    var turnId := if Fresh(turn, nowMs) then Some(turn.value.id) else None;
    if action.consequential.Some? && action.consequential.value != [] then
      Verdict(provenance, Confirm, AlwaysAsked(action.consequential.value), turnId)
    else
      match action.effect
      case Read | OpenLocal => Verdict(provenance, Allow, Harmless, turnId)
      case OpenRemote | Change | Input =>
        if provenance == DirectUser then Verdict(provenance, Allow, OwnWords, turnId)
        else Verdict(provenance, Confirm, if provenance == Mixed then NotInTheWords else NoRecord, turnId)
  }

  /** Look a target up in the words, by its value and then by its other names. */
  method TargetSaid(target: Target, words: string, tables: Tables) returns (said: bool)
    ensures said == InTheWords(target, words, tables)
  {
    if target.origin == Selection { return true; }
    if target.isSite {
      said := SiteSaidIn(target.value, words, tables.endings, tables.sites);
      return said;
    }
    said := SaidIn(target.value, words);
    for n := 0 to |target.also|
      invariant said <==> Named(target.value, words) || exists m | 0 <= m < n :: Named(target.also[m], words)
    {
      if said { return true; }
      said := SaidIn(target.also[n], words);
    }
  }

  method EveryTargetSaid(targets: seq<Target>, words: string, tables: Tables) returns (every: bool)
    ensures every <==> forall k | 0 <= k < |targets| :: InTheWords(targets[k], words, tables)
  {
    for k := 0 to |targets|
      invariant forall j | 0 <= j < k :: InTheWords(targets[j], words, tables)
    {
      var said := TargetSaid(targets[k], words, tables);
      if !said { return false; }
    }
    return true;
  }

  /** The verdict on an action, searching the words of a fresh turn. */
  method Decide(action: Action, turn: Option<Turn>, nowMs: int, tables: Tables) returns (verdict: Verdict)
    ensures verdict == Judge(action, turn, nowMs, tables)
  {
    hide InTheWords;
    var provenance := Unknown;
    if Fresh(turn, nowMs) {
      var every := EveryTargetSaid(action.targets, turn.value.text, tables);
      provenance := if every then DirectUser else Mixed;
    }
    var turnId := if Fresh(turn, nowMs) then Some(turn.value.id) else None;
    if IsConsequential(action) { return Verdict(provenance, Confirm, AlwaysAsked(action.consequential.value), turnId); }
    match action.effect
    case Read | OpenLocal => return Verdict(provenance, Allow, Harmless, turnId);
    case _ =>
      if provenance == DirectUser { return Verdict(provenance, Allow, OwnWords, turnId); }
      return Verdict(provenance, Confirm, if provenance == Mixed then NotInTheWords else NoRecord, turnId);
  }

  /** What can vouch for a target: that it was selected, or the place in the words where it was said. */
  datatype Evidence =
    | Selected
    | SaidAs(name: string, i: nat, j: nat)
    | SpelledAt(cuts: seq<Cut>)
    | OwnDomainOf(site: nat, name: string, i: nat, j: nat)

  /** Words i to j of the text, run together, are the name or its stem. */
  predicate SaidAt(name: string, i: nat, j: nat, words: string) {
    Normalize(name) != [] && RunNames(WordsOf(words), i, j, Wanted(name))
  }

  ghost predicate Vouches(e: Evidence, target: Target, words: string, tables: Tables) {
    match e
    case Selected => target.origin == Selection
    case SaidAs(name, i, j) =>
      !target.isSite && (name == target.value || name in target.also) && SaidAt(name, i, j, words)
    case SpelledAt(cuts) =>
      var site := Site(Labels(target.value), tables.endings);
      && target.isSite && site != []
      && [] !in Normalized(site) && Cuts(WordsOf(SpokenDots(words)), Normalized(site), cuts)
    case OwnDomainOf(s, name, i, j) =>
      var site := Site(Labels(target.value), tables.endings);
      && target.isSite && site != []
      && s < |tables.sites| && Join(site, ".") in tables.sites[s].domains
      && name in tables.sites[s].names && SaidAt(name, i, j, words)
  }

  lemma NamedIsSaid(name: string, words: string)
    ensures Named(name, words) <==> exists i, j :: SaidAt(name, i, j, words)
  {
    if Named(name, words) {
      var said := WordsOf(words);
      var i, j :| 0 <= i < j <= |said| && RunNames(said, i, j, Wanted(name));
      assert SaidAt(name, i, j, words);
    }
    forall i: nat, j: nat | SaidAt(name, i, j, words) ensures Named(name, words) {
      assert RunNames(WordsOf(words), i, j, Wanted(name));
    }
  }

  lemma NamedHasEvidence(target: Target, name: string, words: string, tables: Tables)
    requires !target.isSite && (name == target.value || name in target.also) && Named(name, words)
    ensures exists e :: Vouches(e, target, words, tables)
  {
    NamedIsSaid(name, words);
    var i, j :| SaidAt(name, i, j, words);
    assert Vouches(SaidAs(name, i, j), target, words, tables);
  }

  lemma SiteHasEvidence(target: Target, words: string, tables: Tables)
    requires target.isSite && SiteNamed(target.value, words, tables.endings, tables.sites)
    ensures exists e :: Vouches(e, target, words, tables)
  {
    var site := Site(Labels(target.value), tables.endings);
    if Spelled(site, WordsOf(SpokenDots(words))) {
      var cuts: seq<Cut> :| Cuts(WordsOf(SpokenDots(words)), Normalized(site), cuts);
      assert Vouches(SpelledAt(cuts), target, words, tables);
    } else {
      var s :| 0 <= s < |tables.sites| && KnownBy(tables.sites[s], Join(site, "."), words);
      var n :| 0 <= n < |tables.sites[s].names| && Named(tables.sites[s].names[n], words);
      var name := tables.sites[s].names[n];
      NamedIsSaid(name, words);
      var i, j :| SaidAt(name, i, j, words);
      assert Vouches(OwnDomainOf(s, name, i, j), target, words, tables);
    }
  }

  lemma EvidenceIsInTheWords(e: Evidence, target: Target, words: string, tables: Tables)
    requires Vouches(e, target, words, tables)
    ensures InTheWords(target, words, tables)
  {
    match e
    case Selected =>
    case SaidAs(name, i, j) =>
      NamedIsSaid(name, words);
    case SpelledAt(cuts) =>
      assert Spelled(Site(Labels(target.value), tables.endings), WordsOf(SpokenDots(words)));
    case OwnDomainOf(s, name, i, j) =>
      NamedIsSaid(name, words);
      var n :| 0 <= n < |tables.sites[s].names| && tables.sites[s].names[n] == name;
      assert KnownBy(tables.sites[s], Join(Site(Labels(target.value), tables.endings), "."), words);
  }

  /** The search finds a target in the words exactly when something there vouches for it. */
  lemma InTheWordsIsVouchedFor(target: Target, words: string, tables: Tables)
    ensures InTheWords(target, words, tables) <==> exists e :: Vouches(e, target, words, tables)
  {
    forall e | Vouches(e, target, words, tables) ensures InTheWords(target, words, tables) {
      EvidenceIsInTheWords(e, target, words, tables);
    }
    if InTheWords(target, words, tables) {
      if target.origin == Selection {
        assert Vouches(Selected, target, words, tables);
      } else if target.isSite {
        SiteHasEvidence(target, words, tables);
      } else if Named(target.value, words) {
        NamedHasEvidence(target, target.value, words, tables);
      } else {
        var n :| 0 <= n < |target.also| && Named(target.also[n], words);
        NamedHasEvidence(target, target.also[n], words, tables);
      }
    }
  }

  /** Changes nothing here and sends nothing away. */
  predicate IsHarmless(effect: Effect) {
    effect == Read || effect == OpenLocal
  }

  predicate IsConsequential(action: Action) {
    action.consequential.Some? && action.consequential.value != []
  }

  /** Did the turn end at most ninety seconds ago, or less than five seconds ahead of this clock? */
  ghost predicate Recent(turn: Turn, nowMs: int) {
    turn.endedAtMs - 5_000 <= nowMs <= turn.endedAtMs + 90_000
  }

  /** Evidence in the person's recent words for every target. */
  ghost predicate Covered(action: Action, evidence: seq<Evidence>, turn: Option<Turn>, nowMs: int, tables: Tables) {
    && turn.Some? && Recent(turn.value, nowMs) && |evidence| == |action.targets|
    && forall k | 0 <= k < |evidence| :: Vouches(evidence[k], action.targets[k], turn.value.text, tables)
  }

  lemma {:induction false} CollectEvidence(targets: seq<Target>, words: string, tables: Tables)
    requires forall k | 0 <= k < |targets| :: InTheWords(targets[k], words, tables)
    ensures exists evidence: seq<Evidence> ::
              |evidence| == |targets| && forall k | 0 <= k < |evidence| :: Vouches(evidence[k], targets[k], words, tables)
  {
    hide Vouches, InTheWords;
    if targets == [] {
      var none: seq<Evidence> := [];
      assert |none| == |targets|;
    } else {
      var front := targets[..|targets| - 1];
      CollectEvidence(front, words, tables);
      var evidence: seq<Evidence> :| |evidence| == |front|
        && forall k | 0 <= k < |evidence| :: Vouches(evidence[k], front[k], words, tables);
      InTheWordsIsVouchedFor(targets[|front|], words, tables);
      var e :| Vouches(e, targets[|front|], words, tables);
      var more := evidence + [e];
      assert forall k | 0 <= k < |more| :: Vouches(more[k], targets[k], words, tables);
    }
  }

  /**
   * An action runs unasked exactly when it is not one always asked about and either
   * harmless or covered, target by target, by evidence in the person's fresh words.
   */
  lemma AllowedExactlyOnEvidence(action: Action, turn: Option<Turn>, nowMs: int, tables: Tables)
    ensures Judge(action, turn, nowMs, tables).provenance == DirectUser
            <==> exists evidence :: Covered(action, evidence, turn, nowMs, tables)
    ensures Judge(action, turn, nowMs, tables).provenance == Unknown <==> turn.None? || !Recent(turn.value, nowMs)
    ensures Judge(action, turn, nowMs, tables).decision == Allow
            <==> (&& !IsConsequential(action)
                  && (IsHarmless(action.effect) || exists evidence :: Covered(action, evidence, turn, nowMs, tables)))
  {
    hide Vouches, InTheWords;
    if ProvenanceOf(action, turn, nowMs, tables) == DirectUser {
      CollectEvidence(action.targets, turn.value.text, tables);
      var evidence: seq<Evidence> :| |evidence| == |action.targets|
        && forall k | 0 <= k < |evidence| :: Vouches(evidence[k], action.targets[k], turn.value.text, tables);
      assert Covered(action, evidence, turn, nowMs, tables);
    }
    forall evidence | Covered(action, evidence, turn, nowMs, tables)
      ensures ProvenanceOf(action, turn, nowMs, tables) == DirectUser
    {
      forall k | 0 <= k < |action.targets| ensures InTheWords(action.targets[k], turn.value.text, tables) {
        EvidenceIsInTheWords(evidence[k], action.targets[k], turn.value.text, tables);
      }
    }
  }

  /** Without words of the last ninety seconds nothing is vouched for, and nothing but the harmless runs unasked. */
  lemma OldWordsVouchForNothing(action: Action, turn: Option<Turn>, nowMs: int, tables: Tables)
    ensures var verdict := Judge(action, turn, nowMs, tables);
            if turn.None? || nowMs > turn.value.endedAtMs + 90_000 || nowMs < turn.value.endedAtMs - 5_000
            then && verdict.provenance == Unknown && verdict.turnId == None
                 && (action.effect in {OpenRemote, Change, Input} ==> verdict.decision == Confirm)
            else verdict.provenance != Unknown && verdict.turnId == Some(turn.value.id)
  {
  }

  /** Once the words are too old for an action, they stay so. */
  lemma OldWordsStayOld(action: Action, evidence: seq<Evidence>, turn: Turn, nowMs: int, later: int, tables: Tables)
    requires turn.endedAtMs + 90_000 < nowMs <= later
    ensures !Covered(action, evidence, Some(turn), later, tables)
    ensures Judge(action, Some(turn), later, tables).provenance == Unknown
  {
  }

  /**
   * The reason tells the case apart: always asked about, harmless, all of it said, some of it
   * not said in words that are on record, or no recent words on record.
   */
  lemma ReasonTellsWhy(action: Action, turn: Option<Turn>, nowMs: int, tables: Tables)
    ensures var verdict := Judge(action, turn, nowMs, tables);
            var recorded := turn.Some? && Recent(turn.value, nowMs);
            var covered := exists evidence :: Covered(action, evidence, turn, nowMs, tables);
            && (verdict.reason.AlwaysAsked? <==> IsConsequential(action))
            && (verdict.reason.AlwaysAsked? ==> Some(verdict.reason.why) == action.consequential)
            && (verdict.reason == Harmless <==> !IsConsequential(action) && IsHarmless(action.effect))
            && (!IsConsequential(action) && !IsHarmless(action.effect) ==>
                  && (verdict.reason == OwnWords <==> covered)
                  && (verdict.reason == NotInTheWords <==> recorded && !covered)
                  && (verdict.reason == NoRecord <==> !recorded))
            && (verdict.provenance == Mixed <==> recorded && !covered)
  {
    hide InTheWords, Vouches;
    AllowedExactlyOnEvidence(action, turn, nowMs, tables);
  }

  /** Saying more in the same turn never withdraws what was allowed. */
  lemma SayingMoreStillAllows(action: Action, turn: Turn, before: string, after: string, nowMs: int, tables: Tables)
    requires Judge(action, Some(turn), nowMs, tables).decision == Allow
    ensures var more := turn.(text := before + " " + turn.text + " " + after);
            Judge(action, Some(more), nowMs, tables).decision == Allow
  {
    var more := turn.(text := before + " " + turn.text + " " + after);
    forall k | 0 <= k < |action.targets| && InTheWords(action.targets[k], turn.text, tables)
      ensures InTheWords(action.targets[k], more.text, tables)
    {
      var target := action.targets[k];
      if target.origin == Selection {
      } else if target.isSite {
        SayingMoreStillAsks(target.value, before, turn.text, after, tables.endings, tables.sites);
      } else if Named(target.value, turn.text) {
        SayingMoreStillNames(target.value, before, turn.text, after);
      } else {
        var n :| 0 <= n < |target.also| && Named(target.also[n], turn.text);
        SayingMoreStillNames(target.also[n], before, turn.text, after);
        assert Named(target.also[n], more.text);
      }
    }
  }
}
