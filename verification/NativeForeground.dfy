/**
 * The runtime side of a native voice session: numbering output generations, sequencing
 * speech chunks, interrupting, and binding runtime inputs to the model's answers.
 *
 * The lock makes `Translate`, `InterruptOutput` and the receipt steps atomic; the reader
 * puts what it translated on the output queue one item at a time outside the lock, so an
 * interrupt can come in between.
 */
module NativeForeground {
  import opened Wrappers

  /** A provider event; `key` is its correlation id, else its epoch, else nothing. */
  datatype ProviderEvent = ProviderEvent(kind: Kind, key: Option<string>)

  datatype Kind =
    | ClosedEvent
    | Interrupt
    | Audio(hasPcm: bool, turnFinished: bool)
    | Text(turnFinished: bool)
    | ToolCall
    | Turn(finished: bool)
    | Control

  datatype Output =
    | Chunk(generation: nat, sequence: nat)
    | Cancel(generation: nat, cancelled: nat)
    | Done(generation: nat)
    | ModelEvent(unit: nat, generation: nat)
    | Stopped(generation: nat) // the provider failed, and nothing more is read

  // ---- what each event makes of a session -------------------------------------------------

  /** Numbering and speaking. */
  datatype Voice = Voice(generation: nat, keys: map<string, nat>, sequence: nat, drained: bool, turnEnded: bool)

  /** The runtime's inputs: those waiting, and those kept for the model event that answered them. */
  datatype Inputs = Inputs(unit: nat, pending: seq<nat>, receipts: map<nat, nat>, pushed: nat)

  datatype Situation = Situation(closed: bool, reading: bool, voice: Voice, inputs: Inputs, staged: seq<Output>, outputs: seq<Output>)

  function Begun(): Situation {
    Situation(false, true, Voice(0, map[], 0, true, true), Inputs(0, [], map[], 0), [], [])
  }

  /** The next generation, which the key names from here on. */
  function Advanced(v: Voice, key: Option<string>): Voice {
    var g := v.generation + 1;
    v.(generation := g, keys := if key.Some? then v.keys[key.value := g] else v.keys, sequence := 0)
  }

  /** Whatever was playing is over. */
  function Retired(v: Voice, key: Option<string>): Voice {
    Advanced(v, key).(drained := true, turnEnded := true)
  }

  /** With a generation for the key. */
  function Placed(v: Voice, key: Option<string>): Voice {
    match key
    case None => v.(generation := Max(v.generation, 1))
    case Some(k) => if k in v.keys then v else Advanced(v, key)
  }

  function GenerationOf(v: Voice, key: Option<string>): nat {
    if key.Some? && key.value in v.keys then v.keys[key.value] else v.generation
  }

  function Spoken(v: Voice, kind: Kind): Voice {
    match kind
    case Audio(true, finished) => v.(sequence := v.sequence + 1, drained := finished, turnEnded := finished)
    case Text(finished) => v.(turnEnded := finished)
    case ToolCall => v.(turnEnded := false)
    case Turn(finished) => v.(turnEnded := finished, drained := v.drained || finished)
    case _ => v
  }

  /** Does the event bring a unit of model output? */
  predicate IsAnswer(kind: Kind) {
    kind.Text? || kind.ToolCall? || kind == Turn(true)
  }

  /** One more unit of model output: the oldest waiting receipt is what it answers, and is kept to be handed out. */
  function Answered(i: Inputs): Inputs {
    var u := i.unit + 1;
    if i.pending == [] then i.(unit := u)
    else i.(unit := u, pending := i.pending[1..], receipts := i.receipts[u := i.pending[0]])
  }

  function OutputsFor(v: Voice, unit: nat, kind: Kind, g: nat): seq<Output> {
    match kind
    case Audio(true, finished) => if finished then [Chunk(g, v.sequence + 1), Done(g)] else [Chunk(g, v.sequence + 1)]
    case Text(_) => [ModelEvent(unit + 1, g)]
    case ToolCall => [ModelEvent(unit + 1, g)]
    case Turn(true) => if v.drained then [ModelEvent(unit + 1, g)] else [Done(g), ModelEvent(unit + 1, g)]
    case _ => []
  }

  function Translated(s: Situation, event: ProviderEvent): Situation {
    match event.kind
    case ClosedEvent => s.(closed := true, voice := s.voice.(drained := true, turnEnded := true))
    case Interrupt => s.(voice := Retired(s.voice, event.key), inputs := Answered(s.inputs))
    case _ =>
      s.(voice := Spoken(Placed(s.voice, event.key), event.kind),
         inputs := if IsAnswer(event.kind) then Answered(s.inputs) else s.inputs)
  }

  function OutputsOf(s: Situation, event: ProviderEvent): seq<Output> {
    match event.kind
    case ClosedEvent => []
    case Interrupt =>
      var g := s.voice.generation;
      [Cancel(g + 1, g), ModelEvent(s.inputs.unit + 1, g + 1)]
    case _ =>
      var placed := Placed(s.voice, event.key);
      OutputsFor(placed, s.inputs.unit, event.kind, GenerationOf(placed, event.key))
  }

  /** Audio without samples is a TypeError. */
  predicate CanTranslate(kind: Kind) {
    kind != Audio(false, true) && kind != Audio(false, false)
  }

  /** The reader took an event: its outputs are staged, or the reader has ended. */
  function Taken(s: Situation, event: ProviderEvent): Situation {
    Translated(s, event).(staged := OutputsOf(s, event), reading := CanTranslate(event.kind))
  }

  function Interrupted(s: Situation): Situation {
    var g := s.voice.generation;
    if s.closed then s else s.(voice := Retired(s.voice, None), outputs := s.outputs + [Cancel(g + 1, g)])
  }

  function Pushed(i: Inputs): Inputs {
    i.(pending := i.pending + [i.pushed], pushed := i.pushed + 1)
  }

  /** The receipt of a model event was asked for. */
  function Released(i: Inputs, u: nat): Inputs {
    i.(receipts := i.receipts - {u})
  }

  /** The push of this receipt failed. */
  function Failed(i: Inputs, receipt: nat): Inputs {
    var n := |i.pending|;
    if n > 0 && i.pending[n - 1] == receipt then i.(pending := i.pending[..n - 1]) else i
  }

  /** A chunk as translated; `current`: its generation was the current one. */
  datatype Emitted = Emitted(generation: nat, sequence: nat, current: bool)

  /** The chunks among some outputs, translated while this was the current generation. */
  ghost function EmittedIn(outputs: seq<Output>, current: nat): seq<Emitted> {
    if outputs == [] then []
    else
      var o := outputs[|outputs| - 1];
      EmittedIn(outputs[..|outputs| - 1], current)
      + if o.Chunk? then [Emitted(o.generation, o.sequence, o.generation == current)] else []
  }

  lemma EmittedInTwo(a: Output, b: Output, current: nat)
    ensures EmittedIn([a], current) == if a.Chunk? then [Emitted(a.generation, a.sequence, a.generation == current)] else []
    ensures !b.Chunk? ==> EmittedIn([a, b], current) == EmittedIn([a], current)
    ensures EmittedIn([], current) == []
  {
    assert [a][..0] == [] && [a, b][..1] == [a];
  }

  ghost predicate CurrentChunksRise(emitted: seq<Emitted>) {
    forall i, j | 0 <= i < j < |emitted| && emitted[i].current && emitted[j].current
                  && emitted[i].generation == emitted[j].generation ::
      emitted[i].sequence < emitted[j].sequence
  }

  ghost predicate Rising(s: seq<nat>) {
    forall i, j | 0 <= i < j < |s| :: s[i] < s[j]
  }

  /** Later model events answer later receipts. */
  ghost predicate BoundInOrder(bound: map<nat, nat>) {
    forall u, v | u in bound && v in bound && u < v :: bound[u] < bound[v]
  }

  /** Keys name distinct generations in 1..current, and whatever was cancelled is below the current one. */
  ghost predicate NumberedAs(generation: nat, keys: map<string, nat>, cancels: set<nat>) {
    && (forall k | k in keys :: 1 <= keys[k] <= generation)
    && (forall j, k | j in keys && k in keys && keys[j] == keys[k] :: j == k)
    && (forall c | c in cancels :: c < generation)
  }

  /** Sequence numbers rise within a generation while it is current. */
  ghost predicate SequencedAs(generation: nat, sequence: nat, emitted: seq<Emitted>) {
    && CurrentChunksRise(emitted)
    && (forall i | 0 <= i < |emitted| :: 1 <= emitted[i].generation <= generation)
    && (forall i | 0 <= i < |emitted| && emitted[i].current && emitted[i].generation == generation ::
          emitted[i].sequence <= sequence)
  }

  lemma NextGenerationKeeps(generation: nat, sequence: nat, emitted: seq<Emitted>)
    requires SequencedAs(generation, sequence, emitted)
    ensures SequencedAs(generation + 1, 0, emitted)
  {
  }

  /** A chunk of any generation; a late one of an old generation uses up a number too. */
  lemma ChunkKeeps(generation: nat, sequence: nat, emitted: seq<Emitted>, g: nat)
    requires SequencedAs(generation, sequence, emitted) && 1 <= g <= generation
    ensures SequencedAs(generation, sequence + 1, emitted + [Emitted(g, sequence + 1, g == generation)])
  {
    var after := emitted + [Emitted(g, sequence + 1, g == generation)];
    assert forall i | 0 <= i < |emitted| :: after[i] == emitted[i];
  }

  /** What was withdrawn for its own failure neither waits nor answers anything. */
  ghost predicate Withdrawn(pending: seq<nat>, pushed: nat, bound: map<nat, nat>, failed: set<nat>) {
    && (forall r | r in failed :: r < pushed && r !in pending)
    && (forall u | u in bound :: bound[u] !in failed)
  }

  lemma WithdrawnStays(pending: seq<nat>, pushed: nat, unit: nat, bound: map<nat, nat>, failed: set<nat>)
    requires Withdrawn(pending, pushed, bound, failed)
    ensures Withdrawn(pending + [pushed], pushed + 1, bound, failed)
    ensures pending != [] ==> Withdrawn(pending[1..], pushed, bound[unit := pending[0]], failed)
  {
    assert pending != [] ==> pending[0] in pending;
  }

  lemma FrontIsNotWithdrawn(pending: seq<nat>, pushed: nat, unit: nat, bound: map<nat, nat>, failed: set<nat>)
    requires Withdrawn(pending, pushed, bound, failed) && Accounted(pending, pushed, unit, bound, failed)
    ensures unit + 1 !in bound && (pending != [] ==> pending[0] in pending && pending[0] !in failed)
  {
  }

  lemma WithdrawnGrows(pending: seq<nat>, pushed: nat, unit: nat, bound: map<nat, nat>, failed: set<nat>)
    requires Withdrawn(pending, pushed, bound, failed) && Accounted(pending, pushed, unit, bound, failed) && pending != []
    ensures Withdrawn(pending[..|pending| - 1], pushed, bound, failed + {pending[|pending| - 1]})
  {
    assert forall u | u in bound :: bound[u] < pending[|pending| - 1];
  }

  /** Each pushed receipt waits, or is bound to one model event in push order, or was withdrawn by its own failure. */
  ghost predicate Accounted(pending: seq<nat>, pushed: nat, unit: nat, bound: map<nat, nat>, failed: set<nat>) {
    && Rising(pending) && BoundInOrder(bound)
    && (forall i | 0 <= i < |pending| :: pending[i] < pushed)
    && (forall u | u in bound :: u <= unit && bound[u] < pushed)
    && (forall u, j | u in bound && 0 <= j < |pending| :: bound[u] < pending[j])
    && (forall r: nat | r < pushed :: r in pending || r in failed || r in bound.Values)
  }

  lemma BindKeeps(pending: seq<nat>, pushed: nat, unit: nat, bound: map<nat, nat>, failed: set<nat>)
    requires Accounted(pending, pushed, unit, bound, failed) && pending != []
    ensures Accounted(pending[1..], pushed, unit + 1, bound[unit + 1 := pending[0]], failed)
  {
    var after := bound[unit + 1 := pending[0]];
    assert after[unit + 1] in after.Values;
    forall r: nat | r < pushed ensures r in pending[1..] || r in failed || r in after.Values {
      assert pending == [pending[0]] + pending[1..];
      if r in bound.Values {
        var u :| u in bound && bound[u] == r;
        assert u in after && after[u] == r;
      }
    }
  }

  lemma UnitGoesOn(pending: seq<nat>, pushed: nat, unit: nat, bound: map<nat, nat>, failed: set<nat>)
    requires Accounted(pending, pushed, unit, bound, failed)
    ensures Accounted(pending, pushed, unit + 1, bound, failed) && unit + 1 !in bound
  {
  }

  lemma PushKeeps(pending: seq<nat>, pushed: nat, unit: nat, bound: map<nat, nat>, failed: set<nat>)
    requires Accounted(pending, pushed, unit, bound, failed)
    ensures Accounted(pending + [pushed], pushed + 1, unit, bound, failed)
  {
    assert pushed in pending + [pushed];
  }

  lemma WithdrawKeeps(pending: seq<nat>, pushed: nat, unit: nat, bound: map<nat, nat>, failed: set<nat>)
    requires Accounted(pending, pushed, unit, bound, failed) && pending != []
    ensures Accounted(pending[..|pending| - 1], pushed, unit, bound, failed + {pending[|pending| - 1]})
  {
    assert pending == pending[..|pending| - 1] + [pending[|pending| - 1]];
  }

  /** A pushed receipt is bound exactly when it neither waits nor was withdrawn. */
  lemma BoundOrNot(pending: seq<nat>, pushed: nat, unit: nat, bound: map<nat, nat>, failed: set<nat>)
    requires Withdrawn(pending, pushed, bound, failed) && Accounted(pending, pushed, unit, bound, failed)
    ensures forall u | u in bound :: bound[u] < pushed && bound[u] !in pending && bound[u] !in failed
    ensures forall r: nat | r < pushed && r !in pending && r !in failed :: exists u :: u in bound && bound[u] == r
  {
    forall r: nat | r < pushed && r !in pending && r !in failed ensures exists u :: u in bound && bound[u] == r {
      assert r in bound.Values;
    }
  }

  class Session {
    var closed: bool
    var generation: nat
    var keys: map<string, nat>
    var sequence: nat
    var unit: nat
    var drained: bool
    var turnEnded: bool
    var pending: seq<nat>
    var receipts: map<nat, nat>
    /** Number of receipts pushed so far; each push makes a receipt of its own. */
    var pushed: nat
    /** Translated by the reader but not yet on the queue. */
    var staged: seq<Output>
    var outputs: seq<Output>
    /** The generations interrupts have cancelled. */
    ghost var cancels: set<nat>
    ghost var emitted: seq<Emitted>
    /** The receipt each model event answered, if any. */
    ghost var bound: map<nat, nat>
    /** The receipts withdrawn because their push failed, and those whose push failed too late for that. */
    ghost var failed: set<nat>
    ghost var late: set<nat>
    /** The model events whose receipt has been asked for. */
    ghost var taken: set<nat>
    /** Whether the reader still takes events. */
    var reading: bool

    constructor ()
      ensures Valid() && Now() == Begun()
      ensures cancels == {} && emitted == [] && bound == map[] && failed == late == taken == {}
    {
      closed, generation, keys, sequence, unit, drained, turnEnded := false, 0, map[], 0, 0, true, true;
      pending, receipts, pushed, staged, outputs := [], map[], 0, [], [];
      cancels, emitted, bound, failed, late, taken, reading := {}, [], map[], {}, {}, {}, true;
    }

    ghost function VoiceNow(): Voice
      reads this`generation, this`keys, this`sequence, this`drained, this`turnEnded
    {
      Voice(generation, keys, sequence, drained, turnEnded)
    }

    ghost function InputsNow(): Inputs
      reads this`unit, this`pending, this`receipts, this`pushed
    {
      Inputs(unit, pending, receipts, pushed)
    }

    ghost function Now(): Situation
      reads this
    {
      Situation(closed, reading, VoiceNow(), InputsNow(), staged, outputs)
    }

    ghost predicate Numbered()
      reads this`generation, this`keys, this`cancels
    {
      NumberedAs(generation, keys, cancels)
    }

    ghost predicate Sequenced()
      reads this`generation, this`sequence, this`emitted
    {
      SequencedAs(generation, sequence, emitted)
    }

    ghost predicate Receipted()
      reads this`pending, this`receipts, this`pushed, this`unit, this`bound, this`failed, this`late, this`taken
    {
      && Accounted(pending, pushed, unit, bound, failed)
      && Withdrawn(pending, pushed, bound, failed)
      && (forall r | r in late :: r < pushed)
      // Kept to be handed out are the receipts of all model events that answered one, until asked for.
      && taken <= bound.Keys && receipts.Keys == bound.Keys - taken
      && (forall u | u in receipts :: receipts[u] == bound[u])
    }

    ghost predicate Valid()
      reads this
    {
      Numbered() && Sequenced() && Receipted()
    }

    /** Start the next generation. */
    method Advance(key: Option<string>, interrupted: bool)
      requires Numbered() && Sequenced()
      modifies this`generation, this`keys, this`sequence, this`cancels
      ensures Numbered() && Sequenced()
      ensures VoiceNow() == Advanced(old(VoiceNow()), key)
      ensures cancels == old(cancels) + if interrupted then {old(generation)} else {}
    {
      NextGenerationKeeps(generation, sequence, emitted);
      if interrupted { cancels := cancels + {generation}; }
      generation := generation + 1;
      if key.Some? { keys := keys[key.value := generation]; }
      sequence := 0;
    }

    /** The generation an event belongs to. */
    method GenerationFor(key: Option<string>) returns (g: nat)
      requires Numbered() && Sequenced()
      modifies this`generation, this`keys, this`sequence, this`cancels
      ensures Numbered() && Sequenced()
      ensures VoiceNow() == Placed(old(VoiceNow()), key) && g == GenerationOf(VoiceNow(), key)
      ensures 1 <= g <= generation && cancels == old(cancels)
      ensures key.Some? ==> key.value in keys
    {
      if key.None? {
        if generation == 0 {
          generation := 1;
        }
        return generation;
      }
      if key.value in keys { return keys[key.value]; }
      Advance(key, false);
      return generation;
    }

    /** A unit of model output; the oldest waiting input is what it answers. */
    method MakeModelEvent(g: nat) returns (event: Output)
      requires Receipted()
      modifies this`unit, this`pending, this`receipts, this`bound
      ensures Receipted()
      ensures InputsNow() == Answered(old(InputsNow())) && event == ModelEvent(old(unit) + 1, g)
      ensures bound == if old(pending) == [] then old(bound) else old(bound)[unit := old(pending)[0]]
      // It answers an undelivered input exactly when the oldest one waiting failed too late.
      ensures old(OnlyDeliveredAnswered()) ==> (OnlyDeliveredAnswered() <==> old(pending) == [] || old(pending)[0] !in late)
    {
      hide Accounted, Withdrawn;
      FrontIsNotWithdrawn(pending, pushed, unit, bound, failed);
      UnitGoesOn(pending, pushed, unit, bound, failed);
      unit := unit + 1;
      event := ModelEvent(unit, g);
      if pending != [] {
        var receipt := pending[0];
        BindKeeps(pending, pushed, unit - 1, bound, failed);
        WithdrawnStays(pending, pushed, unit, bound, failed);
        pending := pending[1..];
        receipts := receipts[unit := receipt];
        bound := bound[unit := receipt];
        assert unit in bound && bound[unit] == receipt;
      }
    }

    /**
     * An interrupt retires the generation that was playing. Its key, if any, names the new
     * generation, even when it named an older one before.
     */
    method RetireGeneration(key: Option<string>) returns (out: seq<Output>)
      requires Valid()
      modifies this`generation, this`keys, this`sequence, this`cancels, this`drained, this`turnEnded,
               this`unit, this`pending, this`receipts, this`bound
      ensures Valid()
      ensures VoiceNow() == Retired(old(VoiceNow()), key) && InputsNow() == Answered(old(InputsNow()))
      ensures var g, u := old(VoiceNow()).generation, old(InputsNow()).unit;
              out == [Cancel(g + 1, g), ModelEvent(u + 1, g + 1)] && generation == old(generation) + 1
      ensures EmittedIn(out, generation) == []
      ensures cancels == old(cancels) + {old(generation)}
      ensures bound == if old(pending) == [] then old(bound) else old(bound)[unit := old(pending)[0]]
    {
      hide NumberedAs, SequencedAs, Accounted, Withdrawn, EmittedIn, Session.OnlyDeliveredAnswered;
      var cancelled := generation;
      Advance(key, true);
      drained, turnEnded := true, true;
      var answer := MakeModelEvent(generation);
      EmittedInTwo(Cancel(generation, cancelled), answer, generation);
      out := [Cancel(generation, cancelled), answer];
    }

    method SpeakChunk(g: nat, turnFinished: bool) returns (out: seq<Output>)
      requires Valid() && 1 <= g <= generation
      modifies this`sequence, this`emitted, this`drained, this`turnEnded
      ensures Valid() && VoiceNow() == Spoken(old(VoiceNow()), Audio(true, turnFinished))
      ensures out == OutputsFor(old(VoiceNow()), unit, Audio(true, turnFinished), g)
      ensures emitted == old(emitted) + EmittedIn(out, generation)
    {
      hide EmittedIn, NumberedAs, SequencedAs, Session.Receipted;
      EmittedInTwo(Chunk(g, sequence + 1), Done(g), generation);
      ChunkKeeps(generation, sequence, emitted, g);
      sequence := sequence + 1;
      emitted := emitted + [Emitted(g, sequence, g == generation)];
      drained, turnEnded := turnFinished, turnFinished;
      out := if turnFinished then [Chunk(g, sequence), Done(g)] else [Chunk(g, sequence)];
    }

    /** Text, a tool call, or the end of a turn: one unit of model output. */
    method SpeakUnit(kind: Kind, g: nat) returns (out: seq<Output>)
      requires Valid() && IsAnswer(kind)
      modifies this`drained, this`turnEnded, this`unit, this`pending, this`receipts, this`bound
      ensures Valid()
      ensures VoiceNow() == Spoken(old(VoiceNow()), kind) && InputsNow() == Answered(old(InputsNow()))
      ensures out == OutputsFor(old(VoiceNow()), old(unit), kind, g)
      ensures EmittedIn(out, generation) == []
    {
      hide EmittedIn, Session.Numbered, Session.Sequenced, Session.Receipted, Session.OnlyDeliveredAnswered, Answered;
      EmittedInTwo(ModelEvent(unit + 1, g), Done(g), generation);
      EmittedInTwo(Done(g), ModelEvent(unit + 1, g), generation);
      var answer := MakeModelEvent(g);
      out := [answer];
      match kind
      case Text(turnFinished) => turnEnded := turnFinished;
      case ToolCall => turnEnded := false;
      case Turn(_) =>
        if !drained { out := [Done(g), answer]; }
        drained, turnEnded := true, true;
    }

    /** The outputs for an event of generation g, other than an interrupt or a close. */
    method TranslateFor(kind: Kind, g: nat) returns (out: seq<Output>, ok: bool)
      requires Valid() && 1 <= g <= generation
      modifies this`sequence, this`emitted, this`drained, this`turnEnded,
               this`unit, this`pending, this`receipts, this`bound
      ensures Valid()
      ensures ok <==> CanTranslate(kind)
      ensures VoiceNow() == Spoken(old(VoiceNow()), kind) && out == OutputsFor(old(VoiceNow()), old(unit), kind, g)
      ensures InputsNow() == if IsAnswer(kind) then Answered(old(InputsNow())) else old(InputsNow())
      ensures emitted == old(emitted) + EmittedIn(out, generation)
    {
      hide EmittedIn, Session.Numbered, Session.Sequenced, Session.Receipted, Answered;
      EmittedInTwo(Done(g), Done(g), generation);
      out, ok := [], true;
      if kind.Audio? {
        ok := kind.hasPcm; // without samples a TypeError, which ends the reader
        if kind.hasPcm { out := SpeakChunk(g, kind.turnFinished); }
      } else if IsAnswer(kind) {
        out := SpeakUnit(kind, g);
      } else if kind.Turn? {
        turnEnded := false;
      }
    }

    method TranslateOther(event: ProviderEvent) returns (out: seq<Output>, ok: bool)
      requires Valid() && event.kind != ClosedEvent && event.kind != Interrupt
      modifies this`generation, this`keys, this`sequence, this`cancels, this`emitted, this`drained, this`turnEnded,
               this`unit, this`pending, this`receipts, this`bound
      ensures Valid() && cancels == old(cancels)
      ensures Now() == Translated(old(Now()), event) && out == OutputsOf(old(Now()), event)
      ensures emitted == old(emitted) + EmittedIn(out, generation)
      ensures ok <==> CanTranslate(event.kind)
    {
      hide NumberedAs, SequencedAs, Accounted, Withdrawn, EmittedIn, Session.OnlyDeliveredAnswered,
           Session.Numbered, Session.Sequenced, Session.Receipted, Spoken, OutputsFor, Placed, GenerationOf, Answered, Retired;
      var g := GenerationFor(event.key);
      out, ok := TranslateFor(event.kind, g);
    }

    /** The provider closed. */
    method Close()
      requires Valid()
      modifies this`closed, this`drained, this`turnEnded
      ensures Valid() && closed && VoiceNow() == old(VoiceNow()).(drained := true, turnEnded := true)
    {
      closed, drained, turnEnded := true, true, true;
    }

    /** One provider event becomes the outputs the reader will queue. */
    method Translate(event: ProviderEvent) returns (out: seq<Output>, ok: bool)
      requires Valid()
      modifies this
      ensures Valid()
      ensures Now() == Translated(old(Now()), event) && out == OutputsOf(old(Now()), event)
      ensures ok <==> CanTranslate(event.kind)
      ensures cancels == old(cancels) + if event.kind == Interrupt then {old(generation)} else {}
      ensures emitted == old(emitted) + EmittedIn(out, generation)
      ensures taken == old(taken) && failed == old(failed) && late == old(late)
    {
      hide NumberedAs, SequencedAs, Accounted, Withdrawn, EmittedIn, Session.OnlyDeliveredAnswered,
           Session.Numbered, Session.Sequenced, Session.Receipted, Spoken, OutputsFor, Placed, GenerationOf, Answered, Retired,
           Session.VoiceNow, Session.InputsNow;
      EmittedInTwo(Done(0), Done(0), generation);
      if event.kind == ClosedEvent {
        Close();
        return [], true;
      }
      if event.kind == Interrupt {
        out := RetireGeneration(event.key);
        return out, true;
      }
      out, ok := TranslateOther(event);
    }

    /** The reader took an event from the provider; one it cannot translate ends it. */
    method ReadEvent(event: ProviderEvent)
      requires Valid() && reading && !closed && staged == []
      modifies this
      ensures Valid() && Now() == Taken(old(Now()), event)
      ensures old(generation) <= generation <= old(generation) + 1
      ensures cancels == old(cancels) + if event.kind == Interrupt then {old(generation)} else {}
      ensures emitted == old(emitted) + EmittedIn(staged, generation)
      ensures taken == old(taken) && failed == old(failed) && late == old(late)
      ensures forall i | 0 <= i < |staged| && staged[i].Cancel? :: staged[i].cancelled in cancels
    {
      hide NumberedAs, SequencedAs, Accounted, Withdrawn, EmittedIn, Session.OnlyDeliveredAnswered,
           Session.Numbered, Session.Sequenced, Session.Receipted, Answered;
      var out, ok := Translate(event);
      staged := out;
      reading := ok;
    }

    /** The provider failed: the reader says so and ends. */
    method ReaderFails()
      requires Valid() && reading && !closed && staged == []
      modifies this`outputs, this`reading
      ensures Valid() && Now() == old(Now()).(reading := false, outputs := old(outputs) + [Stopped(generation)])
    {
      outputs := outputs + [Stopped(generation)];
      reading := false;
    }

    /** The reader puts one translated output on the queue. */
    method PutStaged()
      requires Valid() && staged != []
      modifies this`staged, this`outputs
      ensures Valid() && Now() == old(Now()).(staged := old(staged)[1..], outputs := old(outputs) + [old(staged)[0]])
    {
      outputs := outputs + [staged[0]];
      staged := staged[1..];
    }

    /** Cancel the output that is playing, on the runtime's own initiative. */
    method InterruptOutput()
      requires Valid()
      modifies this`generation, this`keys, this`sequence, this`cancels, this`drained, this`turnEnded, this`outputs
      ensures Valid() && Now() == Interrupted(old(Now()))
      ensures cancels == old(cancels) + if closed then {} else {old(generation)}
    {
      hide Session.Numbered, Session.Sequenced, Session.Receipted;
      if closed { return; }
      var cancelled := generation;
      Advance(None, true);
      drained, turnEnded := true, true;
      outputs := outputs + [Cancel(generation, cancelled)];
    }

    // ---- runtime inputs ---------------------------------------------------------------

    method PushInput() returns (receipt: nat)
      requires Valid() && !closed
      modifies this`pending, this`pushed
      ensures Valid()
      ensures receipt == old(pushed) && InputsNow() == Pushed(old(InputsNow()))
    {
      PushKeeps(pending, pushed, unit, bound, failed);
      WithdrawnStays(pending, pushed, unit, bound, failed);
      receipt := pushed;
      pending := pending + [receipt];
      pushed := pushed + 1;
    }

    /** The push of this receipt failed: it is withdrawn if it is still the last one waiting, and else stays. */
    method PushFailed(receipt: nat)
      requires Valid() && receipt < pushed
      modifies this`pending, this`failed, this`late
      ensures Valid()
      ensures if old(pending) != [] && old(pending)[|old(pending)| - 1] == receipt
              then failed == old(failed) + {receipt} && late == old(late)
              else failed == old(failed) && late == old(late) + ({receipt} - failed)
      ensures InputsNow() == Failed(old(InputsNow()), receipt)
      // It undoes what was delivered exactly when the input was answered before its push failed.
      ensures old(OnlyDeliveredAnswered()) ==> (OnlyDeliveredAnswered() <==> receipt in old(pending) || receipt in old(failed))
    {
      hide NumberedAs, SequencedAs, Accounted, Withdrawn;
      BoundOrNot(pending, pushed, unit, bound, failed);
      if pending != [] && pending[|pending| - 1] == receipt {
        WithdrawKeeps(pending, pushed, unit, bound, failed);
        WithdrawnGrows(pending, pushed, unit, bound, failed);
        pending := pending[..|pending| - 1];
        failed := failed + {receipt};
      } else {
        late := late + ({receipt} - failed);
      }
    }

    /** No model event answers an input whose push failed. */
    ghost predicate OnlyDeliveredAnswered()
      reads this`bound, this`failed, this`late
    {
      forall u | u in bound :: bound[u] !in failed + late
    }

    /** Only delivered inputs are answered exactly while every input that failed too late still waits, or was withdrawn after all. */
    lemma AnsweredWereDelivered()
      requires Valid()
      ensures OnlyDeliveredAnswered() <==> forall r | r in late :: r in pending || r in failed
    {
      hide NumberedAs, SequencedAs, Accounted, Withdrawn;
      BoundOrNot(pending, pushed, unit, bound, failed);
    }

    /** Hand out the receipt a model event answered: the first time it is asked for, and never again. */
    method TakeReceipt(u: nat) returns (receipt: Option<nat>)
      requires Valid()
      modifies this`receipts, this`taken
      ensures Valid()
      ensures receipt == if u in bound && u !in old(taken) then Some(bound[u]) else None
      ensures taken == if u in bound then old(taken) + {u} else old(taken)
      ensures InputsNow() == Released(old(InputsNow()), u)
    {
      hide NumberedAs, SequencedAs, Accounted, Withdrawn;
      if u in bound { taken := taken + {u}; }
      if u !in receipts { return None; }
      receipt := Some(receipts[u]);
      receipts := receipts - {u};
    }
  }

  /** Two inputs are pushed, the first one's push fails after that, and the model's next answer is bound to it. */
  method UndeliveredInputAnswered(g: nat) returns (session: Session, event: Output)
    ensures event.ModelEvent? && event.unit in session.bound && session.bound[event.unit] in session.late
    ensures !session.OnlyDeliveredAnswered()
  {
    hide Session.Numbered, Session.Sequenced, Accounted, Withdrawn, Session.VoiceNow;
    session := new Session();
    var first := session.PushInput();
    var second := session.PushInput();
    session.PushFailed(first);
    event := session.MakeModelEvent(g);
  }
}
