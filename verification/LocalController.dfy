/**
 * The bounded local loop and the router in front of it: a request that ran anything here
 * is never run again elsewhere.
 */
module LocalController {
  import opened Wrappers
  import opened BoundedValues

  datatype Decision =
    | UseTool(tool: string, args: seq<Field>, confidence: Option<real>) // None: not a finite number
    | Finish(message: Option<string>)
    | GiveUp(reason: Option<string>)
    | Threw

  /** The ids of a request and of its calls: the time, a counter, and for a call its step from 1. */
  datatype RequestId = RequestId(nowMs: int, counter: nat)
  datatype TurnId = ControllerTurn(request: RequestId) | RouterTurn(request: RequestId)
  datatype CallId = ControllerCall(request: RequestId, number: nat) | RouterCall(request: RequestId)

  datatype Effect =
    | Record(turn: TurnId, text: string, endedAtMs: int)
    | Run(call: CallId, turn: TurnId, tool: string, args: seq<Field>)
    | Answer(text: string)
    | Elsewhere // the foreground model's path

  datatype TurnResult = Ok(turn: TurnId) | Failed(reason: string) | FromElsewhere

  datatype Exchange = Exchange(tool: string, args: seq<Field>, result: seq<Field>)

  /** JavaScript's trim, of ASCII. */
  function Trim(text: string): string {
    Stripped(text, c => c == ' ' || '\t' <= c <= '\r')
  }

  /** A trimmed text, or nothing if that leaves nothing. */
  function Said(text: Option<string>): Option<string> {
    if text.Some? && Trim(text.value) != [] then Some(Trim(text.value)) else None
  }

  function Get(fields: seq<Field>, key: string): Option<Value> {
    if fields == [] then None
    else if fields[0].key == key then Some(fields[0].value)
    else Get(fields[1..], key)
  }

  predicate IsDone(result: seq<Field>) {
    Get(result, "status") == Some(Str("done"))
  }

  function MessageOf(result: seq<Field>, default: string): string {
    match Get(result, "message")
    case Some(Str(text)) => text
    case _ => default
  }

  /** The value of a key is that of its first field. */
  lemma {:induction false} GetMeans(fields: seq<Field>, key: string, k: nat)
    requires k <= |fields| && forall j | 0 <= j < k :: fields[j].key != key
    requires k < |fields| ==> fields[k].key == key
    ensures Get(fields, key) == if k < |fields| then Some(fields[k].value) else None
  {
    if k > 0 { GetMeans(fields[1..], key, k - 1); }
  }

  /** A call came back done exactly if its status says so; what is said of one that did not is its message, if that is a text. */
  lemma DoneMeans(result: seq<Field>, k: nat)
    requires k <= |result| && forall j | 0 <= j < k :: result[j].key != "status"
    requires k < |result| ==> result[k].key == "status"
    ensures IsDone(result) <==> k < |result| && result[k].value == Str("done")
  {
    GetMeans(result, "status", k);
  }

  lemma MessageMeans(result: seq<Field>, k: nat, default: string)
    requires k <= |result| && forall j | 0 <= j < k :: result[j].key != "message"
    requires k < |result| ==> result[k].key == "message"
    ensures MessageOf(result, default) == if k < |result| && result[k].value.Str? then result[k].value.text else default
  {
    GetMeans(result, "message", k);
  }

  /** Trimming takes away just the white space at both ends; a blank text says nothing. */
  lemma TrimMeans(text: string) returns (lead: string, trail: string)
    ensures text == lead + Trim(text) + trail
    ensures forall c | c in lead || c in trail :: c == ' ' || '\t' <= c <= '\r'
    ensures var said := Trim(text);
            said != [] ==> !(said[0] == ' ' || '\t' <= said[0] <= '\r') && !(said[|said| - 1] == ' ' || '\t' <= said[|said| - 1] <= '\r')
    ensures Said(Some(text)) == if Trim(text) == [] then None else Some(Trim(text))
  {
    lead, trail := StrippedMeans(text, c => c == ' ' || '\t' <= c <= '\r');
  }

  const STOPPED := "GNSIS 0.5 stopped after beginning this task."
  const NOT_SAFE := "GNSIS 0.5 could not safely finish this task."
  const NOT_CONFIDENT := "GNSIS 0.5 was not confident enough to continue safely."
  const NOT_OFFERED := "GNSIS 0.5 proposed an action this Mac did not offer."
  const NOT_COMPLETED := "The local action could not be completed."
  const STEP_LIMIT := "GNSIS 0.5 reached its step limit before finishing."
  const NOT_AVAILABLE := "GNSIS 0.5 is not available on this Mac."
  const COMMAND_FAILED := "The local command could not be completed."

  /** What the controller was set up with. */
  datatype Options = Options(tools: set<string>, maxSteps: nat, minConfidence: real, secret: string -> bool)

  predicate Confident(d: Decision, o: Options) {
    d.UseTool? && d.confidence.Some? && o.minConfidence <= d.confidence.value <= 1.0
  }

  /** A decision the loop acts on. */
  predicate Acts(d: Decision, o: Options) {
    Confident(d, o) && d.tool in o.tools
  }

  /** The request's calls, one per decision acted on. */
  function Runs(request: RequestId, decisions: seq<Decision>, n: nat): (r: seq<Effect>)
    requires n <= |decisions| && forall k | 0 <= k < n :: decisions[k].UseTool?
    ensures |r| == n
  {
    seq(n, k requires 0 <= k < n =>
      Run(ControllerCall(request, k + 1), ControllerTurn(request), decisions[k].tool, decisions[k].args))
  }

  /** What the provider is told of the first n calls: their results, bounded. */
  function History(decisions: seq<Decision>, results: seq<seq<Field>>, n: nat, secret: string -> bool): seq<Exchange>
    requires n <= |decisions| && n <= |results| && forall k | 0 <= k < n :: decisions[k].UseTool?
  {
    seq(n, k requires 0 <= k < n => Exchange(decisions[k].tool, decisions[k].args, BoundedResult(results[k], secret)))
  }

  /** The calls that were made: one for every decision acted on, until one did not come back done. */
  ghost predicate Ran(decisions: seq<Decision>, results: seq<seq<Field>>, n: nat, o: Options) {
    && n <= o.maxSteps && n < |decisions| && n <= |results|
    && (forall k | 0 <= k < n :: Acts(decisions[k], o))
    && (forall k | 0 <= k < n - 1 :: IsDone(results[k]))
  }

  /** How a request ends after n calls: what is answered, and the result, if there is one. */
  function Ending(decisions: seq<Decision>, results: seq<seq<Field>>, n: nat, o: Options, turn: TurnId, canAnswer: bool)
      : (Option<TurnResult>, seq<Effect>)
    requires n < |decisions| && n <= |results|
  {
    if n > 0 && !IsDone(results[n - 1]) then (Some(Failed(MessageOf(results[n - 1], NOT_COMPLETED))), [])
    else
      match decisions[n]
      case Threw => (if n == 0 then None else Some(Failed(STOPPED)), [])
      case GiveUp(reason) => (if n == 0 then None else Some(Failed(Said(reason).GetOr(NOT_SAFE))), [])
      case Finish(message) =>
        (if n == 0 && Said(message).None? then None else Some(Ok(turn)),
         if Said(message).Some? && canAnswer then [Answer(Said(message).value)] else [])
      case UseTool(tool, args, confidence) =>
        if n == o.maxSteps then (if n == 0 then None else Some(Failed(STEP_LIMIT)), [])
        else if !Confident(decisions[n], o) then (if n == 0 then None else Some(Failed(NOT_CONFIDENT)), [])
        else (Some(Failed(NOT_OFFERED)), [])
  }

  /** After n calls there is no next one. */
  predicate Ends(decisions: seq<Decision>, results: seq<seq<Field>>, n: nat, o: Options)
    requires n < |decisions| && n <= |results|
  {
    n == o.maxSteps || !Acts(decisions[n], o) || (n > 0 && !IsDone(results[n - 1]))
  }

  /** The number of calls is determined by what the provider and the tools say. */
  lemma CallsAreDetermined(decisions: seq<Decision>, results: seq<seq<Field>>, n: nat, m: nat, o: Options)
    requires Ran(decisions, results, n, o) && Ends(decisions, results, n, o)
    requires Ran(decisions, results, m, o) && Ends(decisions, results, m, o)
    ensures n == m
  {
    NoCallsAfterTheEnd(decisions, results, n, m, o);
    NoCallsAfterTheEnd(decisions, results, m, n, o);
  }

  lemma NoCallsAfterTheEnd(decisions: seq<Decision>, results: seq<seq<Field>>, n: nat, m: nat, o: Options)
    requires Ran(decisions, results, n, o) && Ends(decisions, results, n, o) && Ran(decisions, results, m, o)
    ensures m <= n
  {
  }

  /** What a request did: the turn recorded once, before the first of its calls, or nothing at all; answers last. */
  ghost predicate Orderly(effects: seq<Effect>, request: RequestId, text: string, n: nat, answered: seq<Effect>,
                          decisions: seq<Decision>)
    requires n <= |decisions| && forall k | 0 <= k < n :: decisions[k].UseTool?
  {
    effects == (if n == 0 then [] else [Record(ControllerTurn(request), text, request.nowMs)])
               + Runs(request, decisions, n) + answered
  }

  lemma NothingYet(request: RequestId, text: string, decisions: seq<Decision>, results: seq<seq<Field>>, secret: string -> bool)
    ensures Orderly([], request, text, 0, [], decisions) && History(decisions, results, 0, secret) == []
  {
  }

  lemma OneMoreRun(request: RequestId, text: string, decisions: seq<Decision>, effects: seq<Effect>, n: nat)
    requires n < |decisions| && forall k | 0 <= k <= n :: decisions[k].UseTool?
    requires Orderly(effects, request, text, n, [], decisions)
    ensures var (d, turn) := (decisions[n], ControllerTurn(request));
            var before := if n == 0 then effects + [Record(turn, text, request.nowMs)] else effects;
            Orderly(before + [Run(ControllerCall(request, n + 1), turn, d.tool, d.args)], request, text, n + 1, [], decisions)
  {
    var d := decisions[n];
    assert Runs(request, decisions, n + 1) ==
           Runs(request, decisions, n) + [Run(ControllerCall(request, n + 1), ControllerTurn(request), d.tool, d.args)];
  }

  lemma AnswersLast(request: RequestId, text: string, decisions: seq<Decision>, effects: seq<Effect>, n: nat, answered: seq<Effect>)
    requires n <= |decisions| && forall k | 0 <= k < n :: decisions[k].UseTool?
    requires Orderly(effects, request, text, n, [], decisions)
    ensures Orderly(effects + answered, request, text, n, answered, decisions)
  {
  }

  lemma OneMoreExchange(decisions: seq<Decision>, results: seq<seq<Field>>, n: nat, secret: string -> bool)
    requires n < |decisions| && n < |results| && forall k | 0 <= k <= n :: decisions[k].UseTool?
    ensures History(decisions, results, n + 1, secret) ==
            History(decisions, results, n, secret) + [Exchange(decisions[n].tool, decisions[n].args, BoundedResult(results[n], secret))]
  {
  }

  /** The turn is recorded once, first, if anything ran, and never otherwise; then the n calls, no id used twice. */
  ghost predicate RunsFirst(effects: seq<Effect>, n: nat) {
    && (forall i | 0 <= i < |effects| :: effects[i].Record? <==> i == 0 && n > 0)
    && (forall i | 0 <= i < |effects| :: effects[i].Run? <==> 1 <= i <= n)
    && (forall i, j | 0 <= i < j < |effects| && effects[i].Run? && effects[j].Run? :: effects[i].call != effects[j].call)
  }

  /** At most `most` calls. */
  ghost predicate RunsOnce(effects: seq<Effect>, most: nat) {
    exists n: nat | n <= most :: RunsFirst(effects, n)
  }

  /** What an orderly request did, place by place. */
  lemma EffectAt(effects: seq<Effect>, request: RequestId, text: string, n: nat, answered: seq<Effect>,
                 decisions: seq<Decision>, i: nat)
    requires n <= |decisions| && forall k | 0 <= k < n :: decisions[k].UseTool?
    requires Orderly(effects, request, text, n, answered, decisions) && i < |effects|
    ensures n > 0 && i == 0 ==> effects[i].Record?
    ensures 1 <= i <= n ==> effects[i].Run? && effects[i].call == ControllerCall(request, i)
    ensures n == 0 || i > n ==> effects[i] in answered
  {
    var runs := Runs(request, decisions, n);
    var record := if n == 0 then [] else [Record(ControllerTurn(request), text, request.nowMs)];
    if n == 0 {
      assert effects[i] == answered[i];
    } else if i > n {
      assert effects[i] == answered[i - n - 1];
    } else if i > 0 {
      assert effects[i] == runs[i - 1];
    }
  }

  lemma RecordedOnceBeforeTheCalls(effects: seq<Effect>, request: RequestId, text: string, n: nat, answered: seq<Effect>,
                                   decisions: seq<Decision>)
    requires n <= |decisions| && forall k | 0 <= k < n :: decisions[k].UseTool?
    requires Orderly(effects, request, text, n, answered, decisions)
    requires forall e | e in answered :: e.Answer?
    ensures RunsFirst(effects, n) && Elsewhere !in effects
    ensures n == 0 ==> effects == answered
  {
    hide Orderly, Runs;
    forall i | 0 <= i < |effects|
      ensures effects[i].Record? <==> i == 0 && n > 0
      ensures effects[i].Run? <==> 1 <= i <= n
      ensures effects[i].Run? ==> effects[i].call == ControllerCall(request, i)
      ensures !effects[i].Elsewhere?
    {
      EffectAt(effects, request, text, n, answered, decisions, i);
    }
    NoneRan(effects, request, text, n, answered, decisions);
  }

  lemma NoneRan(effects: seq<Effect>, request: RequestId, text: string, n: nat, answered: seq<Effect>, decisions: seq<Decision>)
    requires n <= |decisions| && forall k | 0 <= k < n :: decisions[k].UseTool?
    requires Orderly(effects, request, text, n, answered, decisions)
    ensures n == 0 ==> effects == answered
  {
  }

  class Controller {
    const options: Options
    var counter: nat

    constructor (o: Options)
      ensures options == o && counter == 0
    {
      options, counter := o, 0;
    }

    /**
     * One request. `decisions` is what the provider would say at each step, `results` what
     * each call would come back with; n calls were made, each time shown the history so far.
     */
    method Send(text: string, nowMs: int, decisions: seq<Decision>, results: seq<seq<Field>>, canAnswer: bool)
      returns (r: Option<TurnResult>, effects: seq<Effect>, n: nat, shown: seq<seq<Exchange>>)
      requires |decisions| > options.maxSteps && |results| >= options.maxSteps
      modifies this`counter
      ensures counter == old(counter) + 1
      ensures Ran(decisions, results, n, options) && Ends(decisions, results, n, options)
      ensures var (result, answered) := Ending(decisions, results, n, options, ControllerTurn(RequestId(nowMs, counter)), canAnswer);
              r == result && Orderly(effects, RequestId(nowMs, counter), text, n, answered, decisions)
      ensures forall k | 0 <= k < |shown| :: k <= n && shown[k] == History(decisions, results, k, options.secret)
      ensures |shown| == if n > 0 && !IsDone(results[n - 1]) then n else n + 1
    {
      hide Orderly, Runs, History, BoundedResult, Trim, Get, MessageOf;
      counter := counter + 1;
      var request := RequestId(nowMs, counter);
      var turn := ControllerTurn(request);
      var history: seq<Exchange> := [];
      var recorded := false;
      effects, shown, n := [], [], 0;
      var step := 0;
      NothingYet(request, text, decisions, results, options.secret);
      while step <= options.maxSteps
        invariant 0 <= step <= options.maxSteps && n == step && counter == old(counter) + 1
        invariant Ran(decisions, results, step, options) && (step > 0 ==> IsDone(results[step - 1]))
        invariant recorded == (step > 0)
        invariant Orderly(effects, request, text, step, [], decisions)
        invariant history == History(decisions, results, step, options.secret)
        invariant |shown| == step && forall k | 0 <= k < step :: shown[k] == History(decisions, results, k, options.secret)
        decreases options.maxSteps + 1 - step
      {
        shown := shown + [history];
        AnswersLast(request, text, decisions, effects, step, []);
        var d := decisions[step];
        match d {
          case Threw =>
            r := if !recorded then None else Some(Failed(STOPPED));
            return;
          case GiveUp(reason) =>
            r := if !recorded then None else Some(Failed(Said(reason).GetOr(NOT_SAFE)));
            return;
          case Finish(message) =>
            var reply := Said(message);
            if !recorded && reply.None? { r := None; return; }
            if reply.Some? && canAnswer {
              AnswersLast(request, text, decisions, effects, step, [Answer(reply.value)]);
              effects := effects + [Answer(reply.value)];
            }
            r := Some(Ok(turn));
            return;
          case UseTool(tool, args, confidence) =>
            if step == options.maxSteps { break; }
            if confidence.None? || confidence.value < options.minConfidence || confidence.value > 1.0 {
              r := if !recorded then None else Some(Failed(NOT_CONFIDENT));
              return;
            }
            if tool !in options.tools { r := Some(Failed(NOT_OFFERED)); return; }
            OneMoreRun(request, text, decisions, effects, step);
            OneMoreExchange(decisions, results, step, options.secret);
            if !recorded {
              effects := effects + [Record(turn, text, nowMs)];
              recorded := true;
            }
            effects := effects + [Run(ControllerCall(request, step + 1), turn, tool, args)];
            n := step + 1;
            var bounded := BoundedResult(results[step], options.secret);
            history := history + [Exchange(tool, args, bounded)];
            if !IsDone(results[step]) {
              r := Some(Failed(MessageOf(results[step], NOT_COMPLETED)));
              return;
            }
        }
        step := step + 1;
      }
      r := if recorded then Some(Failed(STEP_LIMIT)) else None;
    }
  }

  /** What the router is given: text, or something else. */
  datatype Input = Text(text: string) | NotText

  datatype Model = Gnsis05 | Gnsis10 | Auto

  datatype Command = Command(tool: string, args: seq<Field>)

  class Router {
    const commandOf: string -> Option<Command>
    const controller: Option<Controller>
    var counter: nat

    constructor (commandOf: string -> Option<Command>, controller: Option<Controller>)
      ensures this.commandOf == commandOf && this.controller == controller && counter == 0
    {
      this.commandOf, this.controller, counter := commandOf, controller, 0;
    }

    /** Where a request goes that nothing here took up. */
    function Onward(model: Model): (TurnResult, seq<Effect>) {
      if model == Gnsis05 then (Failed(NOT_AVAILABLE), []) else (FromElsewhere, [Elsewhere])
    }

    /** The controller made n calls for the request, and its result stands unless there is none. */
    ghost predicate Handed(text: string, model: Model, nowMs: int, decisions: seq<Decision>, results: seq<seq<Field>>,
                           canAnswer: bool, r: TurnResult, effects: seq<Effect>, n: nat)
      requires controller.Some?
      reads controller.value
    {
      var (c, request) := (controller.value, RequestId(nowMs, controller.value.counter));
      && Ran(decisions, results, n, c.options) && Ends(decisions, results, n, c.options)
      && var (local, answered) := Ending(decisions, results, n, c.options, ControllerTurn(request), canAnswer);
         if local.Some? then r == local.value && Orderly(effects, request, text, n, answered, decisions)
         else n == 0 && r == Onward(model).0 && effects == Onward(model).1
    }

    /**
     * One request. `commandResult` is what a deterministic command comes back with; the other
     * parameters are for the controller. What happened on the foreground model's path is
     * not described beyond that it was taken.
     */
    method Send(input: Input, model: Model, nowMs: int, commandResult: seq<Field>,
                decisions: seq<Decision>, results: seq<seq<Field>>, canAnswer: bool)
      returns (r: TurnResult, effects: seq<Effect>, ghost n: nat)
      requires controller.Some? ==>
                 |decisions| > controller.value.options.maxSteps && |results| >= controller.value.options.maxSteps
      modifies this`counter
      modifies if controller.Some? then {controller.value} else {}
      // The foreground model's path is taken alone or not at all: never after anything was run, recorded or answered here.
      ensures Elsewhere in effects <==> effects == [Elsewhere]
      ensures Elsewhere in effects <==> r == FromElsewhere
      ensures model == Gnsis10 ==> effects == [Elsewhere]
      ensures model == Gnsis05 ==> Elsewhere !in effects
      // One turn, recorded first, for all that runs; each call once; a bounded number of them.
      ensures RunsOnce(effects, if controller.Some? && controller.value.options.maxSteps > 1 then controller.value.options.maxSteps else 1)
      // What is no command goes to the controller; only if it did nothing does the request go on.
      ensures var text := if input.Text? then Trim(input.text) else [];
              model != Gnsis10 && (text == [] || commandOf(text).None?) ==>
                if text == [] || controller.None? then r == Onward(model).0 && effects == Onward(model).1
                else Handed(text, model, nowMs, decisions, results, canAnswer, r, effects, n)
      // A command the words spell out in full runs here, as itself.
      ensures var command := if input.Text? && Trim(input.text) != [] then commandOf(Trim(input.text)) else None;
              var request := RequestId(nowMs, counter);
              model != Gnsis10 && command.Some? ==>
                && counter == old(counter) + 1
                && effects == [Record(RouterTurn(request), Trim(input.text), nowMs),
                               Run(RouterCall(request), RouterTurn(request), command.value.tool, command.value.args)]
                && r == if IsDone(commandResult) then Ok(RouterTurn(request)) else Failed(MessageOf(commandResult, COMMAND_FAILED))
    {
      assert RunsFirst([], 0) && RunsFirst([Elsewhere], 0);
      n := 0;
      if model == Gnsis10 { return FromElsewhere, [Elsewhere], 0; }
      var text := if input.Text? then Trim(input.text) else [];
      var command := if text != [] then commandOf(text) else None;
      if command.None? {
        if text != [] && controller.Some? {
          var local, did, calls, shown := controller.value.Send(text, nowMs, decisions, results, canAnswer);
          n := calls;
          ghost var request := RequestId(nowMs, controller.value.counter);
          EndingIsQuiet(decisions, results, n, controller.value.options, ControllerTurn(request), canAnswer);
          RecordedOnceBeforeTheCalls(did, request, text, n,
            Ending(decisions, results, n, controller.value.options, ControllerTurn(request), canAnswer).1, decisions);
          assert RunsFirst(did, n);
          if local.Some? { return local.value, did, n; }
        }
        if model == Gnsis05 { return Failed(NOT_AVAILABLE), [], n; }
        return FromElsewhere, [Elsewhere], n;
      }
      counter := counter + 1;
      var request := RequestId(nowMs, counter);
      var turn := RouterTurn(request);
      effects := [Record(turn, text, nowMs), Run(RouterCall(request), turn, command.value.tool, command.value.args)];
      assert RunsFirst(effects, 1);
      r := if IsDone(commandResult) then Ok(turn) else Failed(MessageOf(commandResult, COMMAND_FAILED));
    }
  }

  /** Nothing is returned only if nothing ran and nothing was answered; what is done at the end is answering. */
  lemma EndingIsQuiet(decisions: seq<Decision>, results: seq<seq<Field>>, n: nat, o: Options, turn: TurnId, canAnswer: bool)
    requires n < |decisions| && n <= |results|
    ensures var (r, answered) := Ending(decisions, results, n, o, turn, canAnswer);
            && (r.None? ==> n == 0 && answered == [])
            && (forall e | e in answered :: e.Answer?)
            && r != Some(FromElsewhere)
            && (r.Some? && r.value.Ok? ==> r.value.turn == turn && (n > 0 ==> IsDone(results[n - 1])))
  {
  }
}
