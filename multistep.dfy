/**
 * `MultiStepService.executeMultiStepPrompt` (src/multiStepService.ts): the
 * steps of a multi-step prompt run in ascending `order`; each sees the global
 * variables, the trimmed outputs captured by earlier steps and its own local
 * variables, has its prompt substituted and sent to the language model, and
 * may capture its output for later steps. The run stops at the first failing
 * step, or early once an output announces `all_requirements_met`.
 *
 * The language model is a parameter: a function from the step index and the
 * substituted prompt to what the call does (`LlmCall`). The streaming
 * callbacks become a list of events.
 */
module MultiStep {
  import opened Wrappers
  import opened Text
  import opened Json
  import opened Templating
  import opened Sorting
  import opened ApiService

  /** A step; `outputVariable` is "" when the step captures nothing. */
  datatype PromptStep = PromptStep(
    id: string, name: string, prompt: string, variables: string, order: int, outputVariable: string)

  datatype MultiStepPrompt = MultiStepPrompt(
    id: string, name: string, description: string, steps: seq<PromptStep>,
    globalVariables: string, createdAt: int, lastModified: int)

  datatype StepResult = StepResult(stepId: string, stepName: string, input: string, output: string, error: Option<string>)

  datatype RunResult = RunResult(
    promptId: string, results: seq<StepResult>, success: bool, finalOutput: string,
    terminatedEarly: bool, terminationReason: Option<string>)

  /** The callbacks of `MultiStepStreamingCallback`, in the order they fire. */
  datatype Event =
    | StepStarted(stepName: string, stepNumber: nat, totalSteps: nat)
    | StepToken(stepIndex: nat, token: string)
    | StepCompleted(stepIndex: nat, result: StepResult)
    | Completed(run: RunResult)
    | Failed(message: string, failedStep: Option<nat>)

  /** The language model: what the call made for step `i` with a given prompt does. */
  type Llm = (nat, string) -> LlmCall

  const Marker: string := "all_requirements_met"
  const EarlyReason: string := "All requirements met"

  function StepOrder(s: PromptStep): int { s.order }

  /** The steps in execution order: a stable sort of a copy by `order`. */
  function SortedSteps(p: MultiStepPrompt): seq<PromptStep> {
    SortBy(p.steps, StepOrder)
  }

  /** The output announces that the requirements are met (trimmed, lower-cased, anywhere in it). */
  predicate MeetsRequirements(output: string) {
    Contains(ToLowerAscii(Trim(output)), Marker)
  }

  /** `response.data || stepOutput`: non-empty completion data replaces the streamed tokens. */
  function StepOutput(tokens: seq<string>, completion: Option<string>): string {
    if completion.Some? && completion.value != "" then completion.value else Concat(tokens)
  }

  /** The scope after a step: its trimmed output under its output variable, when both are non-empty. */
  function Capture(scope: Entries, outputVariable: string, output: string): Entries {
    if outputVariable != "" && Trim(output) != "" then Set(scope, outputVariable, JString(Trim(output))) else scope
  }

  function TokenEvents(i: nat, tokens: seq<string>): (r: seq<Event>)
    ensures |r| == |tokens|
    ensures forall j :: 0 <= j < |tokens| ==> r[j] == StepToken(i, tokens[j])
  {
    seq(|tokens|, j requires 0 <= j < |tokens| => StepToken(i, tokens[j]))
  }

  /** `!result.error`: no error, or the empty message, which is falsy. */
  predicate NoError(r: StepResult) {
    r.error.None? || r.error.value == ""
  }

  /** `results.every(result => !result.error)`. */
  predicate AllSucceeded(results: seq<StepResult>) {
    forall j | 0 <= j < |results| :: NoError(results[j])
  }

  /** One step: its result, the events it fires and the scope that later steps see. */
  datatype StepRun = StepRun(result: StepResult, events: seq<Event>, scope: Entries)

  function FailedStep(step: PromptStep, i: nat, scope: Entries, started: seq<Event>, tokens: seq<string>, message: string): StepRun {
    var result := StepResult(step.id, step.name, step.prompt, "", Some(message));
    StepRun(result, started + TokenEvents(i, tokens) + [Failed(message, Some(i))], scope)
  }

  function RunStep(codec: JsonCodec, llm: Llm, step: PromptStep, i: nat, total: nat, scope: Entries): StepRun {
    var started := [StepStarted(step.name, i + 1, total)];
    match codec.parse(step.variables)
    case Failure(message) => FailedStep(step, i, scope, started, [], message)
    case Success(local) =>
      var merged := Assign(scope, SpreadSource(local));
      var processed := Substitute(codec, step.prompt, codec.stringify(JObject(merged)));
      match llm(i, processed)
      case Raised(tokens, message) => FailedStep(step, i, scope, started, tokens, message)
      case Returned(tokens, completion) =>
        var output := StepOutput(tokens, completion);
        var result := StepResult(step.id, step.name, processed, output, None);
        StepRun(result, started + TokenEvents(i, tokens) + [StepCompleted(i, result)], Capture(scope, step.outputVariable, output))
  }

  /** The end of a run that did not stop early. */
  function Finish(promptId: string, results: seq<StepResult>, events: seq<Event>): (out: (RunResult, seq<Event>))
    ensures out.0.promptId == promptId && out.0.results == results && !out.0.terminatedEarly
    ensures out.1 == events + [Completed(out.0)]
  {
    var run := RunResult(promptId, results, AllSucceeded(results),
      if results == [] then "" else results[|results| - 1].output, false, None);
    (run, events + [Completed(run)])
  }

  /** The end of a run whose last step announced that the requirements are met. */
  function FinishEarly(promptId: string, results: seq<StepResult>, events: seq<Event>, output: string): (out: (RunResult, seq<Event>))
    ensures out.0.promptId == promptId && out.0.results == results && out.0.terminatedEarly && out.0.finalOutput == output
    ensures out.1 == events + [Completed(out.0)]
  {
    var run := RunResult(promptId, results, AllSucceeded(results), output, true, Some(EarlyReason));
    (run, events + [Completed(run)])
  }

  /** The run from step `i` on, given the scope, the results and the events so far. */
  function RunFrom(codec: JsonCodec, llm: Llm, promptId: string, steps: seq<PromptStep>, i: nat,
                   scope: Entries, results: seq<StepResult>, events: seq<Event>): (RunResult, seq<Event>)
    decreases |steps| - i
  {
    if i >= |steps| then Finish(promptId, results, events)
    else
      var r := RunStep(codec, llm, steps[i], i, |steps|, scope);
      var results' := results + [r.result];
      var events' := events + r.events;
      if r.result.error.Some? then Finish(promptId, results', events')
      else if MeetsRequirements(r.result.output) then FinishEarly(promptId, results', events', r.result.output)
      else RunFrom(codec, llm, promptId, steps, i + 1, r.scope, results', events')
  }

  /** The whole run: unparseable global variables end it before any step, with no step index. */
  function Run(codec: JsonCodec, llm: Llm, p: MultiStepPrompt): (RunResult, seq<Event>) {
    match codec.parse(p.globalVariables)
    case Failure(message) => (RunResult(p.id, [], false, "", false, None), [Failed(message, None)])
    case Success(globals) => RunFrom(codec, llm, p.id, SortedSteps(p), 0, Spread(globals), [], [])
  }

  /**
   * The body of the step loop: parse the local variables, merge them over the
   * scope, substitute, call the model while collecting the streamed tokens,
   * and capture the output. A thrown error becomes a failed step.
   */
  method ExecuteStep(codec: JsonCodec, llm: Llm, step: PromptStep, i: nat, total: nat, scope: Entries) returns (r: StepRun)
    ensures r == RunStep(codec, llm, step, i, total, scope)
  {
    var started := [StepStarted(step.name, i + 1, total)];
    var local := codec.parse(step.variables);
    if local.Failure? {
      var failed := StepResult(step.id, step.name, step.prompt, "", Some(local.error));
      assert TokenEvents(i, []) == [];
      return StepRun(failed, started + [Failed(local.error, Some(i))], scope);
    }
    var merged := Assign(scope, SpreadSource(local.value));
    var processed := SubstituteVariables(codec, step.prompt, codec.stringify(JObject(merged)));
    var call := llm(i, processed);
    var stepOutput := "";
    var tokenEvents: seq<Event> := [];
    var j := 0;
    while j < |call.streamed|
      invariant 0 <= j <= |call.streamed|
      invariant stepOutput == Concat(call.streamed[..j])
      invariant tokenEvents == TokenEvents(i, call.streamed[..j])
    {
      assert call.streamed[..j + 1][..j] == call.streamed[..j];
      stepOutput := stepOutput + call.streamed[j];
      tokenEvents := tokenEvents + [StepToken(i, call.streamed[j])];
      j := j + 1;
    }
    assert call.streamed[..j] == call.streamed;
    if call.Raised? {
      var failed := StepResult(step.id, step.name, step.prompt, "", Some(call.message));
      return StepRun(failed, started + tokenEvents + [Failed(call.message, Some(i))], scope);
    }
    if call.completion.Some? && call.completion.value != "" {
      stepOutput := call.completion.value;
    }
    var stepResult := StepResult(step.id, step.name, processed, stepOutput, None);
    var newScope := scope;
    if step.outputVariable != "" && Trim(stepOutput) != "" {
      newScope := Set(scope, step.outputVariable, JString(Trim(stepOutput)));
    }
    r := StepRun(stepResult, started + tokenEvents + [StepCompleted(i, stepResult)], newScope);
  }

  method ExecuteMultiStepPrompt(codec: JsonCodec, llm: Llm, p: MultiStepPrompt) returns (run: RunResult, events: seq<Event>)
    ensures (run, events) == Run(codec, llm, p)
    ensures codec.parse(p.globalVariables).Failure? ==>
      run.results == [] && !run.success && run.finalOutput == "" && !run.terminatedEarly
      && events == [Failed(codec.parse(p.globalVariables).error, None)]
  {
    var parsedGlobals := codec.parse(p.globalVariables);
    if parsedGlobals.Failure? {
      return RunResult(p.id, [], false, "", false, None), [Failed(parsedGlobals.error, None)];
    }
    var scope := Spread(parsedGlobals.value);
    var steps := SortedSteps(p);
    var results: seq<StepResult> := [];
    events := [];
    var i := 0;
    while i < |steps|
      invariant 0 <= i <= |steps|
      invariant RunFrom(codec, llm, p.id, steps, i, scope, results, events) == Run(codec, llm, p)
    {
      var r := ExecuteStep(codec, llm, steps[i], i, |steps|, scope);
      results := results + [r.result];
      events := events + r.events;
      if r.result.error.Some? {
        break;
      }
      if MeetsRequirements(r.result.output) {
        run := RunResult(p.id, results, AllSucceeded(results), r.result.output, true, Some(EarlyReason));
        events := events + [Completed(run)];
        return;
      }
      scope := r.scope;
      i := i + 1;
    }
    run := RunResult(p.id, results, AllSucceeded(results), if results == [] then "" else results[|results| - 1].output, false, None);
    events := events + [Completed(run)];
  }

  /** What holds of the results of a run so far: one per step, in step order, none failed or final. */
  predicate RunSoFar(steps: seq<PromptStep>, results: seq<StepResult>) {
    && |results| <= |steps|
    && (forall j :: 0 <= j < |results| ==> results[j].stepId == steps[j].id && results[j].stepName == steps[j].name)
    && (forall j :: 0 <= j < |results| ==> results[j].error.None? && !MeetsRequirements(results[j].output))
  }

  /** What holds of the result of a whole run over `steps`. */
  predicate RunShape(steps: seq<PromptStep>, run: RunResult) {
    var rs := run.results;
    // one result per executed step, in execution order
    && |rs| <= |steps|
    && (forall j :: 0 <= j < |rs| ==> rs[j].stepId == steps[j].id && rs[j].stepName == steps[j].name)
    // only the last executed step can have failed or announced completion
    && (forall j :: 0 <= j < |rs| - 1 ==> rs[j].error.None? && !MeetsRequirements(rs[j].output))
    // a failed step keeps its raw prompt as input and produced nothing
    && (forall j :: 0 <= j < |rs| && rs[j].error.Some? ==> rs[j].input == steps[j].prompt && rs[j].output == "")
    // success is judged on the messages: an empty one is falsy and does not count as a failure
    && (run.success <==> forall j :: 0 <= j < |rs| ==> NoError(rs[j]))
    && (run.terminatedEarly ==>
          && |rs| > 0 && rs[|rs| - 1].error.None? && MeetsRequirements(rs[|rs| - 1].output)
          && run.finalOutput == rs[|rs| - 1].output && run.terminationReason == Some(EarlyReason))
    && (!run.terminatedEarly ==>
          && (|rs| == |steps| || (|rs| > 0 && rs[|rs| - 1].error.Some?))
          && (|rs| < |steps| ==> rs[|rs| - 1].error.Some?)
          && run.finalOutput == (if rs == [] then "" else rs[|rs| - 1].output)
          && run.terminationReason == None)
  }

  lemma StepResultFacts(codec: JsonCodec, llm: Llm, step: PromptStep, i: nat, total: nat, scope: Entries)
    ensures var r := RunStep(codec, llm, step, i, total, scope).result;
      && r.stepId == step.id && r.stepName == step.name
      && (r.error.Some? ==> r.input == step.prompt && r.output == "")
  {
  }

  /** The step at `i` fails: the run ends there. */
  lemma FailedStepEndsRun(codec: JsonCodec, llm: Llm, promptId: string, steps: seq<PromptStep>, i: nat,
                          scope: Entries, results: seq<StepResult>, events: seq<Event>)
    requires i < |steps| && |results| == i && RunSoFar(steps, results)
    requires RunStep(codec, llm, steps[i], i, |steps|, scope).result.error.Some?
    ensures var run := RunFrom(codec, llm, promptId, steps, i, scope, results, events).0;
      results <= run.results && RunShape(steps, run)
  {
    var r := RunStep(codec, llm, steps[i], i, |steps|, scope);
    StepResultFacts(codec, llm, steps[i], i, |steps|, scope);
    var results' := results + [r.result];
    assert results'[..i] == results;
  }

  /** The step at `i` announces that the requirements are met: the run ends there, early. */
  lemma FinalStepEndsRun(codec: JsonCodec, llm: Llm, promptId: string, steps: seq<PromptStep>, i: nat,
                         scope: Entries, results: seq<StepResult>, events: seq<Event>)
    requires i < |steps| && |results| == i && RunSoFar(steps, results)
    requires RunStep(codec, llm, steps[i], i, |steps|, scope).result.error.None?
    requires MeetsRequirements(RunStep(codec, llm, steps[i], i, |steps|, scope).result.output)
    ensures var run := RunFrom(codec, llm, promptId, steps, i, scope, results, events).0;
      results <= run.results && RunShape(steps, run)
  {
    var r := RunStep(codec, llm, steps[i], i, |steps|, scope);
    StepResultFacts(codec, llm, steps[i], i, |steps|, scope);
    var results' := results + [r.result];
    assert results'[..i] == results;
  }

  /** The step at `i` succeeds without ending the run: the results so far keep their shape. */
  lemma ContinuingStepKeepsShape(codec: JsonCodec, llm: Llm, steps: seq<PromptStep>, i: nat,
                                 scope: Entries, results: seq<StepResult>)
    requires i < |steps| && |results| == i && RunSoFar(steps, results)
    requires RunStep(codec, llm, steps[i], i, |steps|, scope).result.error.None?
    requires !MeetsRequirements(RunStep(codec, llm, steps[i], i, |steps|, scope).result.output)
    ensures RunSoFar(steps, results + [RunStep(codec, llm, steps[i], i, |steps|, scope).result])
  {
    StepResultFacts(codec, llm, steps[i], i, |steps|, scope);
  }

  lemma {:induction false} RunFromShape(codec: JsonCodec, llm: Llm, promptId: string, steps: seq<PromptStep>, i: nat,
                                        scope: Entries, results: seq<StepResult>, events: seq<Event>)
    requires i <= |steps| && |results| == i && RunSoFar(steps, results)
    ensures var run := RunFrom(codec, llm, promptId, steps, i, scope, results, events).0;
      results <= run.results && RunShape(steps, run)
    decreases |steps| - i
  {
    if i == |steps| {
      assert results[..|results|] == results;
    } else {
      var r := RunStep(codec, llm, steps[i], i, |steps|, scope);
      if r.result.error.Some? {
        FailedStepEndsRun(codec, llm, promptId, steps, i, scope, results, events);
      } else if MeetsRequirements(r.result.output) {
        FinalStepEndsRun(codec, llm, promptId, steps, i, scope, results, events);
      } else {
        ContinuingStepKeepsShape(codec, llm, steps, i, scope, results);
        RunFromShape(codec, llm, promptId, steps, i + 1, r.scope, results + [r.result], events + r.events);
      }
    }
  }

  /** Every run ends with `onComplete`, handed the run's result. */
  lemma {:induction false} RunFromCompletes(codec: JsonCodec, llm: Llm, promptId: string, steps: seq<PromptStep>, i: nat,
                                            scope: Entries, results: seq<StepResult>, events: seq<Event>)
    ensures var out := RunFrom(codec, llm, promptId, steps, i, scope, results, events);
      out.0.promptId == promptId && |out.1| > 0 && out.1[|out.1| - 1] == Completed(out.0)
    decreases |steps| - i
  {
    if i < |steps| {
      var r := RunStep(codec, llm, steps[i], i, |steps|, scope);
      if r.result.error.None? && !MeetsRequirements(r.result.output) {
        RunFromCompletes(codec, llm, promptId, steps, i + 1, r.scope, results + [r.result], events + r.events);
      }
    }
  }

  /** In a run of that shape, a failure leaves no final output, and a failure with a message makes the run unsuccessful. */
  lemma FailureEndsRunEmpty(steps: seq<PromptStep>, run: RunResult)
    requires RunShape(steps, run)
    ensures (exists j :: 0 <= j < |run.results| && run.results[j].error.Some?) ==>
      run.finalOutput == "" && !run.terminatedEarly
    ensures (exists j :: 0 <= j < |run.results| && !NoError(run.results[j])) ==> !run.success
  {
    var rs := run.results;
    if j :| 0 <= j < |rs| && rs[j].error.Some? {
      assert j == |rs| - 1;
    }
  }

  /**
   * The shape of every run: results follow the steps sorted by `order`, one
   * per executed step; a failing step is the last one run, records its raw
   * prompt and an empty output, leaves an empty final output, and makes the
   * run unsuccessful unless its message is empty; a step announcing `all_requirements_met` ends the run early
   * with its own output; otherwise every step runs. `onComplete` fires last
   * unless the global variables do not parse.
   */
  lemma RunProperties(codec: JsonCodec, llm: Llm, p: MultiStepPrompt)
    ensures var (run, events) := Run(codec, llm, p);
      && run.promptId == p.id
      && (codec.parse(p.globalVariables).Success? ==>
            RunShape(SortedSteps(p), run) && |events| > 0 && events[|events| - 1] == Completed(run))
      && (codec.parse(p.globalVariables).Failure? ==>
            run.results == [] && !run.success && run.finalOutput == "" && !run.terminatedEarly)
      && ((exists j :: 0 <= j < |run.results| && run.results[j].error.Some?) ==>
            run.finalOutput == "" && !run.terminatedEarly)
      && ((exists j :: 0 <= j < |run.results| && !NoError(run.results[j])) ==> !run.success)
  {
    var out := Run(codec, llm, p);
    match codec.parse(p.globalVariables)
    case Failure(message) =>
      assert out.0 == RunResult(p.id, [], false, "", false, None);
    case Success(globals) =>
      var steps, scope := SortedSteps(p), Spread(globals);
      assert out == RunFrom(codec, llm, p.id, steps, 0, scope, [], []);
      RunFromShape(codec, llm, p.id, steps, 0, scope, [], []);
      RunFromCompletes(codec, llm, p.id, steps, 0, scope, [], []);
      FailureEndsRunEmpty(steps, out.0);
  }

  /**
   * A step that fails with an empty message still ends the run, yet the run
   * counts as successful: `!result.error` is true of the empty message.
   */
  lemma EmptyMessageFailureCountsAsSuccess(codec: JsonCodec, llm: Llm, p: MultiStepPrompt)
    requires codec.parse(p.globalVariables).Success?
    requires |SortedSteps(p)| > 1
    requires codec.parse(SortedSteps(p)[0].variables) == Failure("")
    ensures var run := Run(codec, llm, p).0;
      |run.results| == 1 && run.results[0].error == Some("") && run.success && !run.terminatedEarly
  {
    RunProperties(codec, llm, p);
  }

  /** Steps run in ascending `order`, on a stably sorted copy that holds exactly the prompt's steps. */
  lemma ExecutionOrder(p: MultiStepPrompt)
    ensures SortedBy(SortedSteps(p), StepOrder)
    ensures multiset(SortedSteps(p)) == multiset(p.steps)
    ensures forall k :: WithKey(SortedSteps(p), StepOrder, k) == WithKey(p.steps, StepOrder, k)
  {
    SortByProperties(p.steps, StepOrder);
  }

  /**
   * Surrounding white space and letter case never decide early termination:
   * the trimmed, lower-cased output holds the marker exactly when the
   * lower-cased output does.
   */
  lemma MarkerIgnoresTrim(output: string)
    ensures MeetsRequirements(output) <==> Contains(ToLowerAscii(output), Marker)
  {
    ToLowerTrim(output);
    assert NoWhitespace(Marker);
    ContainsIgnoresTrim(ToLowerAscii(output), Marker);
  }

  /**
   * The result `executePrompt` resolves with is ignored, so a configuration
   * it refuses (no key, unknown provider), which calls no callback, gives a
   * step without error and with empty output, which captures nothing.
   */
  lemma RejectedCallGivesEmptyStep(codec: JsonCodec, llm: Llm, config: ApiConfig, network: string -> Transport,
                                   step: PromptStep, i: nat, total: nat, scope: Entries)
    requires codec.parse(step.variables).Success?
    requires Dispatch(config).Rejected?
    requires forall prompt :: llm(i, prompt) == ObservedCall(codec, config, network(prompt))
    ensures var r := RunStep(codec, llm, step, i, total, scope);
      r.result.error.None? && r.result.output == "" && r.scope == scope
  {
    forall prompt ensures llm(i, prompt) == Returned([], None) {
      ObservedCallProperties(codec, config, network(prompt));
    }
    assert Trim("") == "";
  }

  /**
   * `response.data || stepOutput` changes nothing for a streamed call: the
   * data handed to `onComplete` is the concatenation of the streamed tokens,
   * which is what the step collected.
   */
  lemma StreamedOutputIsTokens(codec: JsonCodec, config: ApiConfig, transport: Transport)
    ensures var call := ObservedCall(codec, config, transport);
      call.Returned? ==> StepOutput(call.streamed, call.completion) == Concat(call.streamed)
  {
    ObservedCallProperties(codec, config, transport);
  }

  /** The scope the step at index `k` starts from: the initial scope and the captures of the steps before it. */
  function CapturedScope(start: Entries, steps: seq<PromptStep>, results: seq<StepResult>, k: nat): Entries
    requires k <= |steps| && k <= |results|
  {
    if k == 0 then start
    else Capture(CapturedScope(start, steps, results, k - 1), steps[k - 1].outputVariable, results[k - 1].output)
  }

  lemma {:induction false} CapturedScopePrefix(start: Entries, steps: seq<PromptStep>, a: seq<StepResult>, b: seq<StepResult>, k: nat)
    requires k <= |steps| && k <= |a| && k <= |b| && a[..k] == b[..k]
    ensures CapturedScope(start, steps, a, k) == CapturedScope(start, steps, b, k)
    decreases k
  {
    if k > 0 {
      assert a[..k - 1] == a[..k][..k - 1] && b[..k - 1] == b[..k][..k - 1];
      assert a[k - 1] == a[..k][k - 1] && b[k - 1] == b[..k][k - 1];
      CapturedScopePrefix(start, steps, a, b, k - 1);
    }
  }

  /** The prompt a successful step sent: its text substituted with its local variables spread over `scope`. */
  predicate SentWithScope(codec: JsonCodec, step: PromptStep, scope: Entries, input: string) {
    && codec.parse(step.variables).Success?
    && input == Substitute(codec, step.prompt, codec.stringify(JObject(Assign(scope, SpreadSource(codec.parse(step.variables).value)))))
  }

  lemma {:induction false} RunFromGrows(codec: JsonCodec, llm: Llm, promptId: string, steps: seq<PromptStep>, i: nat,
                                        scope: Entries, results: seq<StepResult>, events: seq<Event>)
    ensures var run := RunFrom(codec, llm, promptId, steps, i, scope, results, events).0;
      results <= run.results && (i < |steps| ==> |run.results| > |results|)
    decreases |steps| - i
  {
    if i < |steps| {
      var r := RunStep(codec, llm, steps[i], i, |steps|, scope);
      if r.result.error.None? && !MeetsRequirements(r.result.output) {
        RunFromGrows(codec, llm, promptId, steps, i + 1, r.scope, results + [r.result], events + r.events);
      }
    }
  }

  lemma {:induction false} RunFromScopes(codec: JsonCodec, llm: Llm, promptId: string, steps: seq<PromptStep>, i: nat,
                                         start: Entries, results: seq<StepResult>, events: seq<Event>)
    requires i <= |steps| && |results| == i
    requires forall k :: 0 <= k < i && results[k].error.None? ==>
      SentWithScope(codec, steps[k], CapturedScope(start, steps, results, k), results[k].input)
    ensures var rs := RunFrom(codec, llm, promptId, steps, i, CapturedScope(start, steps, results, i), results, events).0.results;
      && |rs| <= |steps|
      && forall k :: 0 <= k < |rs| && rs[k].error.None? ==> SentWithScope(codec, steps[k], CapturedScope(start, steps, rs, k), rs[k].input)
    decreases |steps| - i
  {
    var scope := CapturedScope(start, steps, results, i);
    if i < |steps| {
      var r := RunStep(codec, llm, steps[i], i, |steps|, scope);
      var results' := results + [r.result];
      CapturedScopeAppend(start, steps, results, r.result);
      RunStepScope(codec, llm, steps[i], i, |steps|, scope);
      assert results'[i] == r.result;
      assert forall k :: 0 <= k < i + 1 && results'[k].error.None? ==>
        SentWithScope(codec, steps[k], CapturedScope(start, steps, results', k), results'[k].input);
      if r.result.error.None? && !MeetsRequirements(r.result.output) {
        assert CapturedScope(start, steps, results', i + 1) == r.scope;
        RunFromScopes(codec, llm, promptId, steps, i + 1, start, results', events + r.events);
      }
    }
  }

  /** Appending a result leaves the scopes of the steps up to it as they were. */
  lemma CapturedScopeAppend(start: Entries, steps: seq<PromptStep>, results: seq<StepResult>, x: StepResult)
    requires |results| < |steps|
    ensures forall k :: 0 <= k <= |results| ==>
      CapturedScope(start, steps, results + [x], k) == CapturedScope(start, steps, results, k)
  {
    var results' := results + [x];
    forall k | 0 <= k <= |results|
      ensures CapturedScope(start, steps, results', k) == CapturedScope(start, steps, results, k)
    {
      assert results'[..k] == results[..k];
      CapturedScopePrefix(start, steps, results', results, k);
    }
  }

  /** A step without error sent its prompt with `scope`, and leaves the scope its output captures. */
  lemma RunStepScope(codec: JsonCodec, llm: Llm, step: PromptStep, i: nat, total: nat, scope: Entries)
    ensures var r := RunStep(codec, llm, step, i, total, scope);
      r.result.error.None? ==> SentWithScope(codec, step, scope, r.result.input) && r.scope == Capture(scope, step.outputVariable, r.result.output)
  {
  }

  /**
   * Each step that ran without error sent its prompt substituted with the
   * global variables, overridden by the trimmed outputs captured by the steps
   * before it, overridden by its own local variables. Local variables of one
   * step never reach another: the scope a step starts from is built from the
   * global variables and earlier outputs alone.
   */
  lemma StepScopes(codec: JsonCodec, llm: Llm, p: MultiStepPrompt)
    requires codec.parse(p.globalVariables).Success?
    ensures var rs := Run(codec, llm, p).0.results;
      var start := Spread(codec.parse(p.globalVariables).value);
      && |rs| <= |SortedSteps(p)|
      && forall k :: 0 <= k < |rs| && rs[k].error.None? ==>
           SentWithScope(codec, SortedSteps(p)[k], CapturedScope(start, SortedSteps(p), rs, k), rs[k].input)
  {
    var start := Spread(codec.parse(p.globalVariables).value);
    RunFromScopes(codec, llm, p.id, SortedSteps(p), 0, start, [], []);
  }

  /** A step that captures makes its trimmed output readable under its output variable, and nothing else changes. */
  lemma CaptureProperties(scope: Entries, outputVariable: string, output: string)
    requires DistinctKeys(scope) && WellFormedValues(scope)
    ensures var s := Capture(scope, outputVariable, output);
      && DistinctKeys(s) && WellFormedValues(s)
      && Lookup(s, outputVariable) == (if outputVariable != "" && Trim(output) != "" then Some(JString(Trim(output))) else Lookup(scope, outputVariable))
      && forall k :: k != outputVariable ==> Lookup(s, k) == Lookup(scope, k)
  {
    SetProperties(scope, outputVariable, JString(Trim(output)));
    SetWellFormed(scope, outputVariable, JString(Trim(output)));
  }

  lemma {:induction false} CapturedScopeWellFormed(start: Entries, steps: seq<PromptStep>, results: seq<StepResult>, k: nat)
    requires k <= |steps| && k <= |results|
    requires DistinctKeys(start) && WellFormedValues(start)
    ensures DistinctKeys(CapturedScope(start, steps, results, k)) && WellFormedValues(CapturedScope(start, steps, results, k))
    decreases k
  {
    if k > 0 {
      CapturedScopeWellFormed(start, steps, results, k - 1);
      CaptureProperties(CapturedScope(start, steps, results, k - 1), steps[k - 1].outputVariable, results[k - 1].output);
    }
  }

  /**
   * With a JSON codec that reads back what it prints, the prompt a step sends
   * is its template with one pass per property of the merged scope, and each
   * property reads as the step's local value when it has one and as the
   * accumulated value otherwise.
   */
  lemma MergedScopeSubstitution(codec: JsonCodec, scope: Entries, local: Json, prompt: string)
    requires ValidCodec(codec)
    requires DistinctKeys(scope) && WellFormedValues(scope) && WellFormed(local)
    ensures var merged := Assign(scope, SpreadSource(local));
      && Substitute(codec, prompt, codec.stringify(JObject(merged))) == ReplaceEach(prompt, Substitutions(codec, merged))
      && forall k :: Lookup(merged, k) == if LookupLast(SpreadSource(local), k).Some? then LookupLast(SpreadSource(local), k) else Lookup(scope, k)
  {
    var merged := Assign(scope, SpreadSource(local));
    AssignProperties(scope, SpreadSource(local));
    SpreadSourceWellFormed(local);
    AssignWellFormed(scope, SpreadSource(local));
    assert WellFormed(JObject(merged));
    SubstituteObjectText(codec, prompt, merged);
  }

  lemma {:induction false} RunFromUsesOnlyCallsMade(codec: JsonCodec, llm1: Llm, llm2: Llm, promptId: string, steps: seq<PromptStep>, i: nat,
                                                    scope: Entries, results: seq<StepResult>, events: seq<Event>)
    requires |results| == i
    requires forall j: nat, prompt :: i <= j < |RunFrom(codec, llm1, promptId, steps, i, scope, results, events).0.results| ==> llm1(j, prompt) == llm2(j, prompt)
    ensures RunFrom(codec, llm2, promptId, steps, i, scope, results, events) == RunFrom(codec, llm1, promptId, steps, i, scope, results, events)
    decreases |steps| - i
  {
    if i < |steps| {
      RunFromGrows(codec, llm1, promptId, steps, i, scope, results, events);
      var r := RunStep(codec, llm1, steps[i], i, |steps|, scope);
      assert RunStep(codec, llm2, steps[i], i, |steps|, scope) == r;
      if r.result.error.None? && !MeetsRequirements(r.result.output) {
        RunFromUsesOnlyCallsMade(codec, llm1, llm2, promptId, steps, i + 1, r.scope, results + [r.result], events + r.events);
      }
    }
  }

  /**
   * No step after the last one that ran ever calls the model: two models that
   * answer alike for the steps that ran give the same run, whatever they
   * would have answered later.
   */
  lemma RunUsesOnlyCallsMade(codec: JsonCodec, llm1: Llm, llm2: Llm, p: MultiStepPrompt)
    requires forall j: nat, prompt :: j < |Run(codec, llm1, p).0.results| ==> llm1(j, prompt) == llm2(j, prompt)
    ensures Run(codec, llm2, p) == Run(codec, llm1, p)
  {
    if codec.parse(p.globalVariables).Success? {
      RunFromUsesOnlyCallsMade(codec, llm1, llm2, p.id, SortedSteps(p), 0, Spread(codec.parse(p.globalVariables).value), [], []);
    }
  }
}
