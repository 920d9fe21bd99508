/**
 * `EvaluationService` (src/evaluationService.ts): judging a response with a
 * second model against weighted criteria. Modelled: the configuration check,
 * the criteria listing of the judge prompt, the weighted overall score, and
 * the guards of `evaluateResponse`; the judge's reply is a parameter.
 */
module Evaluation {
  import opened Wrappers
  import opened Text
  import opened Lists
  import opened ApiService

  /** A criterion; weights are on a 1 to 10 scale in every configuration the application builds. */
  datatype EvaluationCriteria = EvaluationCriteria(name: string, description: string, weight: int, enabled: bool)

  /** One score of the judge; scores are whole numbers in the replies the judge is asked for. */
  datatype EvaluationResult = EvaluationResult(criteriaName: string, score: int, explanation: string)

  /** The evaluation settings; the sampling temperature is left out. */
  datatype EvaluationConfig = EvaluationConfig(criteria: seq<EvaluationCriteria>, judgeModel: string)

  /** What `evaluateResponse` returns; the overall score is counted in tenths, `None` when it is not a finite number. */
  datatype OverallEvaluation = OverallEvaluation(overallTenths: Option<int>, results: seq<EvaluationResult>, feedback: string)

  const RelevanceDescription: string := "How well does the response address " + "the user intent and context?"
  const AccuracyDescription: string := "Is the information provided " + "factually correct and reliable?"
  const ClarityDescription: string := "How clear, well-structured, and " + "easy to understand is the response?"
  const CompletenessDescription: string := "Does the response fully address " + "all aspects of the request?"
  const ToneDescription: string := "Is the tone professional, appropriate, " + "and aligned with the context?"
  const HelpfulnessDescription: string := "How actionable and useful is " + "the response for the recipient?"

  /** The criteria a new service starts with. */
  function DefaultCriteria(): seq<EvaluationCriteria> {
    [ EvaluationCriteria("Relevance", RelevanceDescription, 9, true),
      EvaluationCriteria("Accuracy", AccuracyDescription, 8, true),
      EvaluationCriteria("Clarity", ClarityDescription, 7, true),
      EvaluationCriteria("Completeness", CompletenessDescription, 7, true),
      EvaluationCriteria("Tone Appropriateness", ToneDescription, 6, true),
      EvaluationCriteria("Helpfulness", HelpfulnessDescription, 8, true) ]
  }

  function IsEnabled(c: EvaluationCriteria): bool {
    c.enabled
  }

  /** `criteria.filter(c => c.enabled)` */
  function Enabled(cs: seq<EvaluationCriteria>): seq<EvaluationCriteria> {
    Keep(cs, IsEnabled)
  }

  function Names(cs: seq<EvaluationCriteria>): seq<string> {
    seq(|cs|, i requires 0 <= i < |cs| => cs[i].name)
  }

  predicate DistinctNames(cs: seq<EvaluationCriteria>) {
    forall i, j :: 0 <= i < j < |cs| ==> cs[i].name != cs[j].name
  }

  /** The default criteria: six, all enabled, with weights 9, 8, 7, 7, 6 and 8, which add up to 45. */
  lemma DefaultCriteriaFacts()
    ensures |DefaultCriteria()| == 6
    ensures Enabled(DefaultCriteria()) == DefaultCriteria()
    ensures seq(6, i requires 0 <= i < 6 => DefaultCriteria()[i].weight) == [9, 8, 7, 7, 6, 8]
    ensures TotalWeight(DefaultCriteria()) == 45
  {
    var cs := DefaultCriteria();
    KeepAll(cs, IsEnabled);
    TotalWeightOfSix(cs);
  }

  lemma TotalWeightOfSix(cs: seq<EvaluationCriteria>)
    requires |cs| == 6
    ensures TotalWeight(cs) == cs[0].weight + cs[1].weight + cs[2].weight + cs[3].weight + cs[4].weight + cs[5].weight
  {
    assert TotalWeight(cs[..1]) == cs[0].weight by { assert cs[..1][..0] == []; }
    assert TotalWeight(cs[..2]) == TotalWeight(cs[..1]) + cs[1].weight by { assert cs[..2][..1] == cs[..1]; }
    assert TotalWeight(cs[..3]) == TotalWeight(cs[..2]) + cs[2].weight by { assert cs[..3][..2] == cs[..2]; }
    assert TotalWeight(cs[..4]) == TotalWeight(cs[..3]) + cs[3].weight by { assert cs[..4][..3] == cs[..3]; }
    assert TotalWeight(cs[..5]) == TotalWeight(cs[..4]) + cs[4].weight by { assert cs[..5][..4] == cs[..4]; }
    assert cs[..6] == cs;
  }

  /** No two default criteria share a name, so each result finds its own weight. */
  lemma DefaultNamesDistinct()
    ensures DistinctNames(DefaultCriteria())
  {
    var cs := DefaultCriteria();
    forall i, j | 0 <= i < j < 6 ensures cs[i].name != cs[j].name {
      assert cs[i].name[0] != cs[j].name[0] || cs[i].name[1] != cs[j].name[1];
    }
  }

  // The configuration check

  const KeyRequired: string := "OpenAI API key " + "is required for evaluation"
  const KeyPrefix: string := "OpenAI API key " + "should start with \"sk-\""
  const NoCriterion: string := "At least one evaluation " + "criterion must be enabled"

  /** What `validateEvaluationConfig` reports: the key check, then the criteria check. */
  function EvaluationConfigErrors(config: ApiConfig, evaluationConfig: EvaluationConfig): seq<string> {
    (if config.openaiKey == "" then [KeyRequired] else if !StartsWith(config.openaiKey, "sk-") then [KeyPrefix] else [])
    + (if Enabled(evaluationConfig.criteria) == [] then [NoCriterion] else [])
  }

  /**
   * A missing key and a wrongly prefixed one are reported apart, never both;
   * the criteria error appears exactly when no criterion is enabled; the
   * configuration passes exactly when the key carries its prefix and some
   * criterion is enabled. The provider and the other keys never matter.
   */
  lemma EvaluationConfigErrorsFacts(config: ApiConfig, evaluationConfig: EvaluationConfig)
    ensures var errs := EvaluationConfigErrors(config, evaluationConfig);
      && (KeyRequired in errs <==> config.openaiKey == "")
      && (KeyPrefix in errs <==> config.openaiKey != "" && !StartsWith(config.openaiKey, "sk-"))
      && (NoCriterion in errs <==> forall i :: 0 <= i < |evaluationConfig.criteria| ==> !evaluationConfig.criteria[i].enabled)
      && (errs == [] <==> StartsWith(config.openaiKey, "sk-") && exists i :: 0 <= i < |evaluationConfig.criteria| && evaluationConfig.criteria[i].enabled)
  {
    assert KeyRequired[15] != KeyPrefix[15] && KeyRequired[0] != NoCriterion[0] && KeyPrefix[0] != NoCriterion[0];
    NoneEnabled(evaluationConfig.criteria);
    if config.openaiKey == "" {
      assert !StartsWith(config.openaiKey, "sk-");
    }
  }

  /** No criterion is kept exactly when none is enabled. */
  lemma NoneEnabled(cs: seq<EvaluationCriteria>)
    ensures Enabled(cs) == [] <==> forall i :: 0 <= i < |cs| ==> !cs[i].enabled
  {
    KeepMembers(cs, IsEnabled);
    if Enabled(cs) != [] {
      assert Enabled(cs)[0] in Enabled(cs);
    }
    if exists i :: 0 <= i < |cs| && cs[i].enabled {
      var i :| 0 <= i < |cs| && cs[i].enabled;
      assert cs[i] in Enabled(cs);
    }
  }

  // The judge prompt

  /** One line of the criteria listing. */
  function CriterionLine(c: EvaluationCriteria): string {
    "- **" + c.name + "** (Weight: " + IntToString(c.weight) + "/10): " + c.description
  }

  function Lines(cs: seq<EvaluationCriteria>): seq<string> {
    seq(|cs|, i requires 0 <= i < |cs| => CriterionLine(cs[i]))
  }

  /** The `## EVALUATION CRITERIA` section of the judge prompt: one line per enabled criterion. */
  function CriteriaListing(cs: seq<EvaluationCriteria>): string {
    Join(Lines(Enabled(cs)), "\n")
  }

  /**
   * When no name or description holds a line break, the listing splits into
   * exactly the lines of the enabled criteria, in their original order, so a
   * disabled criterion contributes nothing.
   */
  lemma ListingLines(cs: seq<EvaluationCriteria>)
    requires Enabled(cs) != []
    requires forall c :: c in cs ==> '\n' !in c.name && '\n' !in c.description
    ensures Split(CriteriaListing(cs), '\n') == Lines(Enabled(cs))
    ensures forall c :: c in Enabled(cs) <==> c in cs && c.enabled
  {
    var en := Enabled(cs);
    KeepMembers(cs, IsEnabled);
    forall i | 0 <= i < |en| ensures '\n' !in Lines(en)[i] {
      LineHasNoBreak(en[i]);
    }
    assert "\n" == ['\n'];
    JoinSplit(Lines(en), '\n');
  }

  lemma LineHasNoBreak(c: EvaluationCriteria)
    requires '\n' !in c.name && '\n' !in c.description
    ensures '\n' !in CriterionLine(c)
  {
    var d := NatToString(if c.weight < 0 then -c.weight else c.weight);
    assert forall i :: 0 <= i < |d| ==> d[i] != '\n';
    assert '\n' !in IntToString(c.weight);
  }

  /** The judge prompt: the fixed instruction text (not reproduced here) around the inputs and the listing. */
  datatype JudgeTemplate = JudgeTemplate(intro: string, beforeResponse: string, beforeCriteria: string, instructions: string)

  function JudgePrompt(t: JudgeTemplate, originalVariables: string, llmResponse: string, cs: seq<EvaluationCriteria>): string {
    t.intro + originalVariables + t.beforeResponse + llmResponse + t.beforeCriteria + CriteriaListing(cs) + t.instructions
  }

  /**
   * `buildJudgePrompt` filters the criteria itself, so handing it the enabled
   * criteria only, as `evaluateResponse` does, builds the same prompt; the
   * listing of the enabled criteria sits between the text before it and the
   * instructions.
   */
  lemma JudgePromptProperties(t: JudgeTemplate, originalVariables: string, llmResponse: string, cs: seq<EvaluationCriteria>)
    ensures JudgePrompt(t, originalVariables, llmResponse, Enabled(cs)) == JudgePrompt(t, originalVariables, llmResponse, cs)
    ensures var p := JudgePrompt(t, originalVariables, llmResponse, cs);
      var before := t.intro + originalVariables + t.beforeResponse + llmResponse + t.beforeCriteria;
      var listing := Join(Lines(Enabled(cs)), "\n");
      && p[..|before|] == before
      && p[|before|..|before| + |listing|] == listing
      && p[|before| + |listing|..] == t.instructions
  {
    KeepIdempotent(cs, IsEnabled);
    var p := JudgePrompt(t, originalVariables, llmResponse, cs);
    var before := t.intro + originalVariables + t.beforeResponse + llmResponse + t.beforeCriteria;
    var listing := CriteriaListing(cs);
    assert p == before + listing + t.instructions;
  }

  // The overall score

  /** `enabledCriteria.reduce((sum, c) => sum + c.weight, 0)` */
  function TotalWeight(cs: seq<EvaluationCriteria>): int {
    if cs == [] then 0 else TotalWeight(cs[..|cs| - 1]) + cs[|cs| - 1].weight
  }

  /** `enabledCriteria.find(c => c.name === name)`: the first criterion with that name. */
  function FindCriterion(cs: seq<EvaluationCriteria>, name: string): (r: Option<EvaluationCriteria>)
    ensures r.Some? ==> r.value in cs && r.value.name == name
    ensures r.None? ==> forall i :: 0 <= i < |cs| ==> cs[i].name != name
    decreases |cs|
  {
    if cs == [] then None else if cs[0].name == name then Some(cs[0]) else FindCriterion(cs[1..], name)
  }

  /** The weight a result counts with: its criterion's, or 1 when no enabled criterion has its name. */
  function WeightOf(enabled: seq<EvaluationCriteria>, name: string): int {
    match FindCriterion(enabled, name)
    case Some(c) => c.weight
    case None => 1
  }

  /** The sum of each result's score times its weight. */
  function WeightedScore(enabled: seq<EvaluationCriteria>, results: seq<EvaluationResult>): int {
    if results == [] then 0
    else WeightedScore(enabled, results[..|results| - 1]) + results[|results| - 1].score * WeightOf(enabled, results[|results| - 1].criteriaName)
  }

  /** `Math.round(n / d)` for `d != 0`: the nearest integer, halves rounded up. */
  function RoundQuotient(n: int, d: int): int
    requires d != 0
  {
    if d > 0 then (2 * n + d) / (2 * d) else (-2 * n - d) / (-2 * d)
  }

  /** `Math.round(weighted / total * 10)`, the overall score in tenths; dividing by a zero total gives no number. */
  function OverallTenths(weighted: int, total: int): Option<int> {
    if total == 0 then None else Some(RoundQuotient(10 * weighted, total))
  }

  /** The rounded quotient is the integer nearest the quotient, a half rounded up: `k - 1/2 <= n/d < k + 1/2`. */
  lemma RoundQuotientNearest(n: int, d: int)
    requires d != 0
    ensures var k := RoundQuotient(n, d);
      var (n', d') := if d > 0 then (n, d) else (-n, -d);
      2 * d' * k - d' <= 2 * n' < 2 * d' * k + d'
  {
    var (n', d') := if d > 0 then (n, d) else (-n, -d);
    var k := RoundQuotient(n, d);
    assert k == (2 * n' + d') / (2 * d');
    var r := (2 * n' + d') % (2 * d');
    assert 2 * n' + d' == 2 * d' * k + r && 0 <= r < 2 * d';
  }

  lemma {:induction false} AtLeastOnce(x: int, b: int)
    requires b > 0
    ensures x >= 1 ==> x * b >= b
    ensures x <= -1 ==> x * b <= -b
    decreases if x < 0 then -x else x
  {
    if x > 1 {
      AtLeastOnce(x - 1, b);
      assert x * b == (x - 1) * b + b;
    } else if x < -1 {
      AtLeastOnce(x + 1, b);
      assert x * b == (x + 1) * b - b;
    }
  }

  lemma DivOfMultiplePlus(q: int, b: int, r: int)
    requires b > 0 && 0 <= r < b
    ensures (q * b + r) / b == q
  {
    var a := q * b + r;
    var x := a / b - q;
    assert x * b == r - a % b;
    AtLeastOnce(x, b);
  }

  /** A quotient that is a whole number rounds to itself. */
  lemma RoundExact(k: int, d: int)
    requires d != 0
    ensures RoundQuotient(k * d, d) == k
  {
    var d' := if d > 0 then d else -d;
    assert (if d > 0 then 2 * (k * d) + d else -2 * (k * d) - d) == k * (2 * d') + d';
    DivOfMultiplePlus(k, 2 * d', d');
  }

  /**
   * When the judge scores each enabled criterion once, in order, and gives
   * every one the same score, the weighted score is that score times the
   * total weight and the overall score is that score exactly.
   */
  lemma UniformScores(enabled: seq<EvaluationCriteria>, results: seq<EvaluationResult>, s: int)
    requires DistinctNames(enabled)
    requires |results| == |enabled|
    requires forall i :: 0 <= i < |results| ==> results[i].criteriaName == enabled[i].name && results[i].score == s
    ensures WeightedScore(enabled, results) == s * TotalWeight(enabled)
    ensures TotalWeight(enabled) != 0 ==> OverallTenths(WeightedScore(enabled, results), TotalWeight(enabled)) == Some(10 * s)
  {
    forall i | 0 <= i < |enabled| ensures WeightOf(enabled, enabled[i].name) == enabled[i].weight {
      FindFirstByName(enabled, i);
    }
    UniformSum(enabled, enabled, results, s);
    var t := TotalWeight(enabled);
    if t != 0 {
      RoundExact(10 * s, t);
    }
  }

  lemma {:induction false} FindFirstByName(cs: seq<EvaluationCriteria>, i: nat)
    requires DistinctNames(cs) && i < |cs|
    ensures FindCriterion(cs, cs[i].name) == Some(cs[i])
    decreases i
  {
    if i > 0 {
      assert cs[0].name != cs[i].name;
      FindFirstByName(cs[1..], i - 1);
    }
  }

  lemma {:induction false} UniformSum(all: seq<EvaluationCriteria>, cs: seq<EvaluationCriteria>, results: seq<EvaluationResult>, s: int)
    requires |results| == |cs|
    requires forall i :: 0 <= i < |results| ==> results[i].score == s && WeightOf(all, results[i].criteriaName) == cs[i].weight
    ensures WeightedScore(all, results) == s * TotalWeight(cs)
    decreases |cs|
  {
    if cs != [] {
      var n := |cs|;
      UniformSum(all, cs[..n - 1], results[..n - 1], s);
      var a, w := TotalWeight(cs[..n - 1]), cs[n - 1].weight;
      assert s * (a + w) == s * a + s * w;
    }
  }

  /** The weight of a disabled criterion never counts: a result naming only disabled criteria weighs 1. */
  lemma DisabledCriterionWeighsOne(cs: seq<EvaluationCriteria>, name: string)
    requires forall c :: c in cs && c.name == name ==> !c.enabled
    ensures WeightOf(Enabled(cs), name) == 1
  {
    KeepMembers(cs, IsEnabled);
  }

  // The service

  const KeyRequiredToEvaluate: string := "OpenAI API key is required for evaluation. Please configure it in Settings."

  /** What the judge request gives back. */
  datatype JudgeReply =
    | Unreachable(message: string)
    | HttpError(status: nat, statusText: string)
    | Unparseable(message: string)
    | Judged(results: seq<EvaluationResult>, feedback: string)

  /** The outcome of `evaluateResponse`, given the criteria argument and the judge's reply. */
  function Evaluate(config: ApiConfig, evaluationConfig: EvaluationConfig, criteria: Option<seq<EvaluationCriteria>>, reply: JudgeReply): Result<OverallEvaluation, string> {
    var enabled := Enabled(criteria.GetOr(evaluationConfig.criteria));
    if config.openaiKey == "" then Failure(KeyRequiredToEvaluate)
    else match reply
      case Unreachable(m) => Failure("Evaluation failed: " + m)
      case HttpError(status, statusText) => Failure("Evaluation failed: Evaluation API error: " + NatToString(status) + " " + statusText)
      case Unparseable(m) => Failure("Evaluation failed: " + m)
      case Judged(results, feedback) =>
        Success(OverallEvaluation(OverallTenths(WeightedScore(enabled, results), TotalWeight(enabled)), results, feedback))
  }

  /**
   * Without a key nothing is asked of the judge; otherwise the judge's scores
   * come back unchanged with the weighted score over the enabled criteria of
   * the given list, or of the configured one when none is given.
   */
  lemma EvaluateProperties(config: ApiConfig, evaluationConfig: EvaluationConfig, criteria: Option<seq<EvaluationCriteria>>, reply: JudgeReply)
    ensures config.openaiKey == "" ==> Evaluate(config, evaluationConfig, criteria, reply) == Failure(KeyRequiredToEvaluate)
    ensures Evaluate(config, evaluationConfig, criteria, reply).Success? <==> config.openaiKey != "" && reply.Judged?
    ensures Evaluate(config, evaluationConfig, criteria, reply).Success? ==>
      var e := Evaluate(config, evaluationConfig, criteria, reply).value;
      var enabled := Enabled(if criteria.Some? then criteria.value else evaluationConfig.criteria);
      var w, t := WeightedScore(enabled, reply.results), TotalWeight(enabled);
      && e.results == reply.results && e.feedback == reply.feedback
      && (e.overallTenths.Some? <==> t != 0)
      // the overall score in tenths is the integer nearest 10 * weighted / total, a half rounded up
      && (t > 0 ==> 2 * t * e.overallTenths.value - t <= 20 * w < 2 * t * e.overallTenths.value + t)
      && (t < 0 ==> -2 * t * e.overallTenths.value + t <= -20 * w < -2 * t * e.overallTenths.value - t)
    ensures criteria.None? ==> Evaluate(config, evaluationConfig, criteria, reply) == Evaluate(config, evaluationConfig, Some(evaluationConfig.criteria), reply)
  {
    if config.openaiKey != "" && reply.Judged? {
      var enabled := Enabled(criteria.GetOr(evaluationConfig.criteria));
      var w, t := WeightedScore(enabled, reply.results), TotalWeight(enabled);
      if t != 0 {
        RoundQuotientNearest(10 * w, t);
      }
    }
  }

  /** The service object: the application settings and the evaluation settings are its state. */
  class EvaluationService {
    var config: ApiConfig
    var evaluationConfig: EvaluationConfig

    constructor(config: ApiConfig)
      ensures this.config == config && evaluationConfig == EvaluationConfig(DefaultCriteria(), "gpt-4o")
    {
      this.config := config;
      evaluationConfig := EvaluationConfig(DefaultCriteria(), "gpt-4o");
    }

    method UpdateConfig(config: ApiConfig)
      modifies this
      ensures this.config == config && evaluationConfig == old(evaluationConfig)
    {
      this.config := config;
    }

    method UpdateEvaluationConfig(evaluationConfig: EvaluationConfig)
      modifies this
      ensures this.evaluationConfig == evaluationConfig && config == old(config)
    {
      this.evaluationConfig := evaluationConfig;
    }

    /** `validateEvaluationConfig`: push the key error, then the criteria error. */
    method ValidateEvaluationConfig() returns (v: Validation)
      ensures v.errors == EvaluationConfigErrors(config, evaluationConfig)
      ensures v.isValid <==> v.errors == []
    {
      var errors: seq<string> := [];
      if config.openaiKey == "" {
        errors := errors + [KeyRequired];
      } else if !StartsWith(config.openaiKey, "sk-") {
        errors := errors + [KeyPrefix];
      }
      var enabled := Keep(evaluationConfig.criteria, IsEnabled);
      if |enabled| == 0 {
        errors := errors + [NoCriterion];
      }
      v := Validation(errors == [], errors);
    }

    /** `evaluateResponse`, given what the judge request gives back. */
    method EvaluateResponse(criteria: Option<seq<EvaluationCriteria>>, reply: JudgeReply) returns (r: Result<OverallEvaluation, string>)
      ensures r == Evaluate(config, evaluationConfig, criteria, reply)
    {
      var evaluationCriteria := if criteria.Some? then criteria.value else evaluationConfig.criteria;
      var enabled := Keep(evaluationCriteria, IsEnabled);
      if config.openaiKey == "" {
        return Failure(KeyRequiredToEvaluate);
      }
      match reply {
        case Unreachable(m) =>
          r := Failure("Evaluation failed: " + m);
        case HttpError(status, statusText) =>
          r := Failure("Evaluation failed: Evaluation API error: " + NatToString(status) + " " + statusText);
        case Unparseable(m) =>
          r := Failure("Evaluation failed: " + m);
        case Judged(results, feedback) =>
          var total := TotalWeight(enabled);
          var weighted := WeightedScore(enabled, results);
          r := Success(OverallEvaluation(OverallTenths(weighted, total), results, feedback));
      }
    }
  }
}
