/**
 * The evaluation panel (src/EvaluationPanel.tsx): when an evaluation may be
 * asked for, the colour and label a score is shown with, the 32-bit string
 * hash stored beside each evaluation, and the history of the last fifty
 * evaluations, newest first.
 */
module EvaluationPanel {
  import opened Wrappers
  import opened Text
  import opened ApiService
  import opened Evaluation

  // When an evaluation can be asked for

  const ResponsePlaceholder: string := "The AI response will appear " + "here after execution."

  /** `canEvaluate`: a real response (not empty, not blank, not the placeholder) and a configuration without errors. */
  predicate CanEvaluate(llmResponse: string, config: ApiConfig, evaluationConfig: EvaluationConfig) {
    !(llmResponse == "" || Trim(llmResponse) == "" || llmResponse == ResponsePlaceholder)
    && EvaluationConfigErrors(config, evaluationConfig) == []
  }

  /**
   * An evaluation can be asked for exactly when the response holds a
   * character that is not white space, is not the placeholder, the key has
   * the `sk-` prefix and some criterion is enabled.
   */
  lemma CanEvaluateIff(llmResponse: string, config: ApiConfig, evaluationConfig: EvaluationConfig)
    ensures CanEvaluate(llmResponse, config, evaluationConfig) <==>
      && (exists i :: 0 <= i < |llmResponse| && !IsWhitespace(llmResponse[i]))
      && llmResponse != ResponsePlaceholder
      && StartsWith(config.openaiKey, "sk-")
      && (exists i :: 0 <= i < |evaluationConfig.criteria| && evaluationConfig.criteria[i].enabled)
  {
    EvaluationConfigErrorsFacts(config, evaluationConfig);
    BlankIffAllWhitespace(llmResponse);
  }

  // Score colours and labels

  const Green: string := "#22c55e"
  const Yellow: string := "#eab308"
  const Orange: string := "#f97316"
  const Red: string := "#ef4444"

  /** `getScoreColor` */
  function ScoreColor(score: real): string {
    if score >= 8.0 then Green
    else if score >= 6.0 then Yellow
    else if score >= 4.0 then Orange
    else Red
  }

  /** Where a colour stands, from red (0) to green (3). */
  function ColorRank(color: string): nat {
    if color == Green then 3 else if color == Yellow then 2 else if color == Orange then 1 else 0
  }

  /** A higher score never gets a worse colour; green is exactly the scores from 8 up, red those below 4. */
  lemma ScoreColorMonotone(s: real, t: real)
    requires s <= t
    ensures ColorRank(ScoreColor(s)) <= ColorRank(ScoreColor(t))
    ensures ScoreColor(s) == Green <==> s >= 8.0
    ensures ScoreColor(s) == Red <==> s < 4.0
  {
    ColorsDiffer();
  }

  lemma ColorsDiffer()
    ensures Green != Yellow && Green != Orange && Green != Red && Yellow != Orange && Yellow != Red && Orange != Red
  {
    assert Green[1] == '2' && Yellow[1] == 'e' && Orange[1] == 'f' && Red[1] == 'e' && Yellow[2] == 'a' && Red[2] == 'f';
  }

  /** `getOverallScoreLabel` */
  function ScoreLabel(score: real): string {
    if score >= 9.0 then "Excellent"
    else if score >= 8.0 then "Very Good"
    else if score >= 7.0 then "Good"
    else if score >= 6.0 then "Fair"
    else if score >= 4.0 then "Poor"
    else "Very Poor"
  }

  function LabelRank(name: string): nat {
    if name == "Excellent" then 5
    else if name == "Very Good" then 4
    else if name == "Good" then 3
    else if name == "Fair" then 2
    else if name == "Poor" then 1
    else 0
  }

  /** A higher score never gets a worse label; the label's rank counts the thresholds 4, 6, 7, 8, 9 the score reaches. */
  lemma ScoreLabelMonotone(s: real, t: real)
    requires s <= t
    ensures LabelRank(ScoreLabel(s)) <= LabelRank(ScoreLabel(t))
    ensures LabelRank(ScoreLabel(s)) ==
      (if s >= 4.0 then 1 else 0) + (if s >= 6.0 then 1 else 0) + (if s >= 7.0 then 1 else 0)
      + (if s >= 8.0 then 1 else 0) + (if s >= 9.0 then 1 else 0)
  {
    assert "Very Good"[0] != "Excellent"[0] && "Good"[0] != "Excellent"[0] && "Fair"[0] != "Excellent"[0];
    assert "Poor"[0] != "Excellent"[0] && "Very Poor"[0] != "Excellent"[0];
    assert "Good"[0] != "Very Good"[0] && "Fair"[0] != "Very Good"[0] && "Poor"[0] != "Very Good"[0] && "Very Poor"[5] != "Very Good"[5];
    assert "Fair"[0] != "Good"[0] && "Poor"[0] != "Good"[0] && "Very Poor"[0] != "Good"[0];
    assert "Poor"[0] != "Fair"[0] && "Very Poor"[0] != "Fair"[0];
    assert "Very Poor"[0] != "Poor"[0];
  }

  /** The overall score in tenths, as the number the panel shows. */
  function ShownScore(tenths: int): real {
    tenths as real / 10.0
  }

  /** When the judge gives every enabled criterion the same score, the panel shows that score with its label. */
  lemma UniformScoreShown(enabled: seq<EvaluationCriteria>, results: seq<EvaluationResult>, s: int)
    requires DistinctNames(enabled) && TotalWeight(enabled) != 0
    requires |results| == |enabled|
    requires forall i :: 0 <= i < |results| ==> results[i].criteriaName == enabled[i].name && results[i].score == s
    ensures OverallTenths(WeightedScore(enabled, results), TotalWeight(enabled)).Some?
    ensures ShownScore(OverallTenths(WeightedScore(enabled, results), TotalWeight(enabled)).value) == s as real
  {
    UniformScores(enabled, results, s);
  }

  // The string hash

  const TwoTo31: int := 0x8000_0000
  const TwoTo32: int := 0x1_0000_0000

  /** JavaScript's `ToInt32`: the 32-bit two's-complement value with the same low 32 bits. */
  function ToInt32(x: int): (r: int)
    ensures -TwoTo31 <= r < TwoTo31
  {
    (x + TwoTo31) % TwoTo32 - TwoTo31
  }

  /** A UTF-16 code unit, what `charCodeAt` gives. */
  type CodeUnit = x: int | 0 <= x < 0x1_0000

  /** The UTF-16 code units of a string: one per character, a surrogate pair beyond the basic plane. */
  function Utf16(s: string): (units: seq<CodeUnit>)
    ensures |units| >= |s|
  {
    if s == [] then []
    else
      var c := s[0] as int;
      (if c < 0x1_0000 then [c as CodeUnit]
       else [(0xD800 + (c - 0x1_0000) / 0x400) as CodeUnit, (0xDC00 + (c - 0x1_0000) % 0x400) as CodeUnit])
      + Utf16(s[1..])
  }

  /** The exact polynomial hash: the sum of unit i times 31 to the power of the number of units after it. */
  function PolynomialHash(units: seq<CodeUnit>): int {
    if units == [] then 0 else 31 * PolynomialHash(units[..|units| - 1]) + units[|units| - 1]
  }

  /** `hash = (hash << 5) - hash + char; hash = hash & hash` on a 32-bit value, in JavaScript's number semantics. */
  function HashStep(hash: int, unit: CodeUnit): int {
    ToInt32(ToInt32(hash * 32) - hash + unit)
  }

  lemma ToInt32Shift(y: int, k: int)
    ensures ToInt32(y + TwoTo32 * k) == ToInt32(y)
  {
  }

  /** One step of the loop is one step of the polynomial hash, taken modulo 2^32. */
  lemma HashStepWraps(p: int, unit: CodeUnit)
    ensures HashStep(ToInt32(p), unit) == ToInt32(31 * p + unit)
  {
    var h := ToInt32(p);
    var q := (p + TwoTo31) / TwoTo32;
    assert h == p - TwoTo32 * q;
    var q' := (h * 32 + TwoTo31) / TwoTo32;
    assert ToInt32(h * 32) == h * 32 - TwoTo32 * q';
    assert ToInt32(h * 32) - h + unit == (31 * p + unit) + TwoTo32 * (-31 * q - q');
    ToInt32Shift(31 * p + unit, -31 * q - q');
  }

  /** `Math.abs(hash).toString(16).slice(0, 16)` for a 32-bit hash. */
  function HashText(hash: int): string {
    var hex := ToHex(if hash < 0 then -hash else hash);
    hex[..if |hex| < 16 then |hex| else 16]
  }

  /** `createHash`: the hash of the string's UTF-16 code units, as lower-case hexadecimal. */
  method CreateHash(str: string) returns (h: string)
    ensures h == HashText(ToInt32(PolynomialHash(Utf16(str))))
  {
    var units := Utf16(str);
    var hash := 0;
    for i := 0 to |units|
      invariant hash == ToInt32(PolynomialHash(units[..i]))
    {
      assert units[..i + 1][..i] == units[..i];
      HashStepWraps(PolynomialHash(units[..i]), units[i]);
      hash := ToInt32(ToInt32(hash * 32) - hash + units[i]);
    }
    assert units[..|units|] == units;
    var hex := ToHex(if hash < 0 then -hash else hash);
    h := hex[..if |hex| < 16 then |hex| else 16];
  }

  /**
   * The stored hash is one to eight lower-case hexadecimal digits, so the
   * slice to sixteen never cuts anything, and the empty string hashes to "0".
   */
  lemma HashTextForm(hash: int)
    requires -TwoTo31 <= hash < TwoTo31
    ensures 1 <= |HashText(hash)| <= 8
    ensures forall i :: 0 <= i < |HashText(hash)| ==> IsLowerHexDigit(HashText(hash)[i])
    ensures HashText(hash) == ToHex(if hash < 0 then -hash else hash)
    ensures HashText(hash) == "0" <==> hash == 0
  {
    assert Pow16(8) == 0x1_0000_0000 by {
      assert Pow16(2) == 256;
      assert Pow16(4) == 256 * 256 by { assert Pow16(4) == 16 * 16 * Pow16(2); }
      assert Pow16(8) == 16 * 16 * 16 * 16 * Pow16(4);
    }
    ToHexLength(if hash < 0 then -hash else hash, 8);
  }

  lemma EmptyStringHash()
    ensures HashText(ToInt32(PolynomialHash(Utf16("")))) == "0"
  {
    HashTextForm(0);
  }

  // The history

  const HistoryLimit: nat := 50

  datatype SavedEvaluation = SavedEvaluation(evaluation: OverallEvaluation, promptHash: string, responseHash: string)

  /** `unshift` the new entry, then `splice(50)` when the list grew beyond fifty. */
  function Record(history: seq<SavedEvaluation>, e: SavedEvaluation): seq<SavedEvaluation> {
    var h := [e] + history;
    if |h| > HistoryLimit then h[..HistoryLimit] else h
  }

  /**
   * The new entry comes first, followed by the newest of the old ones in
   * their order; the history never exceeds fifty entries and nothing is lost
   * below that.
   */
  lemma RecordProperties(history: seq<SavedEvaluation>, e: SavedEvaluation)
    ensures var r := Record(history, e);
      && r[0] == e
      && |r| == (if |history| < HistoryLimit then |history| + 1 else HistoryLimit)
      && r[1..] == history[..|r| - 1]
  {
  }

  /** Recording keeps the bound: a history of at most fifty stays at most fifty, whatever is recorded. */
  lemma {:induction false} RecordAllBounded(history: seq<SavedEvaluation>, es: seq<SavedEvaluation>)
    requires |history| <= HistoryLimit
    ensures |RecordAll(history, es)| <= HistoryLimit
    ensures es != [] ==> RecordAll(history, es)[0] == es[|es| - 1]
    decreases |es|
  {
    if es != [] {
      RecordAllBounded(history, es[..|es| - 1]);
    }
  }

  /** The history after recording each of `es` in turn. */
  function RecordAll(history: seq<SavedEvaluation>, es: seq<SavedEvaluation>): seq<SavedEvaluation> {
    if es == [] then history else Record(RecordAll(history, es[..|es| - 1]), es[|es| - 1])
  }

  /** The panel: the service it asks, the stored history, and what it shows. */
  class Panel {
    const service: EvaluationService
    var history: seq<SavedEvaluation>
    var currentEvaluation: Option<OverallEvaluation>
    var evaluationError: Option<string>

    constructor(service: EvaluationService, history: seq<SavedEvaluation>)
      ensures this.service == service && this.history == history
      ensures currentEvaluation.None? && evaluationError.None?
    {
      this.service := service;
      this.history := history;
      currentEvaluation := None;
      evaluationError := None;
    }

    /**
     * `handleEvaluate`, given the judge's reply: nothing happens unless an
     * evaluation can be asked for; a success is shown and recorded at the
     * head of the history with the hashes of the variables and the response;
     * a failure shows its message.
     */
    method HandleEvaluate(variables: string, llmResponse: string, reply: JudgeReply)
      modifies this
      ensures !CanEvaluate(llmResponse, service.config, service.evaluationConfig) ==>
        history == old(history) && currentEvaluation == old(currentEvaluation) && evaluationError == old(evaluationError)
      ensures CanEvaluate(llmResponse, service.config, service.evaluationConfig) ==>
        match Evaluate(service.config, service.evaluationConfig, None, reply)
        case Success(e) =>
          && currentEvaluation == Some(e) && evaluationError.None?
          && history == Record(old(history), SavedEvaluation(e,
               HashText(ToInt32(PolynomialHash(Utf16(variables)))), HashText(ToInt32(PolynomialHash(Utf16(llmResponse))))))
        case Failure(m) =>
          evaluationError == Some(m) && history == old(history) && currentEvaluation == old(currentEvaluation)
    {
      if llmResponse == "" || Trim(llmResponse) == "" || llmResponse == ResponsePlaceholder {
        return;
      }
      var validation := service.ValidateEvaluationConfig();
      if !validation.isValid {
        return;
      }
      evaluationError := None;
      var outcome := service.EvaluateResponse(None, reply);
      match outcome {
        case Success(e) =>
          currentEvaluation := Some(e);
          var promptHash := CreateHash(variables);
          var responseHash := CreateHash(llmResponse);
          var saved := [SavedEvaluation(e, promptHash, responseHash)] + history;
          if |saved| > HistoryLimit {
            saved := saved[..HistoryLimit];
          }
          history := saved;
        case Failure(m) =>
          evaluationError := Some(m);
      }
    }
  }
}
