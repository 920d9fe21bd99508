/**
 * `validateMultiStepPrompt` and `createMultiStepTemplate`
 * (src/multiStepService.ts): the checks a multi-step prompt must pass before
 * it is saved, and the prompt a new editor starts from.
 */
module MultiStepValidation {
  import opened Wrappers
  import opened Text
  import opened Json
  import opened Sorting
  import opened MultiStep

  const NameRequired: string := "Multi-step prompt name is required"
  const StepsRequired: string := "At least one step is required"
  const OrdersNotUnique: string := "Step orders must be unique"
  const OrdersHaveGaps: string := "Step orders should not have gaps"
  const GlobalsInvalid: string := "Global variables must be valid JSON"

  /** "Step n: ", numbering steps from 1 in their stored (unsorted) order. */
  function StepLabel(index: nat): (l: string)
    ensures |l| > 5 && '0' <= l[5] <= '9'
  {
    "Step " + NatToString(index + 1) + ": "
  }

  function Orders(steps: seq<PromptStep>): (os: seq<int>)
    ensures |os| == |steps|
    ensures forall i :: 0 <= i < |steps| ==> os[i] == steps[i].order
  {
    seq(|steps|, i requires 0 <= i < |steps| => steps[i].order)
  }

  /** The members of a JavaScript `Set` built from `s`: each value once, in order of first occurrence. */
  function Dedup(s: seq<int>): seq<int> {
    if s == [] then []
    else
      var d := Dedup(s[..|s| - 1]);
      if s[|s| - 1] in d then d else d + [s[|s| - 1]]
  }

  function Identity(x: int): int { x }

  /** The distinct orders in ascending order. */
  function SortedOrders(steps: seq<PromptStep>): seq<int> {
    SortBy(Dedup(Orders(steps)), Identity)
  }

  /** The number of neighbouring sorted orders more than one apart. */
  function GapCount(sorted: seq<int>): nat {
    if |sorted| < 2 then 0
    else GapCount(sorted[..|sorted| - 1]) + (if sorted[|sorted| - 1] - sorted[|sorted| - 2] > 1 then 1 else 0)
  }

  function Repeat(m: string, n: nat): (r: seq<string>)
    ensures |r| == n && forall i :: 0 <= i < n ==> r[i] == m
  {
    seq(n, _ => m)
  }

  const NameMissing: string := "Name is required"
  const PromptMissing: string := "Prompt is required"
  const VariablesInvalid: string := "Variables must be valid JSON"

  function StepErrors(codec: JsonCodec, step: PromptStep, index: nat): seq<string> {
    (if IsBlank(step.name) then [StepLabel(index) + NameMissing] else [])
    + (if IsBlank(step.prompt) then [StepLabel(index) + PromptMissing] else [])
    + (if codec.parse(step.variables).Failure? then [StepLabel(index) + VariablesInvalid] else [])
  }

  function AllStepErrors(codec: JsonCodec, steps: seq<PromptStep>): seq<string> {
    if steps == [] then []
    else AllStepErrors(codec, steps[..|steps| - 1]) + StepErrors(codec, steps[|steps| - 1], |steps| - 1)
  }

  function HeaderErrors(p: MultiStepPrompt): seq<string> {
    (if IsBlank(p.name) then [NameRequired] else []) + (if |p.steps| == 0 then [StepsRequired] else [])
  }

  function OrderErrors(steps: seq<PromptStep>): seq<string> {
    (if |Dedup(Orders(steps))| != |steps| then [OrdersNotUnique] else [])
    + Repeat(OrdersHaveGaps, GapCount(SortedOrders(steps)))
  }

  function GlobalErrors(codec: JsonCodec, p: MultiStepPrompt): seq<string> {
    if codec.parse(p.globalVariables).Failure? then [GlobalsInvalid] else []
  }

  /** Every error `validateMultiStepPrompt` reports, in the order it reports them. */
  function ValidationErrors(codec: JsonCodec, p: MultiStepPrompt): seq<string> {
    HeaderErrors(p) + OrderErrors(p.steps) + AllStepErrors(codec, p.steps) + GlobalErrors(codec, p)
  }

  /**
   * The validator: named checks, then the orders (one duplicate error at
   * most, one gap error per gap), then each step, then the global variables.
   */
  method ValidateMultiStepPrompt(codec: JsonCodec, p: MultiStepPrompt) returns (v: Validation)
    ensures v.errors == ValidationErrors(codec, p)
    ensures v.isValid <==> v.errors == []
  {
    var errors: seq<string> := [];
    if IsBlank(p.name) {
      errors := errors + [NameRequired];
    }
    if |p.steps| == 0 {
      errors := errors + [StepsRequired];
    }
    assert errors == HeaderErrors(p);
    var orders := Orders(p.steps);
    var unique := UniqueOrders(orders);
    var duplicates: seq<string> := [];
    if |orders| != |unique| {
      duplicates := [OrdersNotUnique];
    }
    var gaps := CheckGaps(SortBy(unique, Identity));
    assert duplicates + gaps == OrderErrors(p.steps);
    errors := errors + (duplicates + gaps);
    var stepErrors := CheckSteps(codec, p.steps);
    errors := errors + stepErrors;
    if codec.parse(p.globalVariables).Failure? {
      errors := errors + [GlobalsInvalid];
    }
    assert errors == HeaderErrors(p) + OrderErrors(p.steps) + AllStepErrors(codec, p.steps) + GlobalErrors(codec, p);
    v := Validation(errors == [], errors);
  }

  /** `new Set(orders)`, listed in insertion order. */
  method UniqueOrders(orders: seq<int>) returns (unique: seq<int>)
    ensures unique == Dedup(orders)
  {
    unique := [];
    var i := 0;
    while i < |orders|
      invariant 0 <= i <= |orders|
      invariant unique == Dedup(orders[..i])
    {
      assert orders[..i + 1][..i] == orders[..i];
      if orders[i] !in unique {
        unique := unique + [orders[i]];
      }
      i := i + 1;
    }
    assert orders[..|orders|] == orders;
  }

  /** The gap loop: one error for each neighbouring pair more than one apart. */
  method CheckGaps(sorted: seq<int>) returns (gaps: seq<string>)
    ensures gaps == Repeat(OrdersHaveGaps, GapCount(sorted))
  {
    gaps := [];
    if |sorted| == 0 {
      return;
    }
    var i := 0;
    while i + 1 < |sorted|
      invariant 0 <= i < |sorted|
      invariant gaps == Repeat(OrdersHaveGaps, GapCount(sorted[..i + 1]))
    {
      assert sorted[..i + 2][..i + 1] == sorted[..i + 1];
      if sorted[i + 1] - sorted[i] > 1 {
        assert Repeat(OrdersHaveGaps, |gaps| + 1) == gaps + [OrdersHaveGaps];
        gaps := gaps + [OrdersHaveGaps];
      }
      i := i + 1;
    }
    assert sorted[..i + 1] == sorted;
  }

  /** The `forEach` over the steps, numbering them from 1. */
  method CheckSteps(codec: JsonCodec, steps: seq<PromptStep>) returns (errors: seq<string>)
    ensures errors == AllStepErrors(codec, steps)
  {
    errors := [];
    var i := 0;
    while i < |steps|
      invariant 0 <= i <= |steps|
      invariant errors == AllStepErrors(codec, steps[..i])
    {
      assert steps[..i + 1][..i] == steps[..i];
      var found := CheckStep(codec, steps[i], i);
      errors := errors + found;
      i := i + 1;
    }
    assert steps[..|steps|] == steps;
  }

  /** The three checks on one step. */
  method CheckStep(codec: JsonCodec, step: PromptStep, index: nat) returns (found: seq<string>)
    ensures found == StepErrors(codec, step, index)
  {
    found := [];
    if IsBlank(step.name) {
      found := found + [StepLabel(index) + NameMissing];
    }
    if IsBlank(step.prompt) {
      found := found + [StepLabel(index) + PromptMissing];
    }
    if codec.parse(step.variables).Failure? {
      found := found + [StepLabel(index) + VariablesInvalid];
    }
  }

  /** The `Set` keeps each value of `s` once and loses none; it is as long as `s` exactly when `s` repeats nothing. */
  lemma {:induction false} DedupProperties(s: seq<int>)
    ensures Distinct(Dedup(s))
    ensures forall x :: x in Dedup(s) <==> x in s
    ensures |Dedup(s)| <= |s|
    ensures |Dedup(s)| == |s| <==> Distinct(s)
    decreases |s|
  {
    if s != [] {
      var init, x := s[..|s| - 1], s[|s| - 1];
      DedupProperties(init);
      assert s == init + [x];
      if x in init {
        var k :| 0 <= k < |init| && init[k] == x;
        assert s[k] == s[|s| - 1];
      } else {
        assert Distinct(s) <==> Distinct(init);
      }
    }
  }

  /** A pattern of orders nobody can fill in between: every integer between two orders is an order. */
  predicate Interval(os: seq<int>) {
    forall a, b, c :: a in os && b in os && a <= c <= b ==> c in os
  }

  predicate StrictlyIncreasing(s: seq<int>) {
    forall i, j :: 0 <= i < j < |s| ==> s[i] < s[j]
  }

  lemma {:induction false} GapCountZero(s: seq<int>)
    ensures GapCount(s) == 0 <==> forall i :: 0 <= i < |s| - 1 ==> s[i + 1] - s[i] <= 1
    decreases |s|
  {
    if |s| >= 2 {
      var init := s[..|s| - 1];
      GapCountZero(init);
      assert forall i :: 0 <= i < |init| ==> init[i] == s[i];
    }
  }

  lemma {:induction false} StepsOfOne(s: seq<int>, k: nat)
    requires forall i :: 0 <= i < |s| - 1 ==> s[i + 1] - s[i] == 1
    requires k < |s|
    ensures s[k] == s[0] + k
    decreases k
  {
    if k > 0 {
      StepsOfOne(s, k - 1);
    }
  }

  /** A strictly increasing sequence has no gap exactly when its values form an interval. */
  lemma NoGapsIffInterval(s: seq<int>)
    requires StrictlyIncreasing(s)
    ensures GapCount(s) == 0 <==> Interval(s)
  {
    GapCountZero(s);
    if GapCount(s) == 0 {
      forall i | 0 <= i < |s| - 1 ensures s[i + 1] - s[i] == 1 {}
      forall a, b, c | a in s && b in s && a <= c <= b ensures c in s {
        var ia :| 0 <= ia < |s| && s[ia] == a;
        StepsOfOne(s, ia);
        var k := c - s[0];
        var ib :| 0 <= ib < |s| && s[ib] == b;
        StepsOfOne(s, ib);
        StepsOfOne(s, k);
        assert s[k] == c;
      }
    }
    if Interval(s) {
      forall i | 0 <= i < |s| - 1 ensures s[i + 1] - s[i] <= 1 {
        var c := s[i] + 1;
        assert s[i] in s && s[i + 1] in s && s[i] <= c <= s[i + 1];
        assert c in s;
        var m :| 0 <= m < |s| && s[m] == c;
        assert m > i;
        assert s[i + 1] <= s[m];
      }
    }
  }

  /** The sorted distinct orders are exactly the orders the steps carry. */
  lemma SortedOrdersMembers(steps: seq<PromptStep>)
    ensures forall x :: x in SortedOrders(steps) <==> x in Orders(steps)
  {
    var u := Dedup(Orders(steps));
    DedupProperties(Orders(steps));
    SortByProperties(u, Identity);
    var s := SortedOrders(steps);
    forall x ensures x in s <==> x in u {
      assert x in s <==> x in multiset(s);
      assert x in u <==> x in multiset(u);
    }
  }

  /** The sorted distinct orders increase strictly. */
  lemma SortedOrdersIncrease(steps: seq<PromptStep>)
    ensures StrictlyIncreasing(SortedOrders(steps))
  {
    var u := Dedup(Orders(steps));
    DedupProperties(Orders(steps));
    SortByProperties(u, Identity);
    SortByDistinct(u, Identity);
    SortedDistinctIncrease(SortBy(u, Identity));
  }

  lemma SortedDistinctIncrease(s: seq<int>)
    requires SortedBy(s, Identity) && Distinct(s)
    ensures StrictlyIncreasing(s)
  {
    forall i, j | 0 <= i < j < |s| ensures s[i] < s[j] {
      assert Identity(s[i]) <= Identity(s[j]);
    }
  }

  /** The orders form an interval exactly when the sorted distinct orders do. */
  lemma IntervalOfOrders(steps: seq<PromptStep>)
    ensures Interval(SortedOrders(steps)) <==> Interval(Orders(steps))
  {
    SortedOrdersMembers(steps);
  }

  /** The conditions a multi-step prompt must meet, stated without the error list. */
  predicate WellFormedPrompt(codec: JsonCodec, p: MultiStepPrompt) {
    && !IsBlank(p.name)
    && |p.steps| > 0
    && Distinct(Orders(p.steps))
    && Interval(Orders(p.steps))
    && (forall i :: 0 <= i < |p.steps| ==>
          !IsBlank(p.steps[i].name) && !IsBlank(p.steps[i].prompt) && codec.parse(p.steps[i].variables).Success?)
    && codec.parse(p.globalVariables).Success?
  }

  lemma {:induction false} AllStepErrorsEmpty(codec: JsonCodec, steps: seq<PromptStep>)
    ensures AllStepErrors(codec, steps) == [] <==> forall i :: 0 <= i < |steps| ==>
      !IsBlank(steps[i].name) && !IsBlank(steps[i].prompt) && codec.parse(steps[i].variables).Success?
    decreases |steps|
  {
    if steps != [] {
      var init := steps[..|steps| - 1];
      AllStepErrorsEmpty(codec, init);
      assert forall i :: 0 <= i < |init| ==> init[i] == steps[i];
    }
  }

  /** A prompt passes validation exactly when it meets every condition. */
  lemma ValidIffWellFormed(codec: JsonCodec, p: MultiStepPrompt)
    ensures ValidationErrors(codec, p) == [] <==> WellFormedPrompt(codec, p)
  {
    DedupProperties(Orders(p.steps));
    SortedOrdersIncrease(p.steps);
    NoGapsIffInterval(SortedOrders(p.steps));
    IntervalOfOrders(p.steps);
    AllStepErrorsEmpty(codec, p.steps);
  }

  lemma LabelledMessage(l: string, m: string)
    requires |l| > 5 && '0' <= l[5] <= '9'
    ensures |l + m| > 5 && '0' <= (l + m)[5] <= '9'
  {
  }

  /** Every step error names its step: its sixth character is the first digit of the step number. */
  lemma {:induction false} StepErrorsNumbered(codec: JsonCodec, steps: seq<PromptStep>)
    ensures forall e :: e in AllStepErrors(codec, steps) ==> |e| > 5 && '0' <= e[5] <= '9'
    decreases |steps|
  {
    if steps != [] {
      var init := steps[..|steps| - 1];
      StepErrorsNumbered(codec, init);
      OneStepErrorsNumbered(codec, steps[|steps| - 1], |steps| - 1);
      assert AllStepErrors(codec, steps) == AllStepErrors(codec, init) + StepErrors(codec, steps[|steps| - 1], |steps| - 1);
    }
  }

  lemma OneStepErrorsNumbered(codec: JsonCodec, step: PromptStep, index: nat)
    ensures forall e :: e in StepErrors(codec, step, index) ==> |e| > 5 && '0' <= e[5] <= '9'
  {
    var l := StepLabel(index);
    LabelledMessage(l, NameMissing);
    LabelledMessage(l, PromptMissing);
    LabelledMessage(l, VariablesInvalid);
  }

  lemma {:induction false} RepeatCount(m: string, n: nat)
    ensures multiset(Repeat(m, n))[m] == n
    decreases n
  {
    if n > 0 {
      RepeatCount(m, n - 1);
      assert Repeat(m, n) == Repeat(m, n - 1) + [m];
    }
  }

  lemma MessagesDiffer()
    ensures OrdersNotUnique[5] == 'o' && OrdersHaveGaps[5] == 'o'
    ensures OrdersNotUnique != OrdersHaveGaps
    ensures NameRequired != OrdersNotUnique && StepsRequired != OrdersNotUnique && GlobalsInvalid != OrdersNotUnique
    ensures NameRequired != OrdersHaveGaps && StepsRequired != OrdersHaveGaps && GlobalsInvalid != OrdersHaveGaps
  {
  }

  /**
   * Repeated orders are reported once, however many steps share an order,
   * and only when some two steps share one; each gap between neighbouring
   * distinct orders is reported once.
   */
  lemma OrderErrorCounts(codec: JsonCodec, p: MultiStepPrompt)
    ensures multiset(ValidationErrors(codec, p))[OrdersNotUnique] == if Distinct(Orders(p.steps)) then 0 else 1
    ensures multiset(ValidationErrors(codec, p))[OrdersHaveGaps] == GapCount(SortedOrders(p.steps))
  {
    OrderMessagesOnlyFromOrders(codec, p);
    DedupProperties(Orders(p.steps));
    var dup := if |Dedup(Orders(p.steps))| != |p.steps| then [OrdersNotUnique] else [];
    var gaps := Repeat(OrdersHaveGaps, GapCount(SortedOrders(p.steps)));
    RepeatCount(OrdersHaveGaps, |gaps|);
    assert OrdersNotUnique !in gaps;
    assert OrderErrors(p.steps) == dup + gaps;
    var h, st, g := HeaderErrors(p), AllStepErrors(codec, p.steps), GlobalErrors(codec, p);
    assert ValidationErrors(codec, p) == h + (dup + gaps) + st + g;
    CountOutside(OrdersNotUnique, h, dup + gaps, st, g);
    CountOutside(OrdersHaveGaps, h, dup + gaps, st, g);
  }

  /** A message absent from the other parts is counted only in the middle one. */
  lemma CountOutside(m: string, before: seq<string>, middle: seq<string>, after: seq<string>, last: seq<string>)
    requires m !in before && m !in after && m !in last
    ensures multiset(before + middle + after + last)[m] == multiset(middle)[m]
  {
    assert multiset(before)[m] == 0 && multiset(after)[m] == 0 && multiset(last)[m] == 0;
  }

  /** No error outside the order checks reads like one of theirs. */
  lemma OrderMessagesOnlyFromOrders(codec: JsonCodec, p: MultiStepPrompt)
    ensures OrdersNotUnique !in HeaderErrors(p) && OrdersHaveGaps !in HeaderErrors(p)
    ensures OrdersNotUnique !in GlobalErrors(codec, p) && OrdersHaveGaps !in GlobalErrors(codec, p)
    ensures OrdersNotUnique !in AllStepErrors(codec, p.steps) && OrdersHaveGaps !in AllStepErrors(codec, p.steps)
  {
    MessagesDiffer();
    var h := HeaderErrors(p);
    assert forall e :: e in h ==> e == NameRequired || e == StepsRequired;
    StepErrorsNumberedNot(codec, p.steps, OrdersNotUnique);
    StepErrorsNumberedNot(codec, p.steps, OrdersHaveGaps);
  }

  lemma StepErrorsNumberedNot(codec: JsonCodec, steps: seq<PromptStep>, m: string)
    requires |m| > 5 && m[5] == 'o'
    ensures m !in AllStepErrors(codec, steps)
  {
    StepErrorsNumbered(codec, steps);
  }

  /** `createMultiStepTemplate`, given the current time in milliseconds. */
  function MultiStepTemplate(now: nat): MultiStepPrompt {
    MultiStepPrompt(
      NatToString(now),
      "New Multi-Step Prompt",
      "Description of the multi-step process",
      [
        PromptStep("step-1-" + NatToString(now), "Step 1",
                   "Your first prompt here. " + "Use {{variable_name}} for variables.", "{}", 1, "step1_output"),
        PromptStep("step-2-" + NatToString(now), "Step 2",
                   "Your second prompt here. " + "You can use {{step1_output}} from the previous step.", "{}", 2, "")
      ],
      "{\n  \"agent_info\": {\n    \"name\": \"Assistant\",\n    \"role\": \"AI Helper\"\n  }\n}",
      now,
      now)
  }

  lemma NotBlank(s: string)
    requires |s| > 0 && !IsWhitespace(s[0])
    ensures !IsBlank(s)
  {
    BlankIffAllWhitespace(s);
  }

  /**
   * The new prompt passes validation with any JSON parser that accepts `{}`
   * and its global variables text, and runs its two steps in the order 1, 2.
   */
  lemma TemplateIsValid(codec: JsonCodec, now: nat)
    requires codec.parse("{}").Success?
    requires codec.parse(MultiStepTemplate(now).globalVariables).Success?
    ensures ValidationErrors(codec, MultiStepTemplate(now)) == []
    ensures SortedSteps(MultiStepTemplate(now)) == MultiStepTemplate(now).steps
  {
    TemplateWellFormed(codec, now);
    ValidIffWellFormed(codec, MultiStepTemplate(now));
    TemplateSorted(now);
  }

  lemma TemplateWellFormed(codec: JsonCodec, now: nat)
    requires codec.parse("{}").Success?
    requires codec.parse(MultiStepTemplate(now).globalVariables).Success?
    ensures WellFormedPrompt(codec, MultiStepTemplate(now))
  {
    var p := MultiStepTemplate(now);
    OrdersOneTwo(p.steps);
    NotBlank(p.name);
    NotBlank(p.steps[0].name);
    NotBlank(p.steps[1].name);
    NotBlank(p.steps[0].prompt);
    NotBlank(p.steps[1].prompt);
  }

  lemma OrdersOneTwo(steps: seq<PromptStep>)
    requires |steps| == 2 && steps[0].order == 1 && steps[1].order == 2
    ensures Distinct(Orders(steps)) && Interval(Orders(steps))
  {
    var os := Orders(steps);
    assert os == [1, 2];
    forall a, b, c | a in os && b in os && a <= c <= b ensures c in os {}
  }

  lemma TemplateSorted(now: nat)
    ensures SortedSteps(MultiStepTemplate(now)) == MultiStepTemplate(now).steps
  {
    var p := MultiStepTemplate(now);
    var s0, s1 := p.steps[0], p.steps[1];
    assert p.steps == [s0, s1] && StepOrder(s0) == 1 && StepOrder(s1) == 2;
    assert p.steps[..1] == [s0] && [s0][..0] == [];
    assert SortBy([s0], StepOrder) == Insert(s0, [], StepOrder) == [s0];
    assert Insert(s1, [s0], StepOrder) == [s0] + Insert(s1, [], StepOrder) == [s0, s1];
  }
}
