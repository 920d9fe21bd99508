/**
 * The step list of the multi-step editor (src/MultiStepPromptEditor.tsx):
 * adding a step after the highest order, deleting a step and renumbering the
 * rest, moving a step by drag and drop, and editing the fields of a step.
 * Every edit stamps the prompt's `lastModified` with the current time, which
 * is a parameter.
 */
module StepEditor {
  import opened Wrappers
  import opened Text
  import opened Lists
  import opened Json
  import opened MultiStep

  /** `Math.max(...orders, 0)`: the highest order, or 0 when none is higher. */
  function MaxOrder(steps: seq<PromptStep>): (m: int)
    ensures m >= 0
    ensures forall i :: 0 <= i < |steps| ==> steps[i].order <= m
    ensures m == 0 || exists i :: 0 <= i < |steps| && steps[i].order == m
  {
    if steps == [] then 0
    else
      var m := MaxOrder(steps[..|steps| - 1]);
      if steps[|steps| - 1].order > m then steps[|steps| - 1].order else m
  }

  const NewStepPrompt: string := "Your prompt here. Use {{variable_name}} " + "for variables."

  /** The step `addStep` creates under the given id. */
  function NewStep(steps: seq<PromptStep>, id: string): PromptStep {
    var n := MaxOrder(steps) + 1;
    PromptStep(id, "Step " + NatToString(n), NewStepPrompt, "{}", n, "step" + NatToString(n) + "_output")
  }

  /** The steps after `addStep`. */
  function WithNewStep(steps: seq<PromptStep>, id: string): seq<PromptStep> {
    steps + [NewStep(steps, id)]
  }

  /**
   * Adding keeps every step as it was and appends one whose order is above
   * every existing order (so no order repeats), at least 1, and equal to
   * n + 1 when the n steps are numbered 1..n; its name and output variable
   * carry that number and its variables are the empty object.
   */
  lemma AddStepProperties(steps: seq<PromptStep>, id: string)
    ensures var r := WithNewStep(steps, id);
      && |r| == |steps| + 1 && r[..|steps|] == steps
      && r[|steps|].id == id && r[|steps|].variables == "{}"
      && r[|steps|].order >= 1
      && (forall i :: 0 <= i < |steps| ==> steps[i].order < r[|steps|].order)
      && r[|steps|].name == "Step " + NatToString(r[|steps|].order)
      && r[|steps|].outputVariable == "step" + NatToString(r[|steps|].order) + "_output"
    ensures NumberedInOrder(steps) ==> WithNewStep(steps, id)[|steps|].order == |steps| + 1
  {
    var r := WithNewStep(steps, id);
    assert r[..|steps|] == steps;
    if NumberedInOrder(steps) && steps != [] {
      assert steps[|steps| - 1].order == |steps|;
    }
  }

  /** Step i has order i + 1. */
  predicate NumberedInOrder(steps: seq<PromptStep>) {
    forall i :: 0 <= i < |steps| ==> steps[i].order == i + 1
  }

  /** `steps.map((step, index) => ({ ...step, order: index + 1 }))` */
  function Renumber(steps: seq<PromptStep>): seq<PromptStep> {
    seq(|steps|, i requires 0 <= i < |steps| => steps[i].(order := i + 1))
  }

  /** Two step lists that agree everywhere except in the orders. */
  predicate SameButOrders(a: seq<PromptStep>, b: seq<PromptStep>) {
    |a| == |b| && forall i :: 0 <= i < |a| ==> a[i].(order := 0) == b[i].(order := 0)
  }

  /** Renumbering numbers the steps 1..n and changes nothing else; on steps numbered so it changes nothing. */
  lemma RenumberProperties(steps: seq<PromptStep>)
    ensures NumberedInOrder(Renumber(steps))
    ensures SameButOrders(Renumber(steps), steps)
    ensures NumberedInOrder(steps) ==> Renumber(steps) == steps
  {
  }

  function HasNotId(id: string): PromptStep -> bool {
    (s: PromptStep) => s.id != id
  }

  /** The steps after `deleteStep(id)`: a single step is never deleted; otherwise drop that id and renumber. */
  function WithoutStep(steps: seq<PromptStep>, id: string): seq<PromptStep> {
    if |steps| <= 1 then steps else Renumber(Keep(steps, HasNotId(id)))
  }

  /**
   * Deleting from two or more steps leaves exactly the other steps, in their
   * order, numbered 1..n; the last step is never deleted.
   */
  lemma DeleteStepProperties(steps: seq<PromptStep>, id: string)
    ensures |steps| <= 1 ==> WithoutStep(steps, id) == steps
    ensures |steps| > 1 ==>
      && NumberedInOrder(WithoutStep(steps, id))
      && SameButOrders(WithoutStep(steps, id), Keep(steps, HasNotId(id)))
      && (forall i :: 0 <= i < |WithoutStep(steps, id)| ==> WithoutStep(steps, id)[i].id != id)
      && (forall s :: s in steps && s.id != id ==> s in Keep(steps, HasNotId(id)))
      && (|WithoutStep(steps, id)| < |steps| <==> exists i :: 0 <= i < |steps| && steps[i].id == id)
  {
    var kept := Keep(steps, HasNotId(id));
    KeepMembers(steps, HasNotId(id));
    RenumberProperties(kept);
    if |steps| > 1 {
      forall i | 0 <= i < |kept| ensures kept[i].id != id {
        assert kept[i] in kept;
      }
      KeptShorter(steps, id);
    }
  }

  lemma {:induction false} KeptShorter(steps: seq<PromptStep>, id: string)
    ensures |Keep(steps, HasNotId(id))| < |steps| <==> exists i :: 0 <= i < |steps| && steps[i].id == id
    decreases |steps|
  {
    if steps != [] {
      KeptShorter(steps[1..], id);
      KeepMembers(steps[1..], HasNotId(id));
      if exists i :: 0 <= i < |steps[1..]| && steps[1..][i].id == id {
        var i :| 0 <= i < |steps[1..]| && steps[1..][i].id == id;
        assert steps[i + 1].id == id;
      }
      if exists i :: 0 <= i < |steps| && steps[i].id == id {
        var i :| 0 <= i < |steps| && steps[i].id == id;
        if i > 0 {
          assert steps[1..][i - 1].id == id;
        }
      }
    }
  }

  // Drag and drop

  function HasId(id: string): PromptStep -> bool {
    (s: PromptStep) => s.id == id
  }

  /** The list with the element at `i` taken out: `splice(i, 1)`. */
  function RemoveAt(s: seq<PromptStep>, i: nat): seq<PromptStep>
    requires i < |s|
  {
    s[..i] + s[i + 1..]
  }

  /** The list with `x` put in at `i`: `splice(i, 0, x)`. */
  function InsertAt(s: seq<PromptStep>, i: nat, x: PromptStep): seq<PromptStep>
    requires i <= |s|
  {
    s[..i] + [x] + s[i..]
  }

  /** The step at `from` moved to position `to`, the others keeping their order. */
  function Move(s: seq<PromptStep>, from: nat, to: nat): seq<PromptStep>
    requires from < |s| && to < |s|
  {
    InsertAt(RemoveAt(s, from), to, s[from])
  }

  /**
   * The steps after dropping the dragged step on the target: nothing changes
   * when nothing (or the empty id) is dragged, when it is dropped on itself,
   * or when either id is missing; otherwise the dragged step moves to the
   * target's position and all are renumbered.
   */
  function Dropped(steps: seq<PromptStep>, draggedId: Option<string>, targetId: string): seq<PromptStep> {
    if DropApplies(steps, draggedId, targetId) then
      Renumber(Move(steps, FirstIndex(steps, HasId(draggedId.value)).value, FirstIndex(steps, HasId(targetId)).value))
    else steps
  }

  /** Something other than the empty id is dragged onto another step, and both are in the list. */
  predicate DropApplies(steps: seq<PromptStep>, draggedId: Option<string>, targetId: string) {
    && draggedId.Some? && draggedId.value != "" && draggedId.value != targetId
    && FirstIndex(steps, HasId(draggedId.value)).Some? && FirstIndex(steps, HasId(targetId)).Some?
  }

  /**
   * A move is a permutation that puts the moved step at the target position
   * and leaves the other steps in their relative order; the step that was at
   * the target ends next to it, before it when dragged down and after it
   * when dragged up.
   */
  lemma MoveProperties(s: seq<PromptStep>, from: nat, to: nat)
    requires from < |s| && to < |s|
    ensures var m := Move(s, from, to);
      && |m| == |s| && multiset(m) == multiset(s)
      && m[to] == s[from]
      && RemoveAt(m, to) == RemoveAt(s, from)
      && (from < to ==> m[to - 1] == s[to])
      && (to < from ==> m[to + 1] == s[to])
  {
    var m := Move(s, from, to);
    var r := RemoveAt(s, from);
    assert s == s[..from] + [s[from]] + s[from + 1..];
    assert multiset(s) == multiset(r) + multiset{s[from]};
    assert r == r[..to] + r[to..];
    assert multiset(m) == multiset(r) + multiset{s[from]};
    assert RemoveAt(m, to) == r[..to] + r[to..];
  }

  /** Dropping on a found target is the move of the dragged step to the target's position, renumbered. */
  lemma DropProperties(steps: seq<PromptStep>, draggedId: string, targetId: string, from: nat, to: nat)
    requires draggedId != "" && draggedId != targetId
    requires from < |steps| && steps[from].id == draggedId && forall j :: 0 <= j < from ==> steps[j].id != draggedId
    requires to < |steps| && steps[to].id == targetId && forall j :: 0 <= j < to ==> steps[j].id != targetId
    ensures var r := Dropped(steps, Some(draggedId), targetId);
      && NumberedInOrder(r)
      && SameButOrders(r, Move(steps, from, to))
      && r[to].id == draggedId
      && multiset(Move(steps, from, to)) == multiset(steps)
  {
    FirstIndexIs(steps, HasId(draggedId), from);
    FirstIndexIs(steps, HasId(targetId), to);
    MoveProperties(steps, from, to);
    RenumberProperties(Move(steps, from, to));
  }

  /** A drop with nothing dragged, on the dragged step itself, or with a missing id, changes nothing. */
  lemma DropNoOp(steps: seq<PromptStep>, draggedId: Option<string>, targetId: string)
    requires || draggedId.None? || draggedId == Some("") || draggedId == Some(targetId)
             || (forall i :: 0 <= i < |steps| ==> steps[i].id != targetId)
             || (forall i :: 0 <= i < |steps| ==> Some(steps[i].id) != draggedId)
    ensures Dropped(steps, draggedId, targetId) == steps
  {
  }

  // Editing a step

  /** The fields an update gives (`Partial<PromptStep>`); the others are left as they are. */
  datatype StepUpdate = StepUpdate(
    id: Option<string>, name: Option<string>, prompt: Option<string>, variables: Option<string>,
    order: Option<int>, outputVariable: Option<string>)

  /** `{ ...step, ...updates }` */
  function Merge(s: PromptStep, u: StepUpdate): PromptStep {
    PromptStep(u.id.GetOr(s.id), u.name.GetOr(s.name), u.prompt.GetOr(s.prompt), u.variables.GetOr(s.variables),
      u.order.GetOr(s.order), u.outputVariable.GetOr(s.outputVariable))
  }

  /** The steps after `updateStep(id, updates)`. */
  function WithUpdatedStep(steps: seq<PromptStep>, id: string, u: StepUpdate): seq<PromptStep> {
    seq(|steps|, i requires 0 <= i < |steps| => if steps[i].id == id then Merge(steps[i], u) else steps[i])
  }

  /**
   * An update changes only the steps with that id, and only in the fields it
   * gives; an update that does not rename the step is idempotent, and an
   * empty update changes nothing.
   */
  lemma UpdateStepProperties(steps: seq<PromptStep>, id: string, u: StepUpdate)
    ensures var r := WithUpdatedStep(steps, id, u);
      && |r| == |steps|
      && (forall i :: 0 <= i < |steps| && steps[i].id != id ==> r[i] == steps[i])
      && (forall i :: 0 <= i < |steps| && steps[i].id == id ==>
            && (u.name.Some? ==> r[i].name == u.name.value) && (u.name.None? ==> r[i].name == steps[i].name)
            && (u.prompt.Some? ==> r[i].prompt == u.prompt.value) && (u.prompt.None? ==> r[i].prompt == steps[i].prompt)
            && (u.order.Some? ==> r[i].order == u.order.value) && (u.order.None? ==> r[i].order == steps[i].order)
            && (u.variables.Some? ==> r[i].variables == u.variables.value)
            && (u.variables.None? ==> r[i].variables == steps[i].variables)
            && (u.outputVariable.Some? ==> r[i].outputVariable == u.outputVariable.value)
            && (u.outputVariable.None? ==> r[i].outputVariable == steps[i].outputVariable)
            && (u.id.Some? ==> r[i].id == u.id.value) && (u.id.None? ==> r[i].id == steps[i].id))
    ensures u.id.None? || u.id == Some(id) ==> WithUpdatedStep(WithUpdatedStep(steps, id, u), id, u) == WithUpdatedStep(steps, id, u)
    ensures u == StepUpdate(None, None, None, None, None, None) ==> WithUpdatedStep(steps, id, u) == steps
  {
  }

  /** `formatJsonValue`: a string between double quotes, with nothing escaped; anything else as 2-space JSON. */
  function FormatJsonValue(codec: JsonCodec, v: Json): string {
    if v.JString? then "\"" + v.s + "\"" else codec.stringify(v)
  }

  /**
   * A string comes back between quotes, its own characters untouched (so a
   * quote inside it is not escaped); any other well-formed value reads back
   * as itself.
   */
  lemma FormatJsonValueReadsBack(codec: JsonCodec, v: Json)
    requires ValidCodec(codec) && WellFormed(v)
    ensures var r := FormatJsonValue(codec, v);
      && (v.JString? ==> |r| == |v.s| + 2 && r[0] == '"' && r[|r| - 1] == '"' && r[1..|r| - 1] == v.s)
      && (!v.JString? ==> codec.parse(r) == Success(v))
  {
    if v.JString? {
      var r := FormatJsonValue(codec, v);
      assert r[1..|r| - 1] == v.s;
    }
  }

  /** The editor's state: the prompt being edited, the active step and the step being dragged. */
  class Editor {
    var prompt: MultiStepPrompt
    var activeStepId: string
    var draggedStepId: Option<string>

    constructor(prompt: MultiStepPrompt)
      ensures this.prompt == prompt && draggedStepId.None?
      ensures activeStepId == if prompt.steps == [] then "" else prompt.steps[0].id
    {
      this.prompt := prompt;
      activeStepId := if prompt.steps == [] then "" else prompt.steps[0].id;
      draggedStepId := None;
    }

    method UpdateStep(stepId: string, u: StepUpdate, now: int)
      modifies this
      ensures prompt == old(prompt).(steps := WithUpdatedStep(old(prompt).steps, stepId, u), lastModified := now)
      ensures activeStepId == old(activeStepId) && draggedStepId == old(draggedStepId)
    {
      prompt := prompt.(steps := WithUpdatedStep(prompt.steps, stepId, u), lastModified := now);
    }

    /** `addStep`; the new step, whose id is given, becomes the active one. */
    method AddStep(newId: string, now: int)
      modifies this
      ensures prompt == old(prompt).(steps := WithNewStep(old(prompt).steps, newId), lastModified := now)
      ensures activeStepId == newId && draggedStepId == old(draggedStepId)
    {
      var newStep := NewStep(prompt.steps, newId);
      prompt := prompt.(steps := prompt.steps + [newStep], lastModified := now);
      activeStepId := newStep.id;
    }

    /** `deleteStep`; when the active step goes, the first remaining step becomes active. */
    method DeleteStep(stepId: string, now: int)
      modifies this
      ensures |old(prompt).steps| <= 1 ==> prompt == old(prompt) && activeStepId == old(activeStepId)
      ensures |old(prompt).steps| > 1 ==> prompt == old(prompt).(steps := WithoutStep(old(prompt).steps, stepId), lastModified := now)
      ensures |old(prompt).steps| > 1 && old(activeStepId) == stepId ==>
        activeStepId == if prompt.steps == [] then "" else prompt.steps[0].id
      ensures old(activeStepId) != stepId ==> activeStepId == old(activeStepId)
      ensures draggedStepId == old(draggedStepId)
    {
      if |prompt.steps| <= 1 {
        return;
      }
      var updated := Renumber(Keep(prompt.steps, HasNotId(stepId)));
      prompt := prompt.(steps := updated, lastModified := now);
      if activeStepId == stepId {
        activeStepId := if updated == [] then "" else updated[0].id;
      }
    }

    method DragStart(stepId: string)
      modifies this
      ensures draggedStepId == Some(stepId) && prompt == old(prompt) && activeStepId == old(activeStepId)
    {
      draggedStepId := Some(stepId);
    }

    /** `handleDrop`: copy the steps, splice the dragged one out and back in at the target's index, renumber. */
    method Drop(targetStepId: string, now: int)
      modifies this
      ensures !DropApplies(old(prompt).steps, old(draggedStepId), targetStepId) ==> prompt == old(prompt)
      ensures DropApplies(old(prompt).steps, old(draggedStepId), targetStepId) ==>
        prompt == old(prompt).(steps := Dropped(old(prompt).steps, old(draggedStepId), targetStepId), lastModified := now)
      ensures draggedStepId.None? && activeStepId == old(activeStepId)
    {
      if draggedStepId.None? || draggedStepId.value == "" || draggedStepId.value == targetStepId {
        draggedStepId := None;
        return;
      }
      var draggedIndex := FirstIndex(prompt.steps, HasId(draggedStepId.value));
      var targetIndex := FirstIndex(prompt.steps, HasId(targetStepId));
      if draggedIndex.None? || targetIndex.None? {
        draggedStepId := None;
        return;
      }
      var draggedStep := prompt.steps[draggedIndex.value];
      var newSteps := prompt.steps;
      newSteps := newSteps[..draggedIndex.value] + newSteps[draggedIndex.value + 1..];
      newSteps := newSteps[..targetIndex.value] + [draggedStep] + newSteps[targetIndex.value..];
      prompt := prompt.(steps := Renumber(newSteps), lastModified := now);
      draggedStepId := None;
    }
  }
}
