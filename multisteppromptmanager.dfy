/**
 * The saved multi-step prompt manager (src/MultiStepPromptManager.tsx): the
 * delete button that asks for a second click, the guards that ask before
 * discarding unsaved changes, and the name of the current prompt. The answer
 * of the browser's confirmation box is a parameter.
 */
module MultiStepPromptManager {
  import opened Wrappers
  import opened Text
  import opened MultiStep
  import opened Sorting
  import opened Managers

  // The two-click delete

  /**
   * One click on the delete button of `id`, given the id awaiting
   * confirmation: the new pending id and whether `id` is deleted.
   */
  function Click(pending: Option<string>, id: string): (Option<string>, bool) {
    if pending == Some(id) then (None, true) else (Some(id), false)
  }

  /** The id awaiting confirmation after a run of clicks. */
  function PendingAfter(pending: Option<string>, clicks: seq<string>): Option<string> {
    if clicks == [] then pending
    else Click(PendingAfter(pending, clicks[..|clicks| - 1]), clicks[|clicks| - 1]).0
  }

  /** The ids a run of clicks deletes, in order. */
  function Deletions(pending: Option<string>, clicks: seq<string>): seq<string> {
    if clicks == [] then []
    else
      var before := clicks[..|clicks| - 1];
      Deletions(pending, before) + (if Click(PendingAfter(pending, before), clicks[|clicks| - 1]).1 then [clicks[|clicks| - 1]] else [])
  }

  /**
   * The first click on an id deletes nothing and arms it; a click on the
   * armed id deletes it and disarms; a click on another id only moves the
   * arming.
   */
  lemma ClickProperties(pending: Option<string>, id: string)
    ensures Click(pending, id).1 <==> pending == Some(id)
    ensures Click(pending, id).1 ==> Click(pending, id).0.None?
    ensures !Click(pending, id).1 ==> Click(pending, id).0 == Some(id)
    ensures Click(Click(pending, id).0, id).1 <==> pending != Some(id)
  {
  }

  /** Two clicks in a row on an id that is not armed delete it once, on the second click. */
  lemma DoubleClickDeletes(pending: Option<string>, id: string)
    requires pending != Some(id)
    ensures Deletions(pending, [id, id]) == [id]
    ensures PendingAfter(pending, [id, id]).None?
  {
    assert [id, id][..1] == [id];
    assert [id][..0] == [];
    assert PendingAfter(pending, [id]) == Some(id);
    assert Deletions(pending, [id]) == [] + [];
  }

  /** With nothing armed to begin with, every deletion costs two clicks. */
  lemma {:induction false} DeletionsNeedTwoClicks(clicks: seq<string>)
    ensures 2 * |Deletions(None, clicks)| + (if PendingAfter(None, clicks).Some? then 1 else 0) <= |clicks|
    decreases |clicks|
  {
    if clicks != [] {
      DeletionsNeedTwoClicks(clicks[..|clicks| - 1]);
    }
  }

  /** Clicks of which none repeats the one before it delete at most the armed id, and only on the first click. */
  lemma {:induction false} AlternatingClicksDeleteNothing(pending: Option<string>, clicks: seq<string>)
    requires forall k :: 0 < k < |clicks| ==> clicks[k] != clicks[k - 1]
    requires clicks != [] ==> pending != Some(clicks[0])
    ensures Deletions(pending, clicks) == []
    ensures clicks != [] ==> PendingAfter(pending, clicks) == Some(clicks[|clicks| - 1])
    decreases |clicks|
  {
    if clicks != [] {
      AlternatingClicksDeleteNothing(pending, clicks[..|clicks| - 1]);
    }
  }

  // The unsaved-changes guard

  /** Loading or starting a new prompt goes ahead without unsaved changes, or when the user confirms. */
  function Proceeds(hasUnsavedChanges: bool, confirmed: bool): bool {
    !hasUnsavedChanges || confirmed
  }

  // The current name

  function PromptIdOf(p: MultiStepPrompt): string { p.id }
  function PromptNameOf(p: MultiStepPrompt): string { p.name }
  function PromptModifiedOf(p: MultiStepPrompt): int { p.lastModified }

  const UnsavedName := "Unsaved Multi-Step Prompt"

  /** `getCurrentPromptName`: the first prompt with the current id, by name, unless it is empty. */
  function CurrentPromptName(saved: seq<MultiStepPrompt>, currentId: Option<string>): string {
    match currentId
    case None => UnsavedName
    case Some(id) => FoundName(saved, PromptIdOf, PromptNameOf, id, UnsavedName)
  }

  /**
   * Without a current id, or with one no saved prompt has, the heading says
   * "Unsaved Multi-Step Prompt"; otherwise it names the first matching prompt
   * (falling back again when that name is empty).
   */
  lemma CurrentPromptNameProperties(saved: seq<MultiStepPrompt>, currentId: Option<string>)
    ensures currentId.None? ==> CurrentPromptName(saved, currentId) == UnsavedName
    ensures currentId.Some? && (forall j :: 0 <= j < |saved| ==> saved[j].id != currentId.value) ==>
      CurrentPromptName(saved, currentId) == UnsavedName
    ensures forall i ::
      (currentId.Some? && 0 <= i < |saved| && saved[i].id == currentId.value
       && forall j :: 0 <= j < i ==> saved[j].id != currentId.value) ==>
      CurrentPromptName(saved, currentId) == if saved[i].name == "" then UnsavedName else saved[i].name
  {
    if currentId.Some? {
      FoundNameProperties(saved, PromptIdOf, PromptNameOf, currentId.value, UnsavedName);
    }
  }

  /** The manager's state: the armed delete button and whether the dialog is open. */
  class Manager {
    var deleteConfirm: Option<string>
    var isOpen: bool

    constructor(isOpen: bool)
      ensures deleteConfirm.None? && this.isOpen == isOpen
    {
      deleteConfirm := None;
      this.isOpen := isOpen;
    }

    /** `handleDelete`: returns the id to delete, if this click confirms one. */
    method Delete(id: string) returns (deleted: Option<string>)
      modifies this
      ensures (deleteConfirm, deleted.Some?) == Click(old(deleteConfirm), id)
      ensures deleted.Some? ==> deleted.value == id
      ensures isOpen == old(isOpen)
    {
      if deleteConfirm == Some(id) {
        deleted := Some(id);
        deleteConfirm := None;
      } else {
        deleted := None;
        deleteConfirm := Some(id);
      }
    }

    /** `handleLoad`: returns the id to load; loading closes the dialog. */
    method Load(id: string, hasUnsavedChanges: bool, confirmed: bool) returns (loaded: Option<string>)
      modifies this
      ensures loaded == if Proceeds(hasUnsavedChanges, confirmed) then Some(id) else None
      ensures isOpen == (old(isOpen) && !Proceeds(hasUnsavedChanges, confirmed))
      ensures deleteConfirm == old(deleteConfirm)
    {
      if hasUnsavedChanges && !confirmed {
        return None;
      }
      loaded := Some(id);
      isOpen := false;
    }

    /** `handleNew`: returns whether a new prompt is started; starting closes the dialog. */
    method New(hasUnsavedChanges: bool, confirmed: bool) returns (started: bool)
      modifies this
      ensures started == Proceeds(hasUnsavedChanges, confirmed)
      ensures isOpen == (old(isOpen) && !started)
      ensures deleteConfirm == old(deleteConfirm)
    {
      if hasUnsavedChanges && !confirmed {
        return false;
      }
      started := true;
      isOpen := false;
    }
  }

  /** The list of saved prompts: most recently modified first, ties kept in place. */
  method SortSavedPrompts(saved: array<MultiStepPrompt>)
    modifies saved
    ensures multiset(saved[..]) == multiset(old(saved[..]))
    ensures forall i, j :: 0 <= i < j < saved.Length ==> saved[i].lastModified >= saved[j].lastModified
    ensures forall k :: WithKey(saved[..], Recency(PromptModifiedOf), k) == WithKey(old(saved[..]), Recency(PromptModifiedOf), k)
  {
    ghost var before := saved[..];
    SortNewestFirst(saved, PromptModifiedOf);
    NewestFirst(before, PromptModifiedOf);
  }
}
