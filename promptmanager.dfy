/**
 * The saved-prompt manager (src/PromptManager.tsx): the name of the current
 * prompt, the preview of each saved prompt, and the order of the list.
 */
module PromptManager {
  import opened Wrappers
  import opened Text
  import opened Sorting
  import opened Managers

  datatype SavedPrompt = SavedPrompt(id: string, name: string, prompt: string, variables: string, createdAt: int, lastModified: int)

  function PromptId(p: SavedPrompt): string { p.id }
  function PromptName(p: SavedPrompt): string { p.name }
  function PromptModified(p: SavedPrompt): int { p.lastModified }

  /** `getCurrentPromptName`; an empty id counts as none, as it is falsy. */
  function CurrentPromptName(saved: seq<SavedPrompt>, currentId: Option<string>): string {
    if currentId.Some? && currentId.value != "" then FoundName(saved, PromptId, PromptName, currentId.value, "Untitled")
    else "New Prompt"
  }

  /**
   * With no current id the heading says "New Prompt"; with an id no saved
   * prompt has, "Untitled"; otherwise the first matching prompt's name, or
   * "Untitled" when that name is empty.
   */
  lemma CurrentPromptNameProperties(saved: seq<SavedPrompt>, currentId: Option<string>)
    ensures currentId.None? || currentId == Some("") ==> CurrentPromptName(saved, currentId) == "New Prompt"
    ensures currentId.Some? && currentId.value != "" && (forall j :: 0 <= j < |saved| ==> saved[j].id != currentId.value) ==>
      CurrentPromptName(saved, currentId) == "Untitled"
    ensures forall i ::
      (currentId.Some? && currentId.value != "" && 0 <= i < |saved| && saved[i].id == currentId.value
       && forall j :: 0 <= j < i ==> saved[j].id != currentId.value) ==>
      CurrentPromptName(saved, currentId) == if saved[i].name == "" then "Untitled" else saved[i].name
  {
    if currentId.Some? && currentId.value != "" {
      FoundNameProperties(saved, PromptId, PromptName, currentId.value, "Untitled");
    }
  }

  const PreviewLength := 100

  /** The preview line: the first 100 characters and "..." when the prompt is longer. */
  function Preview(text: string): string {
    if |text| > PreviewLength then text[..PreviewLength] + "..." else text
  }

  /**
   * A prompt of at most 100 characters is shown whole; a longer one is shown
   * as its first 100 characters and "...", 103 characters in all. Previewing a
   * preview changes nothing.
   */
  lemma PreviewProperties(text: string)
    ensures |text| <= 100 ==> Preview(text) == text
    ensures |text| > 100 ==> |Preview(text)| == 103 && StartsWith(Preview(text), text[..100]) && Preview(text)[100..] == "..."
    ensures Preview(Preview(text)) == Preview(text)
  {
    if |text| > 100 {
      var p := Preview(text);
      assert p[..100] == text[..100];
    }
  }

  /** The list's order: most recently modified first, ties kept in place. */
  method SortSavedPrompts(saved: array<SavedPrompt>)
    modifies saved
    ensures multiset(saved[..]) == multiset(old(saved[..]))
    ensures forall i, j :: 0 <= i < j < saved.Length ==> saved[i].lastModified >= saved[j].lastModified
    ensures forall k :: WithKey(saved[..], Recency(PromptModified), k) == WithKey(old(saved[..]), Recency(PromptModified), k)
  {
    ghost var before := saved[..];
    SortNewestFirst(saved, PromptModified);
    NewestFirst(before, PromptModified);
  }
}
