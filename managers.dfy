/**
 * What the three "manager" dialogs (src/PromptManager.tsx,
 * src/VariableManager.tsx, src/MultiStepPromptManager.tsx) share: the save
 * dialog that hands a trimmed, non-blank name to its owner, the lookup of the
 * current item's name with a fallback, and the "n variables" label.
 */
module Managers {
  import opened Wrappers
  import opened Text
  import opened Lists
  import opened Json
  import opened Sorting

  /** The name the save dialog hands over: the trimmed text, when it is not blank. */
  function SavedName(typed: string): (r: Option<string>) {
    if IsBlank(typed) then None else Some(Trim(typed))
  }

  /**
   * A blank name is never handed over; a handed-over name is the typed text
   * without its surrounding white space: non-empty, neither starting nor
   * ending with white space, and a slice of what was typed.
   */
  lemma SavedNameProperties(typed: string)
    ensures SavedName(typed).None? <==> AllWhitespace(typed)
    ensures SavedName(typed).Some? ==>
      var n := SavedName(typed).value;
      && n != "" && !IsWhitespace(n[0]) && !IsWhitespace(n[|n| - 1])
      && Contains(typed, n)
  {
    BlankIffAllWhitespace(typed);
    TrimIsCore(typed);
    if !IsBlank(typed) {
      assert OccursAt(typed, Trim(typed), TrimOffset(typed));
    }
  }

  /** The save-name dialog of a manager: its input text and whether it is shown. */
  class SaveDialog {
    var typed: string
    var shown: bool

    constructor()
      ensures typed == "" && !shown
    {
      typed := "";
      shown := false;
    }

    /** "Save As..." (or "Save Current"): show the dialog. */
    method Open()
      modifies this
      ensures shown && typed == old(typed)
    {
      shown := true;
    }

    method Type(text: string)
      modifies this
      ensures typed == text && shown == old(shown)
    {
      typed := text;
    }

    /**
     * `handleSave`: a blank name changes nothing and hands nothing over;
     * otherwise the trimmed name is handed over, the input cleared and the
     * dialog hidden.
     */
    method Save() returns (saved: Option<string>)
      modifies this
      ensures saved == SavedName(old(typed))
      ensures saved.None? ==> typed == old(typed) && shown == old(shown)
      ensures saved.Some? ==> typed == "" && !shown
    {
      if IsBlank(typed) {
        return None;
      }
      saved := Some(Trim(typed));
      typed := "";
      shown := false;
    }

    /** The "Cancel" button of the prompt and variable-set managers: hide, keep the text. */
    method Close()
      modifies this
      ensures !shown && typed == old(typed)
    {
      shown := false;
    }

    /** The "Cancel" button of the multi-step manager: hide and clear the text. */
    method Discard()
      modifies this
      ensures !shown && typed == ""
    {
      shown := false;
      typed := "";
    }
  }

  function IdIs<T>(id: T -> string, wanted: string): T -> bool {
    (x: T) => id(x) == wanted
  }

  /** `items.find(x => x.id === wanted)?.name || fallback`: an empty name also falls back. */
  function FoundName<T>(items: seq<T>, id: T -> string, name: T -> string, wanted: string, fallback: string): string {
    match FirstIndex(items, IdIs(id, wanted))
    case None => fallback
    case Some(i) => if name(items[i]) == "" then fallback else name(items[i])
  }

  /**
   * The name shown is that of the first item with the id, unless it is empty;
   * with no such item, or an empty name, it is the fallback.
   */
  lemma FoundNameProperties<T>(items: seq<T>, id: T -> string, name: T -> string, wanted: string, fallback: string)
    ensures (forall j :: 0 <= j < |items| ==> id(items[j]) != wanted) ==> FoundName(items, id, name, wanted, fallback) == fallback
    ensures forall i :: 0 <= i < |items| && id(items[i]) == wanted && (forall j :: 0 <= j < i ==> id(items[j]) != wanted) ==>
      FoundName(items, id, name, wanted, fallback) == if name(items[i]) == "" then fallback else name(items[i])
    ensures var r := FoundName(items, id, name, wanted, fallback);
      r == fallback || exists i :: 0 <= i < |items| && id(items[i]) == wanted && name(items[i]) == r
  {
    forall i | 0 <= i < |items| && id(items[i]) == wanted && (forall j :: 0 <= j < i ==> id(items[j]) != wanted)
      ensures FirstIndex(items, IdIs(id, wanted)) == Some(i)
    {
      FirstIndexIs(items, IdIs(id, wanted), i);
    }
  }

  /** The count of variables under a saved item: `n variable(s)`, or "Invalid JSON" when parsing or `Object.keys` throws. */
  function CountLabel(codec: JsonCodec, variablesJson: string): string {
    match codec.parse(variablesJson)
    case Failure(_) => "Invalid JSON"
    case Success(v) =>
      match ObjectKeys(v)
      case None => "Invalid JSON"
      case Some(keys) => NatToString(|keys|) + " variable" + (if |keys| != 1 then "s" else "")
  }

  /**
   * The label is "Invalid JSON" exactly when the text does not parse or is
   * `null`; otherwise it starts with the decimal count of keys, which reads
   * back as that count, followed by "variable" for exactly one key and
   * "variables" for any other count.
   */
  lemma CountLabelProperties(codec: JsonCodec, variablesJson: string)
    ensures var r, p := CountLabel(codec, variablesJson), codec.parse(variablesJson);
      && (r == "Invalid JSON" <==> p.Failure? || p.value.JNull?)
      && (p.Success? && !p.value.JNull? ==>
            var n := |ObjectKeys(p.value).value|;
            && r == NatToString(n) + (if n == 1 then " variable" else " variables")
            && DecimalValue(NatToString(n)) == n)
  {
    var r, p := CountLabel(codec, variablesJson), codec.parse(variablesJson);
    if p.Success? && !p.value.JNull? {
      var n := |ObjectKeys(p.value).value|;
      NatToStringRoundTrip(n);
      assert r[0] == NatToString(n)[0];
      assert '0' <= r[0] <= '9';
    }
  }

  /** The comparator `(a, b) => b.lastModified - a.lastModified` as an ascending key. */
  function Recency<T>(lastModified: T -> int): T -> int {
    (x: T) => -lastModified(x)
  }

  /**
   * `items.sort((a, b) => b.lastModified - a.lastModified)`, which every
   * manager's list applies to the array it is given, in place.
   */
  method SortNewestFirst<T>(a: array<T>, lastModified: T -> int)
    modifies a
    ensures a[..] == SortBy(old(a[..]), Recency(lastModified))
  {
    var sorted := SortBy(a[..], Recency(lastModified));
    SortByProperties(a[..], Recency(lastModified));
    assert |sorted| == |multiset(sorted)| == |multiset(a[..])| == a.Length;
    for i := 0 to a.Length
      invariant a[..i] == sorted[..i]
      invariant a[i..] == old(a[i..])
    {
      a[i] := sorted[i];
      assert a[..i + 1] == a[..i] + [sorted[i]];
    }
    assert a[..] == a[..a.Length];
  }

  /**
   * The sorted list holds the same items, the most recently modified first,
   * and items modified at the same time keep their relative order.
   */
  lemma NewestFirst<T>(items: seq<T>, lastModified: T -> int)
    ensures var r := SortBy(items, Recency(lastModified));
      && multiset(r) == multiset(items)
      && (forall i, j :: 0 <= i < j < |r| ==> lastModified(r[i]) >= lastModified(r[j]))
      && forall k :: WithKey(r, Recency(lastModified), k) == WithKey(items, Recency(lastModified), k)
  {
    SortByProperties(items, Recency(lastModified));
  }
}
