/**
 * The saved variable-set manager (src/VariableManager.tsx): the name of the
 * current set and the one-line preview of a set's variables.
 */
module VariableManager {
  import opened Wrappers
  import opened Text
  import opened Json
  import opened Sorting
  import opened Managers

  datatype SavedVariableSet = SavedVariableSet(id: string, name: string, variables: string, createdAt: int, lastModified: int)

  function SetId(v: SavedVariableSet): string { v.id }
  function SetName(v: SavedVariableSet): string { v.name }
  function SetModified(v: SavedVariableSet): int { v.lastModified }

  /** `getCurrentVariableSetName`; an empty id counts as none, as it is falsy. */
  function CurrentVariableSetName(sets: seq<SavedVariableSet>, currentId: Option<string>): string {
    if currentId.Some? && currentId.value != "" then FoundName(sets, SetId, SetName, currentId.value, "Untitled")
    else "Default Variables"
  }

  /**
   * With no current id the heading says "Default Variables"; with an id no
   * saved set has, "Untitled"; otherwise the first matching set's name, or
   * "Untitled" when that name is empty.
   */
  lemma CurrentVariableSetNameProperties(sets: seq<SavedVariableSet>, currentId: Option<string>)
    ensures currentId.None? || currentId == Some("") ==> CurrentVariableSetName(sets, currentId) == "Default Variables"
    ensures currentId.Some? && currentId.value != "" && (forall j :: 0 <= j < |sets| ==> sets[j].id != currentId.value) ==>
      CurrentVariableSetName(sets, currentId) == "Untitled"
    ensures forall i ::
      (currentId.Some? && currentId.value != "" && 0 <= i < |sets| && sets[i].id == currentId.value
       && forall j :: 0 <= j < i ==> sets[j].id != currentId.value) ==>
      CurrentVariableSetName(sets, currentId) == if sets[i].name == "" then "Untitled" else sets[i].name
  {
    if currentId.Some? && currentId.value != "" {
      FoundNameProperties(sets, SetId, SetName, currentId.value, "Untitled");
    }
  }

  /** The keys the preview lists: the first three. */
  function Listed(keys: seq<string>): seq<string> {
    if |keys| > 3 then keys[..3] else keys
  }

  /** `getVariablePreview` over what `Object.keys` gives for the parsed value. */
  function KeysPreview(keys: seq<string>): string {
    if |keys| == 0 then "Empty JSON"
    else if |keys| == 1 then "1 variable: " + keys[0]
    else NatToString(|keys|) + " variables: " + Join(Listed(keys), ", ") + (if |keys| > 3 then "..." else "")
  }

  /** `getVariablePreview`: "Invalid JSON" when parsing or `Object.keys` throws. */
  function VariablePreview(codec: JsonCodec, variablesJson: string): string {
    match codec.parse(variablesJson)
    case Failure(_) => "Invalid JSON"
    case Success(v) =>
      match ObjectKeys(v)
      case None => "Invalid JSON"
      case Some(keys) => KeysPreview(keys)
  }

  /**
   * The preview says "Invalid JSON" exactly when the text does not parse or
   * is `null`, and "Empty JSON" exactly when the value has no keys.
   */
  lemma VariablePreviewCases(codec: JsonCodec, variablesJson: string)
    ensures var r, p := VariablePreview(codec, variablesJson), codec.parse(variablesJson);
      && (r == "Invalid JSON" <==> p.Failure? || p.value.JNull?)
      && (r == "Empty JSON" <==> p.Success? && ObjectKeys(p.value) == Some([]))
  {
    var r, p := VariablePreview(codec, variablesJson), codec.parse(variablesJson);
    if p.Success? && !p.value.JNull? {
      var keys := ObjectKeys(p.value).value;
      if |keys| == 1 {
        assert r[0] == '1';
      } else if |keys| > 1 {
        assert r[0] == NatToString(|keys|)[0];
        assert '0' <= r[0] <= '9';
      }
    }
  }

  /**
   * One key is named as "1 variable: k"; two or more are announced by their
   * count, which reads back from the leading digits, followed by
   * " variables: ".
   */
  lemma KeysPreviewCount(keys: seq<string>)
    ensures |keys| == 1 ==> KeysPreview(keys) == "1 variable: " + keys[0]
    ensures |keys| >= 2 ==>
      var digits := NatToString(|keys|);
      && StartsWith(KeysPreview(keys), digits + " variables: ")
      && DecimalValue(digits) == |keys|
  {
    if |keys| >= 2 {
      NatToStringRoundTrip(|keys|);
      ManyKeysPrefix(keys);
    }
  }

  lemma ManyKeysPrefix(keys: seq<string>)
    requires |keys| >= 2
    ensures StartsWith(KeysPreview(keys), NatToString(|keys|) + " variables: ")
  {
    var prefix := NatToString(|keys|) + " variables: ";
    var listed := Join(Listed(keys), ", ");
    assert prefix[..|prefix|] == prefix;
    StartsWithExtend(prefix, prefix, listed);
    StartsWithExtend(prefix + listed, prefix, if |keys| > 3 then "..." else "");
  }

  /**
   * Only the count and the first three keys are shown: two key lists of the
   * same length that agree on their first three keys have the same preview,
   * and with three keys or fewer all of them are listed.
   */
  lemma KeysPreviewShowsFirstThree(keys: seq<string>, other: seq<string>)
    requires |keys| == |other| >= 3 && keys[..3] == other[..3]
    ensures KeysPreview(keys) == KeysPreview(other)
    ensures |keys| == 3 ==> KeysPreview(keys) == "3 variables: " + keys[0] + ", " + keys[1] + ", " + keys[2]
  {
    assert Listed(keys) == keys[..3] == Listed(other) by {
      if |keys| == 3 {
        assert keys[..3] == keys && other[..3] == other;
      }
    }
    if |keys| == 3 {
      assert NatToString(3) == "3";
      assert keys[1..][1..] == [keys[2]];
      assert Join(keys[1..][1..], ", ") == keys[2];
      assert Join(keys[1..], ", ") == keys[1] + ", " + keys[2];
      var listed := keys[0] + ", " + keys[1] + ", " + keys[2];
      assert Join(keys, ", ") == listed;
      assert KeysPreview(keys) == "3 variables: " + listed + "";
      assert listed + "" == listed;
    }
  }

  /** The list of sets: most recently modified first, ties kept in place. */
  method SortVariableSets(sets: array<SavedVariableSet>)
    modifies sets
    ensures multiset(sets[..]) == multiset(old(sets[..]))
    ensures forall i, j :: 0 <= i < j < sets.Length ==> sets[i].lastModified >= sets[j].lastModified
    ensures forall k :: WithKey(sets[..], Recency(SetModified), k) == WithKey(old(sets[..]), Recency(SetModified), k)
  {
    ghost var before := sets[..];
    SortNewestFirst(sets, SetModified);
    NewestFirst(before, SetModified);
  }
}
