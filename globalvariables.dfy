/**
 * The global-variables dialog of the multi-step editor
 * (src/GlobalVariablesModal.tsx): a local copy of the JSON text that is
 * checked as it is edited, re-indented on request, extended with common keys,
 * and handed back to its owner only when it is valid.
 */
module GlobalVariables {
  import opened Wrappers
  import opened Text
  import opened Json

  /** `validateJson`: blank text, or text that parses. */
  predicate Validates(codec: JsonCodec, text: string) {
    IsBlank(text) || codec.parse(text).Success?
  }

  /** The message shown under the text: empty when it validates, else the parser's message. */
  function ValidationError(codec: JsonCodec, text: string): string {
    if Validates(codec, text) then "" else codec.parse(text).error
  }

  /** `formatJson`: valid, non-blank text is printed again with 2-space indentation. */
  function Formatted(codec: JsonCodec, text: string): string {
    if IsBlank(text) then text
    else match codec.parse(text)
      case Success(v) => codec.stringify(v)
      case Failure(_) => text
  }

  /**
   * Formatting keeps validity either way, keeps the value the text denotes,
   * leaves invalid or blank text as it is, and formatting twice is
   * formatting once.
   */
  lemma FormattedProperties(codec: JsonCodec, text: string)
    requires ValidCodec(codec)
    ensures Validates(codec, Formatted(codec, text)) <==> Validates(codec, text)
    ensures !IsBlank(text) && codec.parse(text).Success? ==> codec.parse(Formatted(codec, text)) == codec.parse(text)
    ensures IsBlank(text) || codec.parse(text).Failure? ==> Formatted(codec, text) == text
    ensures Formatted(codec, Formatted(codec, text)) == Formatted(codec, text)
  {
  }

  /** What the common-key buttons assign to: the parsed text, or `{}` when it is blank. */
  function Current(codec: JsonCodec, text: string): Result<Json, string> {
    if IsBlank(text) then Success(JObject([])) else codec.parse(text)
  }

  /**
   * `addCommonVariable(key, value)`: `current[key] = value` on the parsed
   * value, printed again. On an object the key is set; on an array the
   * property is set but not printed; on `null`, on a primitive (the code
   * runs in strict mode) and on text that does not parse the assignment
   * throws, and the text becomes an object holding only the new key.
   */
  function WithCommonVariable(codec: JsonCodec, text: string, key: string, value: Json): string {
    match Current(codec, text)
    case Success(JObject(es)) => codec.stringify(JObject(Set(es, key, value)))
    case Success(JArray(items)) => codec.stringify(JArray(items))
    case _ => codec.stringify(JObject([(key, value)]))
  }

  /**
   * The new text always validates. On an object the key reads back as the
   * value, every other key keeps its value, and the keys keep their order
   * with the new key last if it is new; blank or unparsable text becomes the
   * one-key object; an array is only re-printed.
   */
  lemma WithCommonVariableProperties(codec: JsonCodec, text: string, key: string, value: Json)
    requires ValidCodec(codec) && WellFormed(value)
    ensures Validates(codec, WithCommonVariable(codec, text, key, value))
    ensures Current(codec, text).Success? && Current(codec, text).value.JObject? ==>
      var es := Current(codec, text).value.entries;
      var p := codec.parse(WithCommonVariable(codec, text, key, value));
      && p.Success? && p.value.JObject?
      && Lookup(p.value.entries, key) == Some(value)
      && (forall k :: k != key ==> Lookup(p.value.entries, k) == Lookup(es, k))
      && Keys(p.value.entries) == if key in Keys(es) then Keys(es) else Keys(es) + [key]
    ensures (IsBlank(text) || Current(codec, text).Failure? || !(Current(codec, text).value.JObject? || Current(codec, text).value.JArray?)) ==>
      codec.parse(WithCommonVariable(codec, text, key, value)) == Success(JObject([(key, value)]))
    ensures !IsBlank(text) && codec.parse(text).Success? && codec.parse(text).value.JArray? ==>
      codec.parse(WithCommonVariable(codec, text, key, value)) == codec.parse(text)
  {
    var cur := Current(codec, text);
    if cur.Success? && cur.value.JObject? {
      var es := cur.value.entries;
      assert WellFormed(JObject(es));
      SetProperties(es, key, value);
      SetWellFormed(es, key, value);
      assert WellFormed(JObject(Set(es, key, value)));
    } else {
      assert WellFormed(JObject([(key, value)]));
    }
  }

  /**
   * The dialog's state: the owner's text, the local copy being edited, the
   * validity flag and message, and whether the dialog is open.
   */
  class Modal {
    const codec: JsonCodec
    var globalVariables: string
    var localVariables: string
    var isValidJson: bool
    var jsonError: string
    var isOpen: bool

    /** Opening shows a copy of the owner's text. */
    constructor(codec: JsonCodec, globalVariables: string)
      ensures this.codec == codec && this.globalVariables == globalVariables && localVariables == globalVariables
      ensures isValidJson && jsonError == "" && isOpen
    {
      this.codec := codec;
      this.globalVariables := globalVariables;
      localVariables := globalVariables;
      isValidJson := true;
      jsonError := "";
      isOpen := true;
    }

    /** `validateJson`: sets the flag and the message and returns the verdict. */
    method ValidateJson(value: string) returns (ok: bool)
      modifies this
      ensures ok == Validates(codec, value) && isValidJson == ok && jsonError == ValidationError(codec, value)
      ensures globalVariables == old(globalVariables) && localVariables == old(localVariables) && isOpen == old(isOpen)
    {
      if IsBlank(value) {
        ok := true;
      } else {
        match codec.parse(value)
        case Success(_) =>
          ok := true;
        case Failure(message) =>
          ok := false;
          jsonError := message;
      }
      isValidJson := ok;
      if ok {
        jsonError := "";
      }
    }

    /** `handleVariablesChange`: keep the edited text and check it. */
    method ChangeVariables(value: string)
      modifies this
      ensures localVariables == value && isValidJson == Validates(codec, value) && jsonError == ValidationError(codec, value)
      ensures globalVariables == old(globalVariables) && isOpen == old(isOpen)
    {
      localVariables := value;
      var _ := ValidateJson(value);
    }

    /** `handleSave`: the owner receives the local text, and the dialog closes, only when it validates. */
    method Save() returns (saved: bool)
      modifies this
      ensures saved == Validates(codec, old(localVariables))
      ensures globalVariables == if saved then old(localVariables) else old(globalVariables)
      ensures isOpen == (old(isOpen) && !saved)
      ensures localVariables == old(localVariables)
      ensures isValidJson == saved && jsonError == ValidationError(codec, old(localVariables))
    {
      saved := ValidateJson(localVariables);
      if saved {
        globalVariables := localVariables;
        isOpen := false;
      }
    }

    /** `handleCancel`: the local text goes back to the owner's, the error is cleared, and the dialog closes. */
    method Cancel()
      modifies this
      ensures localVariables == old(globalVariables) && globalVariables == old(globalVariables)
      ensures isValidJson && jsonError == "" && !isOpen
    {
      localVariables := globalVariables;
      isValidJson := true;
      jsonError := "";
      isOpen := false;
    }

    /** `formatJson`: re-indent valid, non-blank text; anything else is left as it is. */
    method Format()
      modifies this
      ensures localVariables == Formatted(codec, old(localVariables))
      ensures !IsBlank(old(localVariables)) && codec.parse(old(localVariables)).Success? ==> isValidJson && jsonError == ""
      ensures IsBlank(old(localVariables)) || codec.parse(old(localVariables)).Failure? ==>
        isValidJson == old(isValidJson) && jsonError == old(jsonError)
      ensures globalVariables == old(globalVariables) && isOpen == old(isOpen)
    {
      if !IsBlank(localVariables) {
        match codec.parse(localVariables)
        case Success(v) =>
          localVariables := codec.stringify(v);
          isValidJson := true;
          jsonError := "";
        case Failure(_) =>
      }
    }

    /** `addCommonVariable`: the text gets the key and is marked valid, which it is. */
    method AddCommonVariable(key: string, value: Json)
      modifies this
      ensures localVariables == WithCommonVariable(codec, old(localVariables), key, value)
      ensures isValidJson && jsonError == ""
      ensures ValidCodec(codec) && WellFormed(value) ==> Validates(codec, localVariables)
      ensures globalVariables == old(globalVariables) && isOpen == old(isOpen)
    {
      if ValidCodec(codec) && WellFormed(value) {
        WithCommonVariableProperties(codec, localVariables, key, value);
      }
      localVariables := WithCommonVariable(codec, localVariables, key, value);
      isValidJson := true;
      jsonError := "";
    }
  }
}
