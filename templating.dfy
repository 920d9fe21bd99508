/**
 * `substituteVariables` (src/utils/templating.ts): every `{{key}}` of a
 * template is replaced by the value the JSON variables give the key, one key
 * after another in property order, each pass rewriting the text the previous
 * pass produced.
 */
module Templating {
  import opened Wrappers
  import opened Text
  import opened Json

  /** What a template gives back, with this appended, when its variables text does not parse. */
  const InvalidJsonSuffix: string := "\n\n[ERROR: Invalid JSON in variables]"

  /** The text the regular expression built for `key` matches. */
  function Placeholder(key: string): (p: string)
    ensures |p| == |key| + 4 && p[..2] == "{{" && p[|p| - 2..] == "}}"
  {
    "{{" + key + "}}"
  }

  /** A string value goes in as it is; any other value as its 2-space-indented JSON text. */
  function ValueText(codec: JsonCodec, v: Json): string {
    if v.JString? then v.s else codec.stringify(v)
  }

  /** The (key, replacement text) pairs the properties of a variables object give. */
  function Substitutions(codec: JsonCodec, es: Entries): (subs: seq<(string, string)>)
    ensures |subs| == |es|
    ensures forall i :: 0 <= i < |es| ==> subs[i] == (es[i].0, ValueText(codec, es[i].1))
  {
    seq(|es|, i requires 0 <= i < |es| => (es[i].0, ValueText(codec, es[i].1)))
  }

  /** Replace every placeholder of each pair in turn, each pass working on the previous pass's result. */
  function ReplaceEach(text: string, subs: seq<(string, string)>): string
    decreases |subs|
  {
    if subs == [] then text
    else
      var (key, value) := subs[|subs| - 1];
      ReplaceAll(ReplaceEach(text, subs[..|subs| - 1]), Placeholder(key), value)
  }

  /** The result of `substituteVariables(templateText, variablesJson)`. */
  function Substitute(codec: JsonCodec, templateText: string, variablesJson: string): string {
    match codec.parse(variablesJson)
    case Failure(_) => templateText + InvalidJsonSuffix
    case Success(v) =>
      match ObjectEntries(v)
      case None => templateText + InvalidJsonSuffix
      case Some(es) => ReplaceEach(templateText, Substitutions(codec, es))
  }

  /**
   * The loop of `substituteVariables`: parse, then one global replacement per
   * property. Unparseable variables (and `null`, on which `Object.entries`
   * throws) give the template followed by the error notice.
   */
  method SubstituteVariables(codec: JsonCodec, templateText: string, variablesJson: string) returns (result: string)
    ensures result == Substitute(codec, templateText, variablesJson)
    ensures codec.parse(variablesJson).Failure? ==> result == templateText + InvalidJsonSuffix
    ensures codec.parse(variablesJson) == Success(JObject([])) ==> result == templateText
  {
    var parsed := codec.parse(variablesJson);
    if parsed.Failure? {
      return templateText + InvalidJsonSuffix;
    }
    var entries := ObjectEntries(parsed.value);
    if entries.None? {
      return templateText + InvalidJsonSuffix;
    }
    var subs := Substitutions(codec, entries.value);
    result := templateText;
    var i := 0;
    while i < |subs|
      invariant 0 <= i <= |subs|
      invariant result == ReplaceEach(templateText, subs[..i])
    {
      var (key, value) := subs[i];
      assert subs[..i + 1][..i] == subs[..i];
      result := ReplaceAll(result, Placeholder(key), value);
      i := i + 1;
    }
    assert subs[..|subs|] == subs;
  }

  /** A key without `{` gives a placeholder that cannot overlap itself. */
  lemma PlaceholderUnbordered(key: string)
    requires forall i :: 0 <= i < |key| ==> key[i] != '{'
    ensures Unbordered(Placeholder(key))
  {
    var p := Placeholder(key);
    forall i | 2 <= i < |p| ensures p[i] != '{' {
      if i < |p| - 2 { assert p[i] == key[i - 2]; }
    }
    forall j | 0 < j < |p| ensures p[..j] != p[|p| - j..] {
      if |p| - j >= 2 {
        assert p[..j][0] == '{' != p[|p| - j..][0];
      } else {
        assert p[..j][1] == '{' != p[|p| - j..][1];
      }
    }
  }

  /** A text holding no placeholder of any of the keys comes out of every pass unchanged. */
  lemma {:induction false} ReplaceEachWithoutPlaceholders(text: string, subs: seq<(string, string)>)
    requires forall i :: 0 <= i < |subs| ==> !Contains(text, Placeholder(subs[i].0))
    ensures ReplaceEach(text, subs) == text
    decreases |subs|
  {
    if subs != [] {
      ReplaceEachWithoutPlaceholders(text, subs[..|subs| - 1]);
      ReplaceAllWithoutOccurrence(text, Placeholder(subs[|subs| - 1].0), subs[|subs| - 1].1);
    }
  }

  /**
   * Placeholders of names that are not keys are left alone: a template without
   * the placeholder of any key of the object is returned unchanged (so is every
   * template, for the empty object).
   */
  lemma SubstituteWithoutPlaceholders(codec: JsonCodec, templateText: string, variablesJson: string, es: Entries)
    requires codec.parse(variablesJson) == Success(JObject(es))
    requires forall i :: 0 <= i < |es| ==> !Contains(templateText, Placeholder(es[i].0))
    ensures Substitute(codec, templateText, variablesJson) == templateText
  {
    var subs := Substitutions(codec, es);
    ReplaceEachWithoutPlaceholders(templateText, subs);
  }

  /** For a variables text that parses to an object, substitution is one pass per property. */
  lemma SubstituteObject(codec: JsonCodec, templateText: string, variablesJson: string, es: Entries)
    requires codec.parse(variablesJson) == Success(JObject(es))
    ensures Substitute(codec, templateText, variablesJson) == ReplaceEach(templateText, Substitutions(codec, es))
  {
  }

  lemma ReplaceEachOne(text: string, key: string, value: string)
    ensures ReplaceEach(text, [(key, value)]) == ReplaceAll(text, Placeholder(key), value)
  {
    assert [(key, value)][..0] == [];
  }

  /**
   * Every occurrence of a key's placeholder is replaced, not just the first:
   * with a single string variable, a template made of placeholder-free pieces
   * joined by the placeholder comes out as the same pieces joined by the value.
   */
  lemma SubstituteReplacesEveryOccurrence(codec: JsonCodec, variablesJson: string, key: string, value: string, pieces: seq<string>)
    requires codec.parse(variablesJson) == Success(JObject([(key, JString(value))]))
    requires forall i :: 0 <= i < |key| ==> key[i] != '{'
    requires forall i :: 0 <= i < |pieces| ==> !Contains(pieces[i], Placeholder(key))
    ensures Substitute(codec, Join(pieces, Placeholder(key)), variablesJson) == Join(pieces, value)
  {
    var t := Join(pieces, Placeholder(key));
    SubstituteObject(codec, t, variablesJson, [(key, JString(value))]);
    assert Substitutions(codec, [(key, JString(value))]) == [(key, value)];
    ReplaceEachOne(t, key, value);
    PlaceholderUnbordered(key);
    ReplaceAllJoin(pieces, Placeholder(key), value);
  }

  /** A non-string value goes in as its JSON text. */
  lemma SubstituteInsertsJsonText(codec: JsonCodec, variablesJson: string, key: string, v: Json)
    requires codec.parse(variablesJson) == Success(JObject([(key, v)]))
    requires !v.JString?
    ensures Substitute(codec, Placeholder(key), variablesJson) == codec.stringify(v)
  {
    var p := Placeholder(key);
    SubstituteObject(codec, p, variablesJson, [(key, v)]);
    assert Substitutions(codec, [(key, v)]) == [(key, codec.stringify(v))];
    ReplaceEachOne(p, key, codec.stringify(v));
    ReplaceAllAtFront(p, codec.stringify(v), "");
    assert p + "" == p;
  }

  /**
   * Later keys rescan what earlier keys inserted: with `a` = "{{b}}" and then
   * `b` = "X", the template "{{a}}" becomes "X".
   */
  lemma SubstituteRescansInsertedText(codec: JsonCodec, variablesJson: string)
    requires codec.parse(variablesJson) == Success(JObject([("a", JString("{{b}}")), ("b", JString("X"))]))
    ensures Substitute(codec, "{{a}}", variablesJson) == "X"
  {
    var es := [("a", JString("{{b}}")), ("b", JString("X"))];
    SubstituteObject(codec, "{{a}}", variablesJson, es);
    var subs := Substitutions(codec, es);
    assert subs == [("a", "{{b}}"), ("b", "X")];
    assert subs[..1] == [("a", "{{b}}")];
    ReplaceEachOne("{{a}}", "a", "{{b}}");
    ReplaceAllAtFront("{{a}}", "{{b}}", "");
    ReplaceAllAtFront("{{b}}", "X", "");
    assert "{{a}}" + "" == "{{a}}" && "{{b}}" + "" == "{{b}}";
  }

  /**
   * Substituting a second time changes nothing once the first result holds no
   * placeholder of any key.
   */
  lemma SubstituteIdempotent(codec: JsonCodec, templateText: string, variablesJson: string, es: Entries)
    requires codec.parse(variablesJson) == Success(JObject(es))
    requires forall i :: 0 <= i < |es| ==> !Contains(Substitute(codec, templateText, variablesJson), Placeholder(es[i].0))
    ensures Substitute(codec, Substitute(codec, templateText, variablesJson), variablesJson) == Substitute(codec, templateText, variablesJson)
  {
    SubstituteWithoutPlaceholders(codec, Substitute(codec, templateText, variablesJson), variablesJson, es);
  }

  /**
   * Values free of every placeholder do not make substitution idempotent: with
   * `a` = "" the template "{{{{a}}a}}" becomes "{{a}}", which a second pass
   * turns into "".
   */
  lemma SubstituteNotIdempotentInGeneral(codec: JsonCodec, variablesJson: string)
    requires codec.parse(variablesJson) == Success(JObject([("a", JString(""))]))
    ensures Substitute(codec, "{{{{a}}a}}", variablesJson) == "{{a}}"
    ensures Substitute(codec, "{{a}}", variablesJson) == ""
    ensures !Contains("", Placeholder("a"))
  {
    var es := [("a", JString(""))];
    assert Substitutions(codec, es) == [("a", "")];
    var p := Placeholder("a");
    assert p == "{{a}}";
    var t := "{{{{a}}a}}";
    SubstituteObject(codec, t, variablesJson, es);
    SubstituteObject(codec, p, variablesJson, es);
    ReplaceEachOne(t, "a", "");
    ReplaceEachOne(p, "a", "");
    NestedPlaceholderErased();
  }

  /** Erasing "{{a}}" from "{{{{a}}a}}" leaves "{{a}}", and erasing it from "{{a}}" leaves nothing. */
  lemma NestedPlaceholderErased()
    ensures ReplaceAll("{{{{a}}a}}", "{{a}}", "") == "{{a}}"
    ensures ReplaceAll("{{a}}", "{{a}}", "") == ""
  {
    var p := "{{a}}";
    var t := "{{{{a}}a}}";
    var rest := "a}}";
    assert t[..5][2] == '{' && p[2] == 'a';
    ReplaceAllSkipsFront(t, p, "");
    var u := t[1..];
    assert u[..5][2] == '{';
    ReplaceAllSkipsFront(u, p, "");
    assert u[1..] == p + rest;
    ReplaceAllAtFront(p, "", rest);
    assert ReplaceAll(rest, p, "") == rest;
    assert ReplaceAll(t, p, "") == [t[0]] + ([u[0]] + rest);
    assert [t[0]] + ([u[0]] + rest) == p;
    assert p + "" == p;
    ReplaceAllAtFront(p, "", "");
  }

  /**
   * Handing `substituteVariables` the 2-space JSON text of an object with
   * distinct keys substitutes exactly that object's properties, in order.
   */
  lemma SubstituteObjectText(codec: JsonCodec, templateText: string, es: Entries)
    requires ValidCodec(codec)
    requires WellFormed(JObject(es))
    ensures Substitute(codec, templateText, codec.stringify(JObject(es))) == ReplaceEach(templateText, Substitutions(codec, es))
  {
    assert codec.parse(codec.stringify(JObject(es))) == Success(JObject(es));
  }
}
