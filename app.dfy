/**
 * The single-prompt screen (src/App.tsx): a list of named variables, each
 * `{{name}}` of the prompt replaced by its value, and one request per click,
 * refused before it is sent when the settings fail their check.
 */
module App {
  import opened Wrappers
  import opened Text
  import opened Lists
  import opened Templating
  import opened ApiService

  datatype Variable = Variable(id: string, name: string, value: string)

  /** The field an edit of the variable list changes. */
  datatype Field = Name | Value

  /** `addVariable`: a new entry with the given id, named after the new length, with no value. */
  function WithNewVariable(vars: seq<Variable>, newId: string): seq<Variable> {
    vars + [Variable(newId, "var" + NatToString(|vars| + 1), "")]
  }

  function HasNotId(id: string): Variable -> bool {
    (v: Variable) => v.id != id
  }

  /** `removeVariable`: keep the entries with another id. */
  function WithoutVariable(vars: seq<Variable>, id: string): seq<Variable> {
    Keep(vars, HasNotId(id))
  }

  function WithField(v: Variable, field: Field, newValue: string): Variable {
    match field
    case Name => v.(name := newValue)
    case Value => v.(value := newValue)
  }

  /** `updateVariable`: set one field of every entry with that id. */
  function WithUpdatedVariable(vars: seq<Variable>, id: string, field: Field, newValue: string): seq<Variable> {
    seq(|vars|, i requires 0 <= i < |vars| => if vars[i].id == id then WithField(vars[i], field, newValue) else vars[i])
  }

  /** Adding keeps every entry where it was and appends one empty entry named `var<n+1>`. */
  lemma AddVariableProperties(vars: seq<Variable>, newId: string)
    ensures var r := WithNewVariable(vars, newId);
      |r| == |vars| + 1 && r[..|vars|] == vars
      && r[|vars|].id == newId && r[|vars|].value == ""
      && r[|vars|].name[..3] == "var" && DecimalValue(r[|vars|].name[3..]) == |vars| + 1
  {
    var r := WithNewVariable(vars, newId);
    assert r[..|vars|] == vars;
    assert r[|vars|].name[3..] == NatToString(|vars| + 1);
    NatToStringRoundTrip(|vars| + 1);
  }

  /** Removing an entry that was just added, under an id no other entry has, gives the list back. */
  lemma RemoveAddedVariable(vars: seq<Variable>, newId: string)
    requires forall v :: v in vars ==> v.id != newId
    ensures WithoutVariable(WithNewVariable(vars, newId), newId) == vars
  {
    var added := [Variable(newId, "var" + NatToString(|vars| + 1), "")];
    KeepAppend(vars, added, HasNotId(newId));
    KeepAll(vars, HasNotId(newId));
    assert Keep(added[1..], HasNotId(newId)) == [];
  }

  /**
   * The generated name counts entries, not names in use: after removing the
   * first of `var1`, `var2`, adding names the new entry `var2` again.
   */
  lemma AddedNameCanRepeat()
    ensures var vars := WithoutVariable([Variable("1", "var1", ""), Variable("2", "var2", "")], "1");
      vars == [Variable("2", "var2", "")]
      && WithNewVariable(vars, "3")[1].name == vars[0].name
  {
    var vars := [Variable("1", "var1", ""), Variable("2", "var2", "")];
    assert vars[1..][1..] == [];
    assert NatToString(2) == "2";
  }

  /**
   * Removing drops exactly the entries with that id and keeps the others in
   * their order; a list without that id is unchanged, and removing twice is
   * removing once.
   */
  lemma RemoveVariableProperties(vars: seq<Variable>, id: string)
    ensures forall v :: v in WithoutVariable(vars, id) <==> v in vars && v.id != id
    ensures |WithoutVariable(vars, id)| <= |vars|
    ensures (forall v :: v in vars ==> v.id != id) ==> WithoutVariable(vars, id) == vars
    ensures WithoutVariable(WithoutVariable(vars, id), id) == WithoutVariable(vars, id)
  {
    KeepMembers(vars, HasNotId(id));
    KeepIdempotent(vars, HasNotId(id));
    if forall v :: v in vars ==> v.id != id {
      KeepAll(vars, HasNotId(id));
    }
  }

  /** Removing from a concatenation removes from each part, so the survivors keep their relative order. */
  lemma RemoveVariableAppend(a: seq<Variable>, b: seq<Variable>, id: string)
    ensures WithoutVariable(a + b, id) == WithoutVariable(a, id) + WithoutVariable(b, id)
  {
    KeepAppend(a, b, HasNotId(id));
  }

  /**
   * An update changes only the named field of the entries with that id; ids
   * never change, so the same entries are found again, repeating the update
   * changes nothing and removing afterwards removes the same entries.
   */
  lemma UpdateVariableProperties(vars: seq<Variable>, id: string, field: Field, newValue: string)
    ensures var r := WithUpdatedVariable(vars, id, field, newValue);
      && |r| == |vars|
      && (forall i :: 0 <= i < |vars| ==> r[i].id == vars[i].id)
      && (forall i :: 0 <= i < |vars| && vars[i].id != id ==> r[i] == vars[i])
      && (forall i :: 0 <= i < |vars| && vars[i].id == id ==>
            (field == Name ==> r[i].name == newValue && r[i].value == vars[i].value)
            && (field == Value ==> r[i].value == newValue && r[i].name == vars[i].name))
    ensures WithUpdatedVariable(WithUpdatedVariable(vars, id, field, newValue), id, field, newValue) == WithUpdatedVariable(vars, id, field, newValue)
  {
  }

  lemma {:induction false} RemoveAfterUpdate(vars: seq<Variable>, id: string, field: Field, newValue: string)
    ensures WithoutVariable(WithUpdatedVariable(vars, id, field, newValue), id) == WithoutVariable(vars, id)
    decreases |vars|
  {
    if vars != [] {
      var u := WithUpdatedVariable(vars, id, field, newValue);
      RemoveAfterUpdate(vars[1..], id, field, newValue);
      assert u[1..] == WithUpdatedVariable(vars[1..], id, field, newValue);
    }
  }

  // Substitution

  /** The (placeholder name, replacement) pairs of the variable list, in list order. */
  function Pairs(vars: seq<Variable>): seq<(string, string)> {
    seq(|vars|, i requires 0 <= i < |vars| => (vars[i].name, vars[i].value))
  }

  /** `substituteVariables`: one global replacement per variable, in list order. */
  method SubstituteVariableList(text: string, vars: seq<Variable>) returns (result: string)
    ensures result == ReplaceEach(text, Pairs(vars))
  {
    result := text;
    for i := 0 to |vars|
      invariant result == ReplaceEach(text, Pairs(vars[..i]))
    {
      assert Pairs(vars[..i + 1])[..i] == Pairs(vars[..i]);
      result := ReplaceAll(result, Placeholder(vars[i].name), vars[i].value);
    }
    assert vars[..|vars|] == vars;
  }

  /** A text without the placeholder of any variable name is left as it is. */
  lemma SubstituteWithoutPlaceholders(text: string, vars: seq<Variable>)
    requires forall v :: v in vars ==> !Contains(text, Placeholder(v.name))
    ensures ReplaceEach(text, Pairs(vars)) == text
  {
    forall i | 0 <= i < |Pairs(vars)| ensures !Contains(text, Placeholder(Pairs(vars)[i].0)) {
      assert vars[i] in vars;
    }
    ReplaceEachWithoutPlaceholders(text, Pairs(vars));
  }

  /**
   * Every occurrence of a variable's placeholder is replaced by its value: a
   * text made of placeholder-free pieces joined by `{{name}}` comes out as the
   * pieces joined by the value.
   */
  lemma SubstituteEveryOccurrence(v: Variable, pieces: seq<string>)
    requires forall i :: 0 <= i < |v.name| ==> v.name[i] != '{'
    requires forall i :: 0 <= i < |pieces| ==> !Contains(pieces[i], Placeholder(v.name))
    ensures ReplaceEach(Join(pieces, Placeholder(v.name)), Pairs([v])) == Join(pieces, v.value)
  {
    assert Pairs([v]) == [(v.name, v.value)];
    ReplaceEachOne(Join(pieces, Placeholder(v.name)), v.name, v.value);
    PlaceholderUnbordered(v.name);
    ReplaceAllJoin(pieces, Placeholder(v.name), v.value);
  }

  /**
   * Of two variables with the same name, the second has no effect whenever
   * the first leaves none of that name's placeholders behind.
   */
  lemma DuplicateNameWithoutEffect(text: string, first: Variable, second: Variable)
    requires first.name == second.name
    requires !Contains(ReplaceAll(text, Placeholder(first.name), first.value), Placeholder(first.name))
    ensures ReplaceEach(text, Pairs([first, second])) == ReplaceEach(text, Pairs([first]))
  {
    assert Pairs([first, second])[..1] == Pairs([first]) == [(first.name, first.value)];
    ReplaceEachOne(text, first.name, first.value);
    ReplaceAllWithoutOccurrence(ReplaceAll(text, Placeholder(first.name), first.value), Placeholder(second.name), second.value);
  }

  /**
   * The second variable of a name does take effect when the first one's
   * value brings its own placeholder back: `x` = "{{x}}" then `x` = "B"
   * turn "{{x}}" into "B", where the first alone leaves "{{x}}".
   */
  lemma DuplicateNameCanTakeEffect()
    ensures var first, second := Variable("1", "x", "{{x}}"), Variable("2", "x", "B");
      ReplaceEach("{{x}}", Pairs([first])) == "{{x}}"
      && ReplaceEach("{{x}}", Pairs([first, second])) == "B"
  {
    var first, second := Variable("1", "x", "{{x}}"), Variable("2", "x", "B");
    assert Placeholder("x") == "{{x}}";
    assert Pairs([first, second]) == [("x", "{{x}}"), ("x", "B")];
    assert Pairs([first, second])[..1] == Pairs([first]) == [("x", "{{x}}")];
    ReplaceEachOne("{{x}}", "x", "{{x}}");
    ReplaceAllAtFront("{{x}}", "{{x}}", "");
    ReplaceAllAtFront("{{x}}", "B", "");
    assert "{{x}}" + "" == "{{x}}";
  }

  // Running the prompt

  const ConfigurationHint: string := "\n\nPlease check your API credentials in Settings."
  const NoResponse: string := "No response received"

  /** What the output panel shows before the reply arrives. */
  function Banner(provider: string, substituted: string): string {
    "Executing prompt...\n\nProvider: " + ToUpperAscii(provider) + "\nSubstituted Prompt:\n" + substituted + "\n\n--- Response ---\n"
  }

  /** What `executePrompt` shows, and whether it handed the prompt to the service. */
  datatype Execution = Execution(output: string, sent: bool)

  /**
   * `executePrompt`: the banner, then the configuration errors (and no
   * request), or the reply's data (a notice when it is empty), or its error.
   * A missing error reads `undefined`, as a template literal prints it.
   */
  function Execute(config: ApiConfig, substituted: string, response: LlmResponse): Execution {
    var banner := Banner(config.provider, substituted);
    var errors := ConfigErrors(config);
    if errors != [] then Execution(banner + "Configuration Error:\n" + Join(errors, "\n") + ConfigurationHint, false)
    else if response.success then Execution(banner + (if response.data.Some? && response.data.value != "" then response.data.value else NoResponse), true)
    else Execution(banner + "Error: " + response.error.GetOr("undefined"), true)
  }

  /**
   * The request is made exactly when the settings pass their check; when they
   * do not, the output lists the errors and does not depend on any reply.
   */
  lemma ExecuteGuard(config: ApiConfig, substituted: string, response: LlmResponse, other: LlmResponse)
    ensures Execute(config, substituted, response).sent <==> ConfigErrors(config) == []
    ensures !Execute(config, substituted, response).sent ==> Execute(config, substituted, response) == Execute(config, substituted, other)
    ensures StartsWith(Execute(config, substituted, response).output, Banner(config.provider, substituted))
  {
    var e := Execute(config, substituted, response);
    var b := Banner(config.provider, substituted);
    assert e.output[..|b|] == b;
  }

  /** The screen's state: the variable list, the prompt, the output panel and the settings. */
  class PromptScreen {
    var variables: seq<Variable>
    var prompt: string
    var output: string
    var apiConfig: ApiConfig

    constructor(apiConfig: ApiConfig)
      ensures variables == [Variable("1", "name", "John"), Variable("2", "task", "write a blog post")]
      ensures prompt == "Hello {{name}}, please {{task}} about " + "artificial intelligence."
      ensures output == "" && this.apiConfig == apiConfig
    {
      variables := [Variable("1", "name", "John"), Variable("2", "task", "write a blog post")];
      prompt := "Hello {{name}}, please {{task}} about " + "artificial intelligence.";
      output := "";
      this.apiConfig := apiConfig;
    }

    method AddVariable(newId: string)
      modifies this
      ensures variables == WithNewVariable(old(variables), newId)
      ensures prompt == old(prompt) && output == old(output) && apiConfig == old(apiConfig)
    {
      variables := variables + [Variable(newId, "var" + NatToString(|variables| + 1), "")];
    }

    method RemoveVariable(id: string)
      modifies this
      ensures variables == WithoutVariable(old(variables), id)
      ensures prompt == old(prompt) && output == old(output) && apiConfig == old(apiConfig)
    {
      variables := Keep(variables, HasNotId(id));
    }

    method UpdateVariable(id: string, field: Field, newValue: string)
      modifies this
      ensures variables == WithUpdatedVariable(old(variables), id, field, newValue)
      ensures prompt == old(prompt) && output == old(output) && apiConfig == old(apiConfig)
    {
      variables := WithUpdatedVariable(variables, id, field, newValue);
    }

    /** `executePrompt`, given the reply the service would give. */
    method ExecutePrompt(response: LlmResponse) returns (sent: bool)
      modifies this
      ensures Execution(output, sent) == Execute(apiConfig, ReplaceEach(prompt, Pairs(variables)), response)
      ensures variables == old(variables) && prompt == old(prompt) && apiConfig == old(apiConfig)
    {
      var substituted := SubstituteVariableList(prompt, variables);
      output := Banner(apiConfig.provider, substituted);
      var errors := ConfigErrors(apiConfig);
      if errors != [] {
        output := output + "Configuration Error:\n" + Join(errors, "\n") + ConfigurationHint;
        return false;
      }
      if response.success {
        output := output + (if response.data.Some? && response.data.value != "" then response.data.value else NoResponse);
      } else {
        output := output + "Error: " + response.error.GetOr("undefined");
      }
      sent := true;
    }
  }
}
