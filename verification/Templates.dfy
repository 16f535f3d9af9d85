/** Workflow templates: required parameters, defaults, and textual parameter substitution. */
module Templates {
  import opened Wrappers
  import opened Substitution
  import opened SubstitutionOrder

  datatype Parameter = Parameter(name: string, required: bool, default: Option<string>)

  function Value(p: Parameter, given: Vars): string {
    if p.name in given then given[p.name] else p.default.GetOr("")
  }

  function ParameterPairs(ps: seq<Parameter>, given: Vars): seq<(string, string)> {
    seq(|ps|, i requires 0 <= i < |ps| => (ps[i].name, Value(ps[i], given)))
  }

  /** The first declaration that is required and has neither a given value nor a default. */
  ghost predicate FirstMissing(ps: seq<Parameter>, given: Vars, i: int) {
    && 0 <= i < |ps| && ps[i].required && ps[i].name !in given && ps[i].default.None?
    && forall p <- ps[..i] :: p.required ==> p.name in given || p.default.Some?
  }

  /** Fails with the first missing required parameter, otherwise substitutes all parameters in turn. */
  method Resolve(content: string, ps: seq<Parameter>, given: Vars) returns (r: Result<string, string>)
    ensures r.Ok? <==> forall p <- ps :: p.required ==> p.name in given || p.default.Some?
    ensures r.Ok? ==> r.value == ReplaceAll(content, ParameterPairs(ps, given))
    ensures r.Err? ==> exists i :: 0 <= i < |ps| && ps[i].name == r.error && FirstMissing(ps, given, i)
  {
    for i := 0 to |ps|
      invariant forall p <- ps[..i] :: p.required ==> p.name in given || p.default.Some?
    {
      assert ps[..i + 1] == ps[..i] + [ps[i]];
      if ps[i].required && ps[i].name !in given && ps[i].default.None? {
        assert FirstMissing(ps, given, i) && ps[i] in ps;
        return Err(ps[i].name);
      }
    }
    assert ps[..|ps|] == ps;
    var text := content;
    for i := 0 to |ps|
      invariant text == ReplaceAll(content, ParameterPairs(ps[..i], given))
    {
      assert ParameterPairs(ps[..i + 1], given) == ParameterPairs(ps[..i], given) + [(ps[i].name, Value(ps[i], given))];
      text := Replace(text, Placeholder(ps[i].name), Value(ps[i], given));
    }
    assert ps[..|ps|] == ps;
    r := Ok(text);
  }

  /** The value of each parameter name; when a name is declared twice, the first declaration wins. */
  function ParameterMap(ps: seq<Parameter>, given: Vars): Vars {
    if ps == [] then map[]
    else
      var earlier := ParameterMap(ps[..|ps| - 1], given);
      var last := ps[|ps| - 1];
      if last.name in earlier then earlier else earlier[last.name := Value(last, given)]
  }

  function ParameterBindings(ps: seq<Parameter>, given: Vars): seq<Binding> {
    seq(|ps|, i requires 0 <= i < |ps| => Binding(ps[i].name, [Text(Value(ps[i], given))]))
  }

  ghost predicate CalmParameters(ps: seq<Parameter>, given: Vars) {
    forall p <- ps :: BraceFree(p.name) && Calm(Value(p, given))
  }

  lemma {:induction false} LookupParameter(ps: seq<Parameter>, given: Vars, name: string)
    ensures Lookup(ParameterBindings(ps, given), name) ==
      if name in ParameterMap(ps, given) then Some([Text(ParameterMap(ps, given)[name])]) else None
  {
    if ps != [] {
      var n := |ps| - 1;
      LookupParameter(ps[..n], given, name);
      assert ParameterBindings(ps, given)[..n] == ParameterBindings(ps[..n], given);
    }
  }

  lemma {:induction false} ParameterMapCalm(ps: seq<Parameter>, given: Vars)
    requires CalmParameters(ps, given)
    ensures CalmVars(ParameterMap(ps, given))
  {
    if ps != [] {
      ParameterMapCalm(ps[..|ps| - 1], given);
    }
  }

  /** Exactly the declared names are substituted. */
  lemma {:induction false} ParameterMapKeys(ps: seq<Parameter>, given: Vars, name: string)
    ensures name in ParameterMap(ps, given) <==> exists p <- ps :: p.name == name
  {
    if ps != [] {
      var n := |ps| - 1;
      ParameterMapKeys(ps[..n], given, name);
      assert ps == ps[..n] + [ps[n]];
    }
  }

  /** The i-th declaration is the first one of the name. */
  ghost predicate DeclaredAt(ps: seq<Parameter>, i: int, name: string) {
    0 <= i < |ps| && ps[i].name == name && forall j :: 0 <= j < i ==> ps[j].name != name
  }

  /** The declared names with the values that are to be substituted: a given one, or else the default of
      the first declaration, or else nothing. */
  ghost predicate GivenOrDefault(ps: seq<Parameter>, given: Vars, values: Vars) {
    && (forall name :: name in values <==> exists p <- ps :: p.name == name)
    && (forall name <- values :: name in given ==> values[name] == given[name])
    && (forall i, name <- values :: name !in given && DeclaredAt(ps, i, name) ==>
      values[name] == match ps[i].default case Some(default) => default case None => "")
  }

  lemma {:induction false} GivenWins(ps: seq<Parameter>, given: Vars, name: string)
    requires name in ParameterMap(ps, given) && name in given
    ensures ParameterMap(ps, given)[name] == given[name]
  {
    var n := |ps| - 1;
    if name in ParameterMap(ps[..n], given) {
      GivenWins(ps[..n], given, name);
    }
  }

  lemma {:induction false} DefaultIsFirst(ps: seq<Parameter>, given: Vars, i: int, name: string)
    requires name in ParameterMap(ps, given) && name !in given && DeclaredAt(ps, i, name)
    ensures ParameterMap(ps, given)[name] == match ps[i].default case Some(default) => default case None => ""
  {
    var n := |ps| - 1;
    ParameterMapKeys(ps[..n], given, name);
    if i < n {
      assert ps[..n][i] in ps[..n];
      DefaultIsFirst(ps[..n], given, i, name);
    }
  }

  lemma ParameterMapGives(ps: seq<Parameter>, given: Vars)
    ensures GivenOrDefault(ps, given, ParameterMap(ps, given))
  {
    hide ParameterMap;
    forall name {
      ParameterMapKeys(ps, given, name);
    }
    forall name | name in ParameterMap(ps, given) && name in given ensures ParameterMap(ps, given)[name] == given[name] {
      GivenWins(ps, given, name);
    }
    forall i, name | name in ParameterMap(ps, given) && name !in given && DeclaredAt(ps, i, name)
      ensures ParameterMap(ps, given)[name] == match ps[i].default case Some(default) => default case None => ""
    {
      DefaultIsFirst(ps, given, i, name);
    }
  }

  lemma {:induction false} FirstDeclaration(ps: seq<Parameter>, name: string) returns (i: nat)
    requires exists p <- ps :: p.name == name
    ensures DeclaredAt(ps, i, name)
  {
    var n := |ps| - 1;
    assert ps == ps[..n] + [ps[n]];
    if exists p <- ps[..n] :: p.name == name {
      i := FirstDeclaration(ps[..n], name);
    } else {
      i := n;
      forall j | 0 <= j < n ensures ps[j].name != name {
        assert ps[j] in ps[..n];
      }
    }
  }

  /** There is just one such map. */
  lemma GivenOrDefaultIsUnique(ps: seq<Parameter>, given: Vars, values: Vars)
    requires GivenOrDefault(ps, given, values)
    ensures values == ParameterMap(ps, given)
  {
    var own := ParameterMap(ps, given);
    ParameterMapGives(ps, given);
    forall name ensures name in values <==> name in own {
    }
    forall name | name in values ensures values[name] == own[name] {
      if name !in given {
        var i := FirstDeclaration(ps, name);
      }
    }
  }

  lemma {:induction false} AtOnceIsParameterMap(tokens: seq<Token>, ps: seq<Parameter>, given: Vars)
    ensures SubstAtOnce(tokens, ParameterBindings(ps, given)) == SubstMap(tokens, TextValues(ParameterMap(ps, given)))
  {
    if tokens != [] {
      AtOnceIsParameterMap(tokens[1..], ps, given);
      if tokens[0].Var? {
        LookupParameter(ps, given, tokens[0].name);
      }
    }
  }

  lemma RenderParameters(ps: seq<Parameter>, given: Vars)
    ensures RenderPairs(ParameterBindings(ps, given)) == ParameterPairs(ps, given)
  {
    forall i | 0 <= i < |ps| ensures RenderPairs(ParameterBindings(ps, given))[i] == ParameterPairs(ps, given)[i] {
      RenderText(Value(ps[i], given));
    }
  }

  lemma TextsNeverChain(tokens: seq<Token>, ps: seq<Parameter>, given: Vars)
    ensures NoChain(tokens, ParameterBindings(ps, given))
  {
    forall t | t in tokens && t.Var? ensures Lookup(ParameterBindings(ps, given), t.name).Some? ==>
      forall other :: !Mentions(Lookup(ParameterBindings(ps, given), t.name).value, other)
    {
      LookupParameter(ps, given, t.name);
    }
  }

  /** Resolving a tokenised template is one simultaneous substitution of its parameters; placeholders
      that are not parameters stay as they are. */
  lemma TemplateIsSimultaneous(tokens: seq<Token>, ps: seq<Parameter>, given: Vars)
    requires WellTokenised(tokens) && CalmParameters(ps, given)
    ensures ReplaceAll(Render(tokens), ParameterPairs(ps, given)) == Render(SubstMap(tokens, TextValues(ParameterMap(ps, given))))
  {
    var bs := ParameterBindings(ps, given);
    forall b | b in bs ensures BraceFree(b.name) && WellTokenised(b.value) {
      var i :| 0 <= i < |bs| && bs[i] == b;
      assert ps[i] in ps;
    }
    SubstInTurnKeeps(tokens, bs);
    TextsNeverChain(tokens, ps, given);
    InTurnIsAtOnce(tokens, bs);
    AtOnceIsParameterMap(tokens, ps, given);
    RenderParameters(ps, given);
  }

  lemma {:induction false} SubstMapAppend(a: seq<Token>, b: seq<Token>, values: Values)
    ensures SubstMap(a + b, values) == SubstMap(a, values) + SubstMap(b, values)
  {
    hide MapToken;
    if a == [] {
      assert a + b == b;
      assert SubstMap(a, values) + SubstMap(b, values) == SubstMap(b, values);
    } else {
      SubstMapAppend(a[1..], b, values);
      assert (a + b)[1..] == a[1..] + b && (a + b)[0] == a[0];
      Associate(MapToken(a[0], values), SubstMap(a[1..], values), SubstMap(b, values));
    }
  }

  lemma {:induction false} SubstMapTwice(tokens: seq<Token>, first: Vars, second: Vars)
    ensures SubstMap(SubstMap(tokens, TextValues(first)), TextValues(second)) == SubstMap(tokens, TextValues(second + first))
  {
    if tokens != [] {
      SubstMapTwice(tokens[1..], first, second);
      SubstMapAppend(MapToken(tokens[0], TextValues(first)), SubstMap(tokens[1..], TextValues(first)), TextValues(second));
      MapTokenTwice(tokens[0], first, second);
    }
  }

  lemma MapTokenTwice(t: Token, first: Vars, second: Vars)
    ensures SubstMap(MapToken(t, TextValues(first)), TextValues(second)) == MapToken(t, TextValues(second + first))
  {
    var head := MapToken(t, TextValues(first))[0];
    assert SubstMap([head], TextValues(second)) == MapToken(head, TextValues(second)) + [];
  }

  /** Resolving a template and later its variables is one substitution in which the template's
      parameters take precedence over variables of the same name. */
  lemma TemplateThenVariables(tokens: seq<Token>, ps: seq<Parameter>, given: Vars, vars: Vars, result: string)
    requires WellTokenised(tokens) && CalmParameters(ps, given) && CalmVars(vars)
    requires IsResolution(ReplaceAll(Render(tokens), ParameterPairs(ps, given)), vars, result)
    ensures result == Render(SubstMap(tokens, TextValues(vars + ParameterMap(ps, given))))
  {
    var params := ParameterMap(ps, given);
    var resolved := SubstMap(tokens, TextValues(params));
    TemplateIsSimultaneous(tokens, ps, given);
    ParameterMapCalm(ps, given);
    MapKeepsTokens(tokens, TextValues(params));
    ResolutionIsSimultaneous(resolved, vars, result);
    SubstMapTwice(tokens, params, vars);
  }

  /** The text that resolving a tokenised template returns: every placeholder of a declared name has
      become the given value, or else the default of the name's first declaration, or else nothing. */
  lemma TemplateGivesValues(tokens: seq<Token>, ps: seq<Parameter>, given: Vars, values: Vars)
    requires WellTokenised(tokens) && GivenOrDefault(ps, given, values) && CalmParameters(ps, given)
    ensures ReplaceAll(Render(tokens), ParameterPairs(ps, given)) == Render(SubstMap(tokens, TextValues(values)))
  {
    GivenOrDefaultIsUnique(ps, given, values);
    TemplateIsSimultaneous(tokens, ps, given);
  }
}
