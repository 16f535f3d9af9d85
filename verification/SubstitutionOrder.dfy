/** Exactly when the order in which the variables are visited does not matter, and that it does not for
    values in which no placeholder can begin. */
module SubstitutionOrder {
  import opened Graphs
  import opened Substitution

  lemma {:induction false} MentionsAfterOne(tokens: seq<Token>, name: string, value: seq<Token>, other: string)
    ensures Mentions(SubstOne(tokens, name, value), other) <==>
      (Mentions(tokens, name) && Mentions(value, other)) || (name != other && Mentions(tokens, other))
  {
    if tokens != [] {
      MentionsAfterOne(tokens[1..], name, value, other);
      assert tokens == [tokens[0]] + tokens[1..];
    }
  }

  lemma {:induction false} MentionsAfterMap(tokens: seq<Token>, values: Values, name: string, other: string)
    requires Mentions(tokens, name) && name in values && Mentions(values[name], other)
    ensures Mentions(SubstMap(tokens, values), other)
  {
    if tokens[0] != Var(name) {
      assert tokens == [tokens[0]] + tokens[1..];
      MentionsAfterMap(tokens[1..], values, name, other);
    }
  }

  lemma {:induction false} RemovingShortens(tokens: seq<Token>, name: string)
    ensures |Render(SubstOne(tokens, name, []))| <= |Render(tokens)|
    ensures Mentions(tokens, name) ==> |Render(SubstOne(tokens, name, []))| < |Render(tokens)|
  {
    if tokens != [] {
      RemovingShortens(tokens[1..], name);
      assert tokens == [tokens[0]] + tokens[1..];
      if tokens[0] == Var(name) {
        assert SubstOne(tokens, name, []) == SubstOne(tokens[1..], name, []);
      } else {
        assert SubstOne(tokens, name, []) == [tokens[0]] + SubstOne(tokens[1..], name, []);
      }
    }
  }

  /** Which names a text mentions does not depend on how it is cut into tokens. */
  lemma SameTextSameMentions(a: seq<Token>, b: seq<Token>, name: string)
    requires WellTokenised(a) && WellTokenised(b) && BraceFree(name) && Render(a) == Render(b)
    ensures Mentions(a, name) <==> Mentions(b, name)
  {
    ReplaceIsSubstOne(a, name, []);
    ReplaceIsSubstOne(b, name, []);
    RemovingShortens(a, name);
    RemovingShortens(b, name);
    SubstOneFrame(a, name, []);
    SubstOneFrame(b, name, []);
  }

  lemma {:induction false} Listing(names: set<string>) returns (keys: seq<string>)
    ensures Distinct(keys) && SetOf(keys) == names
  {
    if names == {} {
      keys := [];
    } else {
      var x :| x in names;
      var rest := Listing(names - {x});
      assert x !in rest by { assert x !in SetOf(rest); }
      keys := rest + [x];
      assert SetOf(keys) == SetOf(rest) + {x};
    }
  }

  /** An order that visits the given key last. */
  lemma OrderEndingWith(values: Values, last: string) returns (front: seq<string>)
    requires last in values
    ensures IsIteration(front + [last], values) && KeysIn(front + [last], values)
  {
    front := Listing(values.Keys - {last});
    assert SetOf(front + [last]) == SetOf(front) + {last};
    assert last !in front by { assert last !in SetOf(front); }
    forall k | k in front + [last] ensures k in values { assert k in SetOf(front + [last]); }
  }

  /** Visiting a name last that its own value does not mention erases the name. */
  lemma LastNameErased(tokens: seq<Token>, values: Values, front: seq<string>, last: string)
    requires KeysIn(front + [last], values) && last in values && !Mentions(values[last], last)
    ensures !Mentions(SubstInTurn(tokens, BindingsOf(front + [last], values)), last)
  {
    var bs := BindingsOf(front + [last], values);
    var n := |bs| - 1;
    MentionsAfterOne(SubstInTurn(tokens, bs[..n]), last, values[last], last);
  }

  /** The value of a used name mentions another bound name. */
  predicate Chain(tokens: seq<Token>, values: Values, user: string, used: string) {
    Mentions(tokens, user) && user in values && used in values && user != used && Mentions(values[user], used)
  }

  /** The result of one order. */
  lemma OrderResult(tokens: seq<Token>, values: Values, keys: seq<string>)
    requires WellTokenised(tokens) && WellFormedValues(values) && IsIteration(keys, values) && KeysIn(keys, values)
    ensures WellTokenised(SubstInTurn(tokens, BindingsOf(keys, values)))
    ensures IsResolution(Render(tokens), RenderValues(values), Render(SubstInTurn(tokens, BindingsOf(keys, values))))
  {
    SubstInTurnKeeps(tokens, BindingsOf(keys, values));
    IterationRenders(keys, values);
    assert KeysIn(keys, RenderValues(values));
  }

  /** A chain to a value without its own name: visiting that name last erases it everywhere. */
  lemma ErasingChainBreaksOrder(tokens: seq<Token>, values: Values, user: string, used: string)
    requires WellTokenised(tokens) && WellFormedValues(values)
    requires Chain(tokens, values, user, used) && !Mentions(values[used], used)
    ensures !OrderIrrelevant(tokens, values)
  {
    var front := OrderEndingWith(values, used);
    var inTurn := SubstInTurn(tokens, BindingsOf(front + [used], values));
    OrderResult(tokens, values, front + [used]);
    LastNameErased(tokens, values, front, used);
    MentionsAfterMap(tokens, values, user, used);
    MapKeepsTokens(tokens, values);
    if Render(inTurn) == Render(SubstMap(tokens, values)) {
      SameTextSameMentions(inTurn, SubstMap(tokens, values), used);
      assert false;
    }
  }

  // Token by token

  lemma {:induction false} InTurnAppend(a: seq<Token>, b: seq<Token>, bs: seq<Binding>)
    ensures SubstInTurn(a + b, bs) == SubstInTurn(a, bs) + SubstInTurn(b, bs)
  {
    if bs != [] {
      var n := |bs| - 1;
      InTurnAppend(a, b, bs[..n]);
      SubstOneAppend(SubstInTurn(a, bs[..n]), SubstInTurn(b, bs[..n]), bs[n].name, bs[n].value);
    }
  }

  lemma {:induction false} InTurnThen(tokens: seq<Token>, first: seq<Binding>, second: seq<Binding>)
    ensures SubstInTurn(tokens, first + second) == SubstInTurn(SubstInTurn(tokens, first), second)
  {
    if second == [] {
      assert first + second == first;
    } else {
      hide SubstOne;
      var n, all := |second| - 1, first + second;
      InTurnThen(tokens, first, second[..n]);
      assert all[..|all| - 1] == first + second[..n] && all[|all| - 1] == second[n];
    }
  }

  predicate Binds(bs: seq<Binding>, name: string) {
    exists b <- bs :: b.name == name
  }

  /** A token that no binding replaces stays. */
  lemma {:induction false} UntouchedStays(tokens: seq<Token>, t: Token, bs: seq<Binding>)
    requires t in tokens && (t.Var? ==> !Binds(bs, t.name))
    ensures t in SubstInTurn(tokens, bs)
    ensures tokens == [t] ==> SubstInTurn(tokens, bs) == [t]
  {
    if bs != [] {
      var n := |bs| - 1;
      assert bs == bs[..n] + [bs[n]];
      UntouchedStays(tokens, t, bs[..n]);
      OneKeepsOthers(SubstInTurn(tokens, bs[..n]), t, bs[n].name, bs[n].value);
    }
  }

  lemma {:induction false} OneKeepsOthers(tokens: seq<Token>, t: Token, name: string, value: seq<Token>)
    requires t in tokens && t != Var(name)
    ensures t in SubstOne(tokens, name, value)
    ensures tokens == [t] ==> SubstOne(tokens, name, value) == [t]
  {
    assert tokens == [tokens[0]] + tokens[1..];
    if tokens[0] != t {
      OneKeepsOthers(tokens[1..], t, name, value);
    }
  }

  ghost predicate DistinctNames(bs: seq<Binding>) {
    forall i, j :: 0 <= i < j < |bs| ==> bs[i].name != bs[j].name
  }

  /** A bound placeholder becomes its value when its turn comes, and only later bindings touch that. */
  lemma OwnTurn(name: string, bs: seq<Binding>, i: nat)
    requires DistinctNames(bs) && i < |bs| && bs[i].name == name
    ensures SubstInTurn([Var(name)], bs) == SubstInTurn(bs[i].value, bs[i + 1..])
    ensures !Binds(bs[i + 1..], name)
  {
    hide SubstOne, SubstInTurn;
    assert bs == bs[..i] + [bs[i]] + bs[i + 1..];
    InTurnThen([Var(name)], bs[..i] + [bs[i]], bs[i + 1..]);
    InTurnThen([Var(name)], bs[..i], [bs[i]]);
    UntouchedStays([Var(name)], Var(name), bs[..i]);
    OwnBinding(bs[i]);
  }

  lemma OwnBinding(b: Binding)
    ensures SubstInTurn([Var(b.name)], [b]) == b.value
  {
    assert [b][..0] == [];
    assert SubstOne([Var(b.name)], b.name, b.value) == b.value + [];
  }

  // Chains to values that mention themselves

  lemma {:induction false} ContainsToken(tokens: seq<Token>, t: Token)
    requires t in tokens
    ensures |RenderToken(t)| <= |Render(tokens)|
    ensures |RenderToken(t)| == |Render(tokens)| ==> Render(tokens) == RenderToken(t)
  {
    hide RenderToken;
    assert tokens == [tokens[0]] + tokens[1..];
    assert Render(tokens) == RenderToken(tokens[0]) + Render(tokens[1..]);
    if tokens[0] != t {
      ContainsToken(tokens[1..], t);
    }
  }

  /** The binding of a mentioned name brings the name back. */
  ghost predicate Persists(tokens: seq<Token>, bs: seq<Binding>) {
    forall b <- bs :: Mentions(tokens, b.name) ==> Mentions(b.value, b.name)
  }

  lemma TokenNotShorter(t: Token, bs: seq<Binding>)
    requires DistinctNames(bs) && Persists([t], bs)
    ensures |RenderToken(t)| <= |Render(SubstInTurn([t], bs))|
  {
    if t.Var? && Binds(bs, t.name) {
      var i :| 0 <= i < |bs| && bs[i].name == t.name;
      assert bs[i] in bs;
      OwnTurn(t.name, bs, i);
      UntouchedStays(bs[i].value, t, bs[i + 1..]);
    } else {
      UntouchedStays([t], t, bs);
    }
    ContainsToken(SubstInTurn([t], bs), t);
  }

  lemma RenderSplit(tokens: seq<Token>, bs: seq<Binding>)
    requires tokens != []
    ensures |Render(SubstInTurn(tokens, bs))| == |Render(SubstInTurn([tokens[0]], bs))| + |Render(SubstInTurn(tokens[1..], bs))|
    ensures |Render(tokens)| == |RenderToken(tokens[0])| + |Render(tokens[1..])|
  {
    assert tokens == [tokens[0]] + tokens[1..];
    InTurnAppend([tokens[0]], tokens[1..], bs);
    RenderAppend(SubstInTurn([tokens[0]], bs), SubstInTurn(tokens[1..], bs));
  }

  lemma {:induction false} NotShorter(tokens: seq<Token>, bs: seq<Binding>)
    requires DistinctNames(bs) && Persists(tokens, bs)
    ensures |Render(tokens)| <= |Render(SubstInTurn(tokens, bs))|
  {
    if tokens == [] {
      assert Render(tokens) == "";
    } else {
      RenderSplit(tokens, bs);
      TokenNotShorter(tokens[0], bs);
      NotShorter(tokens[1..], bs);
    }
  }

  /** The last binding makes a text longer that mentions its name, unless it puts the same text back. */
  lemma {:induction false} LastMakesLonger(tokens: seq<Token>, bs: seq<Binding>, last: Binding)
    requires DistinctNames(bs + [last]) && Persists(tokens, bs + [last]) && Mentions(tokens, last.name)
    requires Render(last.value) != Placeholder(last.name)
    ensures |Render(tokens)| < |Render(SubstInTurn(tokens, bs + [last]))|
  {
    var all := bs + [last];
    RenderSplit(tokens, all);
    if tokens[0] == Var(last.name) {
      OwnTurn(last.name, all, |bs|);
      assert all[|bs|] in all;
      ContainsToken(last.value, Var(last.name));
      NotShorter(tokens[1..], all);
    } else {
      TokenNotShorter(tokens[0], all);
      LastMakesLonger(tokens[1..], bs, last);
    }
  }

  lemma BindingsAre(keys: seq<string>, values: Values, name: string)
    requires IsIteration(keys, values) && KeysIn(keys, values) && name in values
    ensures DistinctNames(BindingsOf(keys, values))
    ensures exists i :: 0 <= i < |keys| && keys[i] == name
  {
    assert name in SetOf(keys);
  }

  /** Chains only lead to values that mention their own name. */
  ghost predicate ChainsPersist(tokens: seq<Token>, values: Values) {
    forall user, used :: Chain(tokens, values, user, used) ==> Mentions(values[used], used)
  }

  /** The bindings after a name's own are those of other names. */
  lemma LaterBindings(keys: seq<string>, values: Values, i: nat)
    requires IsIteration(keys, values) && KeysIn(keys, values) && i < |keys|
    ensures DistinctNames(BindingsOf(keys, values)[i + 1..])
    ensures forall b <- BindingsOf(keys, values)[i + 1..] :: b.name != keys[i] && b.name in values && b.value == values[b.name]
  {
  }

  /** One token: visited in turn it becomes at least as long as its simultaneous value, and longer if
      its value mentions the last name and that is not bound to its own placeholder. */
  lemma TokenGrows(t: Token, values: Values, front: seq<string>, last: string)
    requires IsIteration(front + [last], values) && KeysIn(front + [last], values) && last in values
    requires ChainsPersist([t], values) && Render(values[last]) != Placeholder(last)
    ensures
      var result := Render(SubstInTurn([t], BindingsOf(front + [last], values)));
      && |Render(MapToken(t, values))| <= |result|
      && (t.Var? && Chain([t], values, t.name, last) ==> |Render(MapToken(t, values))| < |result|)
  {
    hide SubstInTurn, Render, Replace;
    var keys := front + [last];
    var bs := BindingsOf(keys, values);
    if t.Var? && t.name in values {
      BindingsAre(keys, values, t.name);
      var i :| 0 <= i < |keys| && keys[i] == t.name;
      OwnTurn(t.name, bs, i);
      var rest := bs[i + 1..];
      LaterBindings(keys, values, i);
      forall b | b in rest && Mentions(values[t.name], b.name) ensures Mentions(b.value, b.name) {
        assert Chain([t], values, t.name, b.name);
      }
      if Chain([t], values, t.name, last) {
        assert i < |front|;
        assert rest == rest[..|rest| - 1] + [bs[|front|]];
        LastMakesLonger(values[t.name], rest[..|rest| - 1], bs[|front|]);
      } else {
        NotShorter(values[t.name], rest);
      }
    } else {
      forall b | b in bs ensures b.name in values {
        assert b.name in keys;
      }
      UntouchedStays([t], t, bs);
    }
  }

  lemma {:induction false} ResultGrows(tokens: seq<Token>, values: Values, front: seq<string>, last: string)
    requires IsIteration(front + [last], values) && KeysIn(front + [last], values) && last in values
    requires ChainsPersist(tokens, values) && Render(values[last]) != Placeholder(last)
    ensures
      var result := Render(SubstInTurn(tokens, BindingsOf(front + [last], values)));
      && |Render(SubstMap(tokens, values))| <= |result|
      && ((exists user :: Chain(tokens, values, user, last)) ==> |Render(SubstMap(tokens, values))| < |result|)
  {
    var bs := BindingsOf(front + [last], values);
    if tokens == [] {
      assert Render(SubstMap(tokens, values)) == "";
    } else {
      assert tokens == [tokens[0]] + tokens[1..];
      forall user, used | Chain([tokens[0]], values, user, used) || Chain(tokens[1..], values, user, used)
        ensures Mentions(values[used], used)
      {
        assert Chain(tokens, values, user, used);
      }
      RenderSplit(tokens, bs);
      TokenGrows(tokens[0], values, front, last);
      ResultGrows(tokens[1..], values, front, last);
      RenderAppend(MapToken(tokens[0], values), SubstMap(tokens[1..], values));
      if user :| Chain(tokens, values, user, last) {
        assert tokens[0] == Var(user) ==> Chain([tokens[0]], values, user, last);
        assert tokens[0] != Var(user) ==> Chain(tokens[1..], values, user, last);
      }
    }
  }

  // Chains to values that are their own placeholders

  lemma {:induction false} ReplaceBySame(s: string, pattern: string)
    requires pattern != ""
    ensures Replace(s, pattern, pattern) == s
    decreases |s|
  {
    if s != "" {
      if pattern <= s {
        ReplaceBySame(s[|pattern|..], pattern);
        assert s == pattern + s[|pattern|..];
      } else {
        ReplaceBySame(s[1..], pattern);
        assert s == [s[0]] + s[1..];
      }
    }
  }

  /** Bindings whose names are not mentioned, or bound to their own placeholder, leave the text as it is. */
  lemma {:induction false} QuietBindings(tokens: seq<Token>, bs: seq<Binding>)
    requires WellTokenised(tokens) && WellFormedBindings(bs)
    requires forall b <- bs :: Mentions(tokens, b.name) ==> Render(b.value) == Placeholder(b.name)
    ensures WellTokenised(SubstInTurn(tokens, bs)) && Render(SubstInTurn(tokens, bs)) == Render(tokens)
  {
    if bs != [] {
      var n := |bs| - 1;
      var before, b := SubstInTurn(tokens, bs[..n]), bs[n];
      QuietBindings(tokens, bs[..n]);
      SubstOneFrame(before, b.name, b.value);
      SameTextSameMentions(before, tokens, b.name);
      if Mentions(tokens, b.name) {
        ReplaceIsSubstOne(before, b.name, b.value);
        ReplaceBySame(Render(before), Placeholder(b.name));
      }
    }
  }

  /** Every value that a used one mentions is bound to its own placeholder. */
  ghost predicate Harmless(tokens: seq<Token>, values: Values) {
    forall user, used :: Chain(tokens, values, user, used) ==> Render(values[used]) == Placeholder(used)
  }

  lemma TokenInTurn(t: Token, values: Values, keys: seq<string>)
    requires WellFormedToken(t) && WellFormedValues(values) && IsIteration(keys, values) && KeysIn(keys, values)
    requires Harmless([t], values)
    ensures Render(SubstInTurn([t], BindingsOf(keys, values))) == Render(MapToken(t, values))
  {
    var bs := BindingsOf(keys, values);
    if t.Var? && t.name in values {
      BindingsAre(keys, values, t.name);
      var i :| 0 <= i < |keys| && keys[i] == t.name;
      OwnTurn(t.name, bs, i);
      var rest := bs[i + 1..];
      LaterBindings(keys, values, i);
      forall b | b in rest && Mentions(values[t.name], b.name) ensures Render(b.value) == Placeholder(b.name) {
        assert Chain([t], values, t.name, b.name);
      }
      QuietBindings(values[t.name], rest);
    } else {
      forall b | b in bs ensures b.name in values {
        assert b.name in keys;
      }
      UntouchedStays([t], t, bs);
    }
  }

  lemma {:induction false} HarmlessInTurn(tokens: seq<Token>, values: Values, keys: seq<string>)
    requires WellTokenised(tokens) && WellFormedValues(values) && IsIteration(keys, values) && KeysIn(keys, values)
    requires Harmless(tokens, values)
    ensures Render(SubstInTurn(tokens, BindingsOf(keys, values))) == Render(SubstMap(tokens, values))
  {
    var bs := BindingsOf(keys, values);
    if tokens == [] {
      UntouchedEmpty(bs);
    } else {
      assert tokens == [tokens[0]] + tokens[1..];
      forall user, used | Chain([tokens[0]], values, user, used) || Chain(tokens[1..], values, user, used)
        ensures Render(values[used]) == Placeholder(used)
      {
        assert Chain(tokens, values, user, used);
      }
      TokenInTurn(tokens[0], values, keys);
      HarmlessInTurn(tokens[1..], values, keys);
      InTurnAppend([tokens[0]], tokens[1..], bs);
      RenderAppend(SubstInTurn([tokens[0]], bs), SubstInTurn(tokens[1..], bs));
      RenderAppend(MapToken(tokens[0], values), SubstMap(tokens[1..], values));
    }
  }

  lemma {:induction false} UntouchedEmpty(bs: seq<Binding>)
    ensures SubstInTurn([], bs) == []
  {
    if bs != [] {
      UntouchedEmpty(bs[..|bs| - 1]);
    }
  }

  lemma HarmlessSuffices(tokens: seq<Token>, values: Values)
    requires WellTokenised(tokens) && WellFormedValues(values) && Harmless(tokens, values)
    ensures OrderIrrelevant(tokens, values)
  {
    forall result | IsResolution(Render(tokens), RenderValues(values), result)
      ensures result == Render(SubstMap(tokens, values))
    {
      var vars := RenderValues(values);
      var keys :| IsIteration(keys, vars) && KeysIn(keys, vars) && result == ReplaceAll(Render(tokens), PairsOf(keys, vars));
      assert KeysIn(keys, values) && IsIteration(keys, values);
      HarmlessInTurn(tokens, values, keys);
      SubstInTurnKeeps(tokens, BindingsOf(keys, values));
      IterationRenders(keys, values);
    }
  }

  lemma ChainBreaksOrder(tokens: seq<Token>, values: Values, user: string, used: string)
    requires WellTokenised(tokens) && WellFormedValues(values)
    requires Chain(tokens, values, user, used) && Render(values[used]) != Placeholder(used)
    ensures !OrderIrrelevant(tokens, values)
  {
    if u, v :| Chain(tokens, values, u, v) && !Mentions(values[v], v) {
      ErasingChainBreaksOrder(tokens, values, u, v);
    } else {
      var front := OrderEndingWith(values, used);
      OrderResult(tokens, values, front + [used]);
      ResultGrows(tokens, values, front, used);
    }
  }

  /** For all tokenised prompts and values, repeated replacement is simultaneous substitution in every
      iteration order exactly when each bound name that the value of a used one mentions is bound to its
      own placeholder; in particular when used values mention no other bound name. */
  lemma OrderIrrelevantIff(tokens: seq<Token>, values: Values)
    requires WellTokenised(tokens) && WellFormedValues(values)
    ensures OrderIrrelevant(tokens, values) <==> Harmless(tokens, values)
  {
    if Harmless(tokens, values) {
      HarmlessSuffices(tokens, values);
    } else {
      var user, used :| Chain(tokens, values, user, used) && Render(values[used]) != Placeholder(used);
      ChainBreaksOrder(tokens, values, user, used);
    }
  }

  // Plain values

  function TextValues(vars: Vars): Values {
    map k <- vars :: [Text(vars[k])]
  }

  ghost predicate CalmVars(vars: Vars) {
    forall k <- vars :: BraceFree(k) && Calm(vars[k])
  }

  /** For calm values, in particular brace-free ones, every resolution of a tokenised prompt is the
      simultaneous substitution. */
  lemma ResolutionIsSimultaneous(tokens: seq<Token>, vars: Vars, result: string)
    requires WellTokenised(tokens) && CalmVars(vars)
    requires IsResolution(Render(tokens), vars, result)
    ensures result == Render(SubstMap(tokens, TextValues(vars)))
  {
    var values := TextValues(vars);
    forall k | k in vars ensures RenderValues(values)[k] == vars[k] {
      RenderText(vars[k]);
    }
    assert RenderValues(values) == vars;
    HarmlessSuffices(tokens, values);
  }

  lemma CalmAppend(a: string, b: string)
    requires Calm(a) && Calm(b)
    ensures Calm(a + b)
  {
    var s := a + b;
    forall i | 0 <= i < |s| - 1 && s[i] == '{' ensures s[i + 1] != '{' {
      if i < |a| - 1 {
        assert s[i] == a[i] && s[i + 1] == a[i + 1];
      } else if i >= |a| {
        assert s[i] == b[i - |a|] && s[i + 1] == b[i + 1 - |a|];
      }
    }
  }

  lemma {:induction false} AllBoundIsCalm(tokens: seq<Token>, vars: Vars)
    requires WellTokenised(tokens) && CalmVars(vars)
    requires forall t <- tokens :: t.Var? ==> t.name in vars
    ensures Calm(Render(SubstMap(tokens, TextValues(vars))))
  {
    if tokens != [] {
      AllBoundIsCalm(tokens[1..], vars);
      var t, rest := tokens[0], SubstMap(tokens[1..], TextValues(vars));
      var head := if t.Var? then vars[t.name] else t.text;
      assert WellFormedToken(t);
      assert SubstMap(tokens, TextValues(vars)) == [Text(head)] + rest;
      assert Render([Text(head)] + rest) == head + Render(rest);
      CalmAppend(head, Render(rest));
    }
  }

  /** With every placeholder bound to a calm value, nothing that opens a placeholder is left over. */
  lemma NothingLeftOver(tokens: seq<Token>, vars: Vars, result: string)
    requires WellTokenised(tokens) && CalmVars(vars)
    requires forall t <- tokens :: t.Var? ==> t.name in vars
    requires IsResolution(Render(tokens), vars, result)
    ensures !Opens(result)
  {
    ResolutionIsSimultaneous(tokens, vars, result);
    AllBoundIsCalm(tokens, vars);
  }
}
