/** Placeholder substitution by repeated text replacement, and the simultaneous substitution it stands for. */
module Substitution {
  import opened Wrappers
  import opened Graphs

  type Vars = map<string, string>

  function Placeholder(name: string): string {
    "{{" + name + "}}"
  }

  predicate OpensAt(s: string, i: int) {
    0 <= i < |s| - 1 && s[i] == '{' && s[i + 1] == '{'
  }

  /** Whether the text contains two adjacent opening braces. */
  predicate Opens(s: string) {
    exists i :: 0 <= i < |s| && OpensAt(s, i)
  }

  /** Rust's `str::replace`: every non-overlapping occurrence, left to right, in one pass. */
  function Replace(s: string, pattern: string, to: string): string
    requires pattern != ""
    decreases |s|
  {
    if s == "" then ""
    else if pattern <= s then to + Replace(s[|pattern|..], pattern, to)
    else [s[0]] + Replace(s[1..], pattern, to)
  }

  predicate OccursAt(s: string, pattern: string, i: int) {
    0 <= i <= |s| - |pattern| && s[i..i + |pattern|] == pattern
  }

  ghost predicate FirstAt(s: string, pattern: string, i: int) {
    OccursAt(s, pattern, i) && forall j :: j < i ==> !OccursAt(s, pattern, j)
  }

  lemma OccursLater(s: string, pattern: string, i: int)
    requires s != "" && i > 0
    ensures OccursAt(s, pattern, i) <==> OccursAt(s[1..], pattern, i - 1)
  {
    if 0 <= i <= |s| - |pattern| {
      var here, there := s[i..i + |pattern|], s[1..][i - 1..i - 1 + |pattern|];
      assert forall k :: 0 <= k < |pattern| ==> here[k] == s[i + k] == there[k];
      assert here == there;
    }
  }

  /** On any text: what does not occur is not replaced. */
  lemma {:induction false} ReplaceNothing(s: string, pattern: string, to: string)
    requires pattern != "" && forall i :: !OccursAt(s, pattern, i)
    ensures Replace(s, pattern, to) == s
  {
    if s != "" {
      assert pattern <= s ==> OccursAt(s, pattern, 0);
      forall i ensures !OccursAt(s[1..], pattern, i) {
        if i >= 0 {
          OccursLater(s, pattern, i + 1);
        }
      }
      ReplaceNothing(s[1..], pattern, to);
    }
  }

  lemma CutLater(s: string, i: nat, length: nat)
    requires 0 < i && i + length <= |s|
    ensures s[..i] == [s[0]] + s[1..][..i - 1] && s[1..][i - 1 + length..] == s[i + length..]
  {
    var here, there := s[i + length..], s[1..][i - 1 + length..];
    assert forall k :: 0 <= k < |here| ==> here[k] == there[k];
  }

  lemma ReplaceHere(s: string, pattern: string, to: string)
    requires pattern != ""
    ensures OccursAt(s, pattern, 0) ==> Replace(s, pattern, to) == to + Replace(s[|pattern|..], pattern, to)
    ensures !OccursAt(s, pattern, 0) && s != "" ==> Replace(s, pattern, to) == [s[0]] + Replace(s[1..], pattern, to)
  {
    assert pattern <= s <==> OccursAt(s, pattern, 0);
  }

  /** On any text: the first occurrence is replaced, what comes before it stays, and the rest is
      replaced in the same way. */
  lemma {:induction false} ReplaceFirst(s: string, pattern: string, to: string, i: int)
    requires pattern != "" && FirstAt(s, pattern, i)
    ensures Replace(s, pattern, to) == s[..i] + to + Replace(s[i + |pattern|..], pattern, to)
    decreases i
  {
    hide Replace;
    ReplaceHere(s, pattern, to);
    var rest := Replace(s[i + |pattern|..], pattern, to);
    if i == 0 {
      assert s[..0] + to + rest == to + rest;
    } else {
      forall j | j < i ensures OccursAt(s[1..], pattern, j) <==> OccursAt(s, pattern, j + 1) {
        if j >= 0 {
          OccursLater(s, pattern, j + 1);
        }
      }
      var tail := s[1..];
      ReplaceFirst(tail, pattern, to, i - 1);
      CutLater(s, i, |pattern|);
      Associate([s[0]], tail[..i - 1], to);
      Associate([s[0]], tail[..i - 1] + to, rest);
    }
  }

  /** One replacement pass per (name, value) pair, in list order. */
  function ReplaceAll(s: string, pairs: seq<(string, string)>): string {
    if pairs == [] then s
    else
      var last := pairs[|pairs| - 1];
      Replace(ReplaceAll(s, pairs[..|pairs| - 1]), Placeholder(last.0), last.1)
  }

  function PairsOf(keys: seq<string>, vars: Vars): seq<(string, string)>
    requires forall k <- keys :: k in vars
  {
    seq(|keys|, i requires 0 <= i < |keys| => (keys[i], vars[keys[i]]))
  }

  /** The order in which some iteration visits the entries of a map. */
  ghost predicate IsIteration<V>(keys: seq<string>, m: map<string, V>) {
    Distinct(keys) && SetOf(keys) == m.Keys
  }

  /** What resolving the prompt may return, over all iteration orders of the map. */
  ghost predicate IsResolution(prompt: string, vars: Vars, result: string) {
    exists keys :: IsIteration(keys, vars) && KeysIn(keys, vars) && result == ReplaceAll(prompt, PairsOf(keys, vars))
  }

  ghost predicate KeysIn<V>(keys: seq<string>, m: map<string, V>) {
    forall k <- keys :: k in m
  }

  /** Replaces the placeholders of every variable, visiting the map in an arbitrary order. */
  method ResolveVariables(prompt: string, vars: Vars) returns (result: string)
    ensures IsResolution(prompt, vars, result)
  {
    result := prompt;
    var rest := vars.Keys;
    ghost var keys: seq<string> := [];
    while rest != {}
      invariant Distinct(keys) && SetOf(keys) == vars.Keys - rest && rest <= vars.Keys
      invariant KeysIn(keys, vars) && result == ReplaceAll(prompt, PairsOf(keys, vars))
      decreases rest
    {
      var key :| key in rest;
      PairsSnoc(keys, key, vars);
      result := Replace(result, Placeholder(key), vars[key]);
      assert SetOf(keys + [key]) == SetOf(keys) + {key};
      assert key !in keys by { assert key !in SetOf(keys); }
      rest, keys := rest - {key}, keys + [key];
    }
  }

  lemma PairsSnoc(keys: seq<string>, key: string, vars: Vars)
    requires KeysIn(keys, vars) && key in vars
    ensures KeysIn(keys + [key], vars)
    ensures PairsOf(keys + [key], vars) == PairsOf(keys, vars) + [(key, vars[key])]
  {
  }

  lemma OneIteration(prompt: string, name: string, value: string, result: string)
    ensures IsResolution(prompt, map[name := value], result) <==> result == Replace(prompt, Placeholder(name), value)
  {
    var vars := map[name := value];
    forall keys | IsIteration(keys, vars) ensures keys == [name] {
      assert name in SetOf(keys);
      forall key | key in keys ensures key in {name} {
        assert key in SetOf(keys);
      }
      DistinctBound(keys, {name});
    }
    assert IsIteration([name], vars) && KeysIn([name], vars);
    var pairs := PairsOf([name], vars);
    assert pairs == [(name, value)] && pairs[..0] == [];
    assert ReplaceAll(prompt, pairs) == Replace(ReplaceAll(prompt, pairs[..0]), Placeholder(name), value);
  }

  /** On any text at all, a single variable is put in place of its placeholders from left to right:
      whatever braces stand around them, none is passed over and nothing else is touched. */
  lemma OneVariableOnAnyText(prompt: string, name: string, value: string, result: string)
    requires IsResolution(prompt, map[name := value], result)
    ensures (forall i :: !OccursAt(prompt, "{{" + name + "}}", i)) ==> result == prompt
    ensures forall i :: FirstAt(prompt, "{{" + name + "}}", i) ==>
      exists rest :: IsResolution(prompt[i + |name| + 4..], map[name := value], rest) && result == prompt[..i] + value + rest
  {
    hide Replace, IsResolution;
    var pattern := Placeholder(name);
    OneIteration(prompt, name, value, result);
    if forall i :: !OccursAt(prompt, pattern, i) {
      ReplaceNothing(prompt, pattern, value);
    }
    forall i | FirstAt(prompt, pattern, i)
      ensures exists rest :: IsResolution(prompt[i + |name| + 4..], map[name := value], rest) && result == prompt[..i] + value + rest
    {
      ReplaceFirst(prompt, pattern, value, i);
      var rest := Replace(prompt[i + |pattern|..], pattern, value);
      OneIteration(prompt[i + |pattern|..], name, value, rest);
    }
  }

  // Tokens

  datatype Token = Text(text: string) | Var(name: string)

  function RenderToken(t: Token): string {
    match t
    case Text(text) => text
    case Var(name) => Placeholder(name)
  }

  function Render(tokens: seq<Token>): string {
    if tokens == [] then "" else RenderToken(tokens[0]) + Render(tokens[1..])
  }

  /** Text in which no placeholder can begin: no two adjacent opening braces and none at the end.
      Brace-free text is calm, and so is most code or JSON. */
  ghost predicate Calm(s: string) {
    && (forall i :: 0 <= i < |s| - 1 && s[i] == '{' ==> s[i + 1] != '{')
    && (s != "" ==> s[|s| - 1] != '{')
  }

  ghost predicate BraceFree(s: string) {
    forall i :: 0 <= i < |s| ==> s[i] != '{' && s[i] != '}'
  }

  ghost predicate WellFormedToken(t: Token) {
    match t
    case Text(text) => Calm(text)
    case Var(name) => BraceFree(name)
  }

  ghost predicate WellTokenised(tokens: seq<Token>) {
    forall t <- tokens :: WellFormedToken(t)
  }

  lemma RenderText(text: string)
    ensures Render([Text(text)]) == text
  {
    assert Render([Text(text)]) == text + "";
  }

  lemma Associate<T>(a: seq<T>, b: seq<T>, c: seq<T>)
    ensures a + b + c == a + (b + c)
  {
  }

  lemma {:induction false} RenderAppend(a: seq<Token>, b: seq<Token>)
    ensures Render(a + b) == Render(a) + Render(b)
  {
    hide RenderToken;
    if a == [] {
      assert a + b == b;
      assert Render(a) + Render(b) == Render(b);
    } else {
      RenderAppend(a[1..], b);
      assert (a + b)[1..] == a[1..] + b && (a + b)[0] == a[0];
      Associate(RenderToken(a[0]), Render(a[1..]), Render(b));
    }
  }

  /** Replacing one name in a token list. */
  function SubstOne(tokens: seq<Token>, name: string, value: seq<Token>): seq<Token> {
    if tokens == [] then [] else SubstToken(tokens[0], name, value) + SubstOne(tokens[1..], name, value)
  }

  function SubstToken(t: Token, name: string, value: seq<Token>): seq<Token> {
    if t == Var(name) then value else [t]
  }

  lemma {:induction false} ReplaceSkipsCalm(text: string, rest: string, name: string, to: string)
    requires Calm(text)
    ensures Replace(text + rest, Placeholder(name), to) == text + Replace(rest, Placeholder(name), to)
  {
    if text == "" {
      assert text + rest == rest;
    } else {
      var s, p := text + rest, Placeholder(name);
      assert p[0] == '{' && p[1] == '{';
      assert s[0] == text[0] && (|text| > 1 ==> s[1] == text[1]);
      assert !(p <= s);
      assert s[1..] == text[1..] + rest;
      ReplaceSkipsCalm(text[1..], rest, name, to);
    }
  }

  lemma PlaceholderPrefix(name: string, other: string, rest: string)
    requires BraceFree(name) && BraceFree(other)
    ensures Placeholder(name) <= Placeholder(other) + rest <==> name == other
  {
    var p, s := Placeholder(name), Placeholder(other) + rest;
    assert p[|name| + 2] == '}' && s[|other| + 2] == '}';
    assert forall i :: 0 <= i < |name| ==> p[i + 2] == name[i];
    assert forall i :: 0 <= i < |other| ==> s[i + 2] == other[i];
    if p <= s {
      assert forall i :: 0 <= i < |p| ==> p[i] == s[i];
      assert |name| == |other|;
      assert forall i :: 0 <= i < |name| ==> name[i] == p[i + 2] == s[i + 2] == other[i];
      assert name == other;
    }
  }

  /** A placeholder of another name is left alone. */
  lemma ReplaceSkipsPlaceholder(other: string, rest: string, name: string, to: string)
    requires BraceFree(name) && BraceFree(other) && name != other
    ensures Replace(Placeholder(other) + rest, Placeholder(name), to) == Placeholder(other) + Replace(rest, Placeholder(name), to)
  {
    var s, p, tail := Placeholder(other) + rest, Placeholder(name), "{" + other + "}}";
    PlaceholderPrefix(name, other, rest);
    assert s[1..] == tail + rest && s[0] == '{';
    assert Calm(tail);
    ReplaceSkipsCalm(tail, rest, name, to);
    assert ['{'] + (tail + Replace(rest, p, to)) == Placeholder(other) + Replace(rest, p, to);
  }

  lemma ReplaceHitsPlaceholder(rest: string, name: string, to: string)
    ensures Replace(Placeholder(name) + rest, Placeholder(name), to) == to + Replace(rest, Placeholder(name), to)
  {
    var s, p := Placeholder(name) + rest, Placeholder(name);
    assert s[|p|..] == rest;
  }

  /** One replacement pass over rendered tokens is one token substitution. */
  lemma {:induction false} ReplaceIsSubstOne(tokens: seq<Token>, name: string, value: seq<Token>)
    requires WellTokenised(tokens) && BraceFree(name)
    ensures Replace(Render(tokens), Placeholder(name), Render(value)) == Render(SubstOne(tokens, name, value))
  {
    if tokens != [] {
      var rest, p := Render(tokens[1..]), Placeholder(name);
      ReplaceIsSubstOne(tokens[1..], name, value);
      assert WellFormedToken(tokens[0]);
      assert Render([tokens[0]]) == RenderToken(tokens[0]);
      RenderAppend(SubstToken(tokens[0], name, value), SubstOne(tokens[1..], name, value));
      match tokens[0] {
        case Text(text) =>
          ReplaceSkipsCalm(text, rest, name, Render(value));
        case Var(other) =>
          if other == name {
            ReplaceHitsPlaceholder(rest, name, Render(value));
          } else {
            ReplaceSkipsPlaceholder(other, rest, name, Render(value));
          }
      }
    }
  }

  // Lists of bindings, applied one after the other

  datatype Binding = Binding(name: string, value: seq<Token>)

  type Values = map<string, seq<Token>>

  ghost predicate WellFormedBindings(bs: seq<Binding>) {
    forall b <- bs :: BraceFree(b.name) && WellTokenised(b.value)
  }

  function RenderPairs(bs: seq<Binding>): seq<(string, string)> {
    seq(|bs|, i requires 0 <= i < |bs| => (bs[i].name, Render(bs[i].value)))
  }

  predicate Mentions(tokens: seq<Token>, name: string) {
    Var(name) in tokens
  }

  /** Token substitutions in list order. */
  function SubstInTurn(tokens: seq<Token>, bs: seq<Binding>): seq<Token> {
    if bs == [] then tokens
    else
      var last := bs[|bs| - 1];
      SubstOne(SubstInTurn(tokens, bs[..|bs| - 1]), last.name, last.value)
  }

  /** The value of a name; the first binding of a name wins. */
  function Lookup(bs: seq<Binding>, name: string): Option<seq<Token>> {
    if bs == [] then None
    else
      var earlier := Lookup(bs[..|bs| - 1], name);
      var last := bs[|bs| - 1];
      if earlier.Some? then earlier else if last.name == name then Some(last.value) else None
  }

  /** Simultaneous substitution: every token is looked at once and values are not looked at again. */
  function SubstAtOnce(tokens: seq<Token>, bs: seq<Binding>): seq<Token> {
    if tokens == [] then []
    else TokenValue(tokens[0], bs) + SubstAtOnce(tokens[1..], bs)
  }

  /** No value that gets used mentions a bound name. */
  ghost predicate NoChain(tokens: seq<Token>, bs: seq<Binding>) {
    forall t <- tokens, other :: t.Var? && Lookup(bs, t.name).Some? && Mentions(Lookup(bs, t.name).value, other) ==>
      Lookup(bs, other).None?
  }

  lemma {:induction false} SubstOneAppend(a: seq<Token>, b: seq<Token>, name: string, value: seq<Token>)
    ensures SubstOne(a + b, name, value) == SubstOne(a, name, value) + SubstOne(b, name, value)
  {
    hide SubstToken;
    if a == [] {
      assert a + b == b;
      assert SubstOne(a, name, value) + SubstOne(b, name, value) == SubstOne(b, name, value);
    } else {
      SubstOneAppend(a[1..], b, name, value);
      assert (a + b)[1..] == a[1..] + b && (a + b)[0] == a[0];
      Associate(SubstToken(a[0], name, value), SubstOne(a[1..], name, value), SubstOne(b, name, value));
    }
  }

  lemma {:induction false} SubstOneFrame(tokens: seq<Token>, name: string, value: seq<Token>)
    ensures !Mentions(tokens, name) ==> SubstOne(tokens, name, value) == tokens
    ensures WellTokenised(tokens) && WellTokenised(value) ==> WellTokenised(SubstOne(tokens, name, value))
  {
    if tokens != [] {
      SubstOneFrame(tokens[1..], name, value);
      assert tokens == [tokens[0]] + tokens[1..];
    }
  }

  lemma {:induction false} SubstInTurnKeeps(tokens: seq<Token>, bs: seq<Binding>)
    requires WellTokenised(tokens) && WellFormedBindings(bs)
    ensures WellTokenised(SubstInTurn(tokens, bs))
    ensures ReplaceAll(Render(tokens), RenderPairs(bs)) == Render(SubstInTurn(tokens, bs))
  {
    if bs != [] {
      var n := |bs| - 1;
      SubstInTurnKeeps(tokens, bs[..n]);
      assert RenderPairs(bs)[..n] == RenderPairs(bs[..n]);
      SubstOneFrame(SubstInTurn(tokens, bs[..n]), bs[n].name, bs[n].value);
      ReplaceIsSubstOne(SubstInTurn(tokens, bs[..n]), bs[n].name, bs[n].value);
    }
  }

  lemma LookupSnoc(bs: seq<Binding>, b: Binding)
    ensures forall name ::
      Lookup(bs + [b], name) == (if Lookup(bs, name).Some? then Lookup(bs, name) else if b.name == name then Some(b.value) else None)
  {
    assert (bs + [b])[..|bs|] == bs;
  }

  /** What one token contributes to the simultaneous substitution. */
  function TokenValue(t: Token, bs: seq<Binding>): seq<Token> {
    if t.Var? then Lookup(bs, t.name).GetOr([t]) else [t]
  }

  lemma TokenSnoc(t: Token, tokens: seq<Token>, bs: seq<Binding>, b: Binding)
    requires NoChain(tokens, bs + [b]) && t in tokens
    ensures SubstOne(TokenValue(t, bs), b.name, b.value) == TokenValue(t, bs + [b])
  {
    LookupSnoc(bs, b);
    if t.Var? && Lookup(bs, t.name).Some? {
      assert Lookup(bs + [b], b.name).Some? && Lookup(bs + [b], t.name) == Lookup(bs, t.name);
      assert !Mentions(Lookup(bs + [b], t.name).value, b.name);
      SubstOneFrame(Lookup(bs, t.name).value, b.name, b.value);
    } else {
      assert SubstOne([t], b.name, b.value) == (if t == Var(b.name) then b.value else [t]) + [];
    }
  }

  lemma {:induction false} AtOnceSnoc(tokens: seq<Token>, bs: seq<Binding>, b: Binding)
    requires NoChain(tokens, bs + [b])
    ensures SubstOne(SubstAtOnce(tokens, bs), b.name, b.value) == SubstAtOnce(tokens, bs + [b])
  {
    hide TokenValue, Lookup, SubstOne;
    if tokens == [] {
      SubstOneNothing(b.name, b.value);
    } else {
      AtOnceSnoc(tokens[1..], bs, b);
      TokenSnoc(tokens[0], tokens, bs, b);
      SubstOneAppend(TokenValue(tokens[0], bs), SubstAtOnce(tokens[1..], bs), b.name, b.value);
    }
  }

  lemma SubstOneNothing(name: string, value: seq<Token>)
    ensures SubstOne([], name, value) == []
  {
  }

  lemma NoChainFront(tokens: seq<Token>, bs: seq<Binding>, b: Binding)
    requires NoChain(tokens, bs + [b])
    ensures NoChain(tokens, bs)
  {
    LookupSnoc(bs, b);
  }

  lemma {:induction false} InTurnIsAtOnce(tokens: seq<Token>, bs: seq<Binding>)
    requires NoChain(tokens, bs)
    ensures SubstInTurn(tokens, bs) == SubstAtOnce(tokens, bs)
  {
    if bs == [] {
      LookupNothing(tokens);
    } else {
      var n := |bs| - 1;
      assert bs == bs[..n] + [bs[n]];
      NoChainFront(tokens, bs[..n], bs[n]);
      InTurnIsAtOnce(tokens, bs[..n]);
      AtOnceSnoc(tokens, bs[..n], bs[n]);
    }
  }

  lemma {:induction false} LookupNothing(tokens: seq<Token>)
    ensures SubstAtOnce(tokens, []) == tokens
  {
    if tokens != [] {
      LookupNothing(tokens[1..]);
    }
  }

  // Maps of values

  function SubstMap(tokens: seq<Token>, values: Values): seq<Token> {
    if tokens == [] then [] else MapToken(tokens[0], values) + SubstMap(tokens[1..], values)
  }

  function MapToken(t: Token, values: Values): seq<Token> {
    if t.Var? && t.name in values then values[t.name] else [t]
  }

  function RenderValues(values: Values): Vars {
    map k <- values :: Render(values[k])
  }

  ghost predicate WellFormedValues(values: Values) {
    forall k <- values :: BraceFree(k) && WellTokenised(values[k])
  }

  function BindingsOf(keys: seq<string>, values: Values): seq<Binding>
    requires forall k <- keys :: k in values
  {
    seq(|keys|, i requires 0 <= i < |keys| => Binding(keys[i], values[keys[i]]))
  }

  lemma IterationRenders(keys: seq<string>, values: Values)
    requires KeysIn(keys, values) && KeysIn(keys, RenderValues(values))
    ensures RenderPairs(BindingsOf(keys, values)) == PairsOf(keys, RenderValues(values))
  {
  }

  /** Every order in which the map may be visited gives the simultaneous substitution. */
  ghost predicate OrderIrrelevant(tokens: seq<Token>, values: Values) {
    forall result :: IsResolution(Render(tokens), RenderValues(values), result) ==> result == Render(SubstMap(tokens, values))
  }

  lemma {:induction false} MapKeepsTokens(tokens: seq<Token>, values: Values)
    requires WellTokenised(tokens) && WellFormedValues(values)
    ensures WellTokenised(SubstMap(tokens, values))
  {
    if tokens != [] {
      MapKeepsTokens(tokens[1..], values);
    }
  }
}
