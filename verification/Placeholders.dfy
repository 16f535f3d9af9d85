/** The warning pass of workflow validation: which placeholders of a prompt have no producer. */
module Placeholders {
  import opened Wrappers
  import opened Workflows
  import opened Substitution

  /** Rust's `split("{{")`. */
  function Split(s: string): (parts: seq<string>)
    ensures |parts| > 0
    decreases |s|
  {
    if s == "" then [""]
    else if "{{" <= s then [""] + Split(s[2..])
    else
      var parts := Split(s[1..]);
      [[s[0]] + parts[0]] + parts[1..]
  }

  /** Rust's `find("}}")`. */
  function FindClose(s: string): (r: Option<nat>)
    ensures r.Some? ==> r.value <= |s|
  {
    if |s| < 2 then None
    else if "}}" <= s then Some(0)
    else match FindClose(s[1..]) case Some(i) => Some(i + 1) case None => None
  }

  /** On any text: the first closing braces are found, if there are any. */
  lemma {:induction false} FindCloseIsFirst(s: string)
    ensures FindClose(s).Some? ==> FirstAt(s, "}}", FindClose(s).value)
    ensures FindClose(s).None? ==> forall i :: !OccursAt(s, "}}", i)
  {
    if |s| >= 2 {
      FindCloseIsFirst(s[1..]);
      assert "}}" <= s <==> OccursAt(s, "}}", 0);
      forall i | i > 0 ensures OccursAt(s, "}}", i) <==> OccursAt(s[1..], "}}", i - 1) {
        OccursLater(s, "}}", i);
      }
    }
  }

  /** On any text: a split without opening braces is the text itself. */
  lemma {:induction false} SplitNothing(s: string)
    requires forall i :: !OccursAt(s, "{{", i)
    ensures Split(s) == [s]
  {
    if s != "" {
      assert "{{" <= s ==> OccursAt(s, "{{", 0);
      forall i ensures !OccursAt(s[1..], "{{", i) {
        if i >= 0 {
          OccursLater(s, "{{", i + 1);
        }
      }
      SplitNothing(s[1..]);
      assert [s[0]] + s[1..] == s;
    }
  }

  /** On any text: the first part ends at the first opening braces, and the rest is split in the same way. */
  lemma {:induction false} SplitFirst(s: string, i: int)
    requires FirstAt(s, "{{", i)
    ensures Split(s) == [s[..i]] + Split(s[i + 2..])
    decreases i
  {
    if i == 0 {
      assert s[..2] == "{{";
    } else {
      assert "{{" <= s ==> OccursAt(s, "{{", 0);
      forall j | j < i ensures OccursAt(s[1..], "{{", j) <==> OccursAt(s, "{{", j + 1) {
        if j >= 0 {
          OccursLater(s, "{{", j + 1);
        }
      }
      SplitFirst(s[1..], i - 1);
      CutLater(s, i, 2);
    }
  }

  function NamesIn(parts: seq<string>): seq<string> {
    if parts == [] then []
    else
      var last := parts[|parts| - 1];
      NamesIn(parts[..|parts| - 1]) + if FindClose(last).Some? then [last[..FindClose(last).value]] else []
  }

  /** The names the scan of a prompt looks up. */
  function Scanned(prompt: string): seq<string> {
    if Opens(prompt) then NamesIn(Split(prompt)) else []
  }

  function OutputVars(wf: Workflow): set<string> {
    set s <- wf.steps | s.outputVar.Some? :: s.outputVar.value
  }

  datatype Warning = Warning(step: StepId, name: string)

  /** The warnings of one prompt, in scan order. */
  method ScanPrompt(s: Step, produced: set<string>) returns (warnings: seq<Warning>)
    ensures forall w :: w in warnings <==> w.step == s.id && w.name in Scanned(s.prompt) && w.name !in produced
  {
    warnings := [];
    if Opens(s.prompt) {
      var parts := Split(s.prompt);
      for k := 0 to |parts|
        invariant forall w :: w in warnings <==> w.step == s.id && w.name in NamesIn(parts[..k]) && w.name !in produced
      {
        assert parts[..k + 1][..k] == parts[..k];
        var end := FindClose(parts[k]);
        if end.Some? {
          var name := parts[k][..end.value];
          if name !in produced {
            warnings := warnings + [Warning(s.id, name)];
          }
        }
      }
      assert parts[..|parts|] == parts;
    }
  }

  /** A warning is pushed for exactly the scanned names that no step produces. */
  method WarnUnproduced(wf: Workflow) returns (warnings: seq<Warning>)
    ensures forall w :: w in warnings <==>
      exists s <- wf.steps :: w.step == s.id && w.name in Scanned(s.prompt) && w.name !in OutputVars(wf)
  {
    warnings := [];
    for i := 0 to |wf.steps|
      invariant forall w :: w in warnings <==>
        exists s <- wf.steps[..i] :: w.step == s.id && w.name in Scanned(s.prompt) && w.name !in OutputVars(wf)
    {
      var more := ScanPrompt(wf.steps[i], OutputVars(wf));
      assert wf.steps[..i + 1] == wf.steps[..i] + [wf.steps[i]];
      warnings := warnings + more;
    }
    assert wf.steps[..|wf.steps|] == wf.steps;
  }

  function Names(tokens: seq<Token>): seq<string> {
    if tokens == [] then [] else (if tokens[0].Var? then [tokens[0].name] else []) + Names(tokens[1..])
  }

  /** The text before the first placeholder. */
  function LeadingText(tokens: seq<Token>): string {
    if tokens == [] || tokens[0].Var? then "" else tokens[0].text + LeadingText(tokens[1..])
  }

  lemma {:induction false} SplitKeepsCalm(text: string, rest: string)
    requires Calm(text)
    ensures Split(text + rest)[0] == text + Split(rest)[0]
    ensures Split(text + rest)[1..] == Split(rest)[1..]
  {
    if text == "" {
      assert text + rest == rest;
      assert text + Split(rest)[0] == Split(rest)[0];
    } else {
      var s := text + rest;
      assert s[0] == text[0] && (|text| > 1 ==> s[1] == text[1]);
      assert s[1..] == text[1..] + rest;
      SplitKeepsCalm(text[1..], rest);
      assert [s[0]] + (text[1..] + Split(rest)[0]) == text + Split(rest)[0];
    }
  }

  lemma {:induction false} CloseAfterName(name: string, rest: string)
    requires BraceFree(name)
    ensures FindClose(name + "}}" + rest) == Some(|name|)
  {
    var s := name + "}}" + rest;
    if name != "" {
      assert s[0] == name[0];
      assert s[1..] == name[1..] + "}}" + rest;
      CloseAfterName(name[1..], rest);
    }
  }

  lemma {:induction false} NamesInCons(part: string, parts: seq<string>)
    ensures NamesIn([part] + parts) ==
      (if FindClose(part).Some? then [part[..FindClose(part).value]] else []) + NamesIn(parts)
  {
    var all := [part] + parts;
    if parts == [] {
      assert all[..0] == [];
    } else {
      NamesInCons(part, parts[..|parts| - 1]);
      assert all[..|all| - 1] == [part] + parts[..|parts| - 1];
    }
  }

  lemma SplitPlaceholder(name: string, rest: string)
    requires BraceFree(name)
    ensures Split(Placeholder(name) + rest)[0] == ""
    ensures Split(Placeholder(name) + rest)[1..] == [name + "}}" + Split(rest)[0]] + Split(rest)[1..]
  {
    var s := Placeholder(name) + rest;
    assert s[2..] == name + "}}" + rest;
    SplitKeepsCalm(name + "}}", rest);
  }

  lemma NamesOfPlaceholder(name: string, rest: string)
    requires BraceFree(name)
    ensures Split(Placeholder(name) + rest)[0] == ""
    ensures NamesIn(Split(Placeholder(name) + rest)[1..]) == [name] + NamesIn(Split(rest)[1..])
  {
    var part, parts := name + "}}" + Split(rest)[0], Split(Placeholder(name) + rest);
    SplitPlaceholder(name, rest);
    CloseAfterName(name, Split(rest)[0]);
    NamesInCons(part, Split(rest)[1..]);
    assert parts[1..] == [part] + Split(rest)[1..];
    assert part[..|name|] == name;
  }

  /** The first part is the leading text and the others give the placeholder names in order. */
  lemma {:induction false} SplitRendered(tokens: seq<Token>)
    requires WellTokenised(tokens)
    ensures Split(Render(tokens))[0] == LeadingText(tokens)
    ensures NamesIn(Split(Render(tokens))[1..]) == Names(tokens)
  {
    if tokens != [] {
      hide Split, NamesIn, Calm, Placeholder;
      var t, rest := tokens[0], Render(tokens[1..]);
      SplitRendered(tokens[1..]);
      assert WellFormedToken(t);
      assert Render(tokens) == RenderToken(t) + rest;
      hide Render, WellTokenised;
      match t {
        case Text(text) =>
          SplitKeepsCalm(text, rest);
        case Var(name) =>
          NamesOfPlaceholder(name, rest);
      }
    }
  }

  lemma OpensAfterCalm(text: string, rest: string)
    requires Calm(text)
    ensures Opens(text + rest) <==> Opens(rest)
  {
    var s, n := text + rest, |text|;
    if Opens(rest) {
      var i :| 0 <= i < |rest| && OpensAt(rest, i);
      assert s[n + i] == rest[i] && s[n + i + 1] == rest[i + 1];
      assert OpensAt(s, n + i);
    }
    if Opens(s) {
      var i :| 0 <= i < |s| && OpensAt(s, i);
      assert forall k :: 0 <= k < n ==> s[k] == text[k];
      assert !(i < n);
      assert s[i] == rest[i - n] && s[i + 1] == rest[i - n + 1];
      assert OpensAt(rest, i - n);
    }
  }

  lemma {:induction false} OpensIffNames(tokens: seq<Token>)
    requires WellTokenised(tokens)
    ensures Opens(Render(tokens)) <==> Names(tokens) != []
  {
    if tokens != [] {
      var t, rest := tokens[0], Render(tokens[1..]);
      OpensIffNames(tokens[1..]);
      assert WellFormedToken(t);
      if t.Var? {
        assert OpensAt(Placeholder(t.name) + rest, 0);
      } else {
        OpensAfterCalm(t.text, rest);
      }
    }
  }

  /** The scan yields exactly the placeholder names, in order, unless text before the first
      placeholder holds closing braces, which is reported as one more name. */
  lemma ScanIsExactIff(tokens: seq<Token>)
    requires WellTokenised(tokens)
    ensures Scanned(Render(tokens)) == Names(tokens) <==> Names(tokens) == [] || FindClose(LeadingText(tokens)).None?
    ensures forall name <- Names(tokens) :: name in Scanned(Render(tokens))
  {
    var parts := Split(Render(tokens));
    OpensIffNames(tokens);
    SplitRendered(tokens);
    NamesInCons(parts[0], parts[1..]);
    assert parts == [parts[0]] + parts[1..];
  }

  lemma {:induction false} NamesAre(tokens: seq<Token>, name: string)
    ensures name in Names(tokens) <==> Var(name) in tokens
  {
    if tokens != [] {
      NamesAre(tokens[1..], name);
      assert tokens == [tokens[0]] + tokens[1..];
    }
  }
}
