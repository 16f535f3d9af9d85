/** The variables a run hands from step to step. */
module EngineDataflow {
  import opened Wrappers
  import opened Workflows
  import opened Substitution
  import opened SubstitutionOrder
  import opened Placeholders
  import opened Engine
  import opened EngineBatch
  import opened EngineSafety

  /** The step is the only one that writes this variable. */
  ghost predicate SoleProducer(wf: Workflow, step: Step, v: string) {
    step in wf.steps && step.outputVar == Some(v) && forall t <- wf.steps :: t.outputVar == Some(v) ==> t.id == step.id
  }

  /** The variable's value is what this step's state records, if it records an output at all. */
  ghost predicate Explains(step: Step, v: string, s: RunState) {
    step.outputVar == Some(v) && step.id in s.states &&
    (s.states[step.id].Completed? ==> v in s.vars && s.states[step.id].output == s.vars[v])
  }

  ghost predicate Delivered(wf: Workflow, s: RunState) {
    && (forall step, v :: SoleProducer(wf, step, v) && step.id in s.states && s.states[step.id].Completed? ==>
      v in s.vars && s.vars[v] == s.states[step.id].output)
    && (forall step <- wf.steps :: step.outputVar.Some? && step.id in s.states && s.states[step.id].Completed? ==>
      step.outputVar.value in s.vars)
    && (forall v <- s.vars :: exists step <- wf.steps :: Explains(step, v, s))
  }

  lemma DeliveredCollect(wf: Workflow, oc: Oracle, step: Step, h: Handle, s: RunState)
    requires UniqueIds(wf) && Collectable(wf, oc, step, h, s) && Delivered(wf, s)
    ensures Delivered(wf, CollectOne(wf, h, s))
  {
    hide CollectOne, Delivered;
    var t := CollectOne(wf, h, s);
    DeliveredStates(wf, oc, step, h, s);
    forall v | v in t.vars ensures exists w <- wf.steps :: Explains(w, v, t) {
      StillExplained(wf, oc, step, h, s, v);
    }
    DeliveredIntro(wf, t);
  }

  lemma DeliveredIntro(wf: Workflow, s: RunState)
    requires forall step <- wf.steps :: step.outputVar.Some? && step.id in s.states && s.states[step.id].Completed? ==>
      step.outputVar.value in s.vars &&
      (SoleProducer(wf, step, step.outputVar.value) ==> s.vars[step.outputVar.value] == s.states[step.id].output)
    requires forall v <- s.vars :: exists step <- wf.steps :: Explains(step, v, s)
    ensures Delivered(wf, s)
  {
  }

  lemma DeliveredStates(wf: Workflow, oc: Oracle, step: Step, h: Handle, s: RunState)
    requires UniqueIds(wf) && Collectable(wf, oc, step, h, s) && Delivered(wf, s)
    ensures
      var t := CollectOne(wf, h, s);
      forall p <- wf.steps :: p.outputVar.Some? && p.id in t.states && t.states[p.id].Completed? ==>
        p.outputVar.value in t.vars &&
        (SoleProducer(wf, p, p.outputVar.value) ==> t.vars[p.outputVar.value] == t.states[p.id].output)
  {
    hide CollectOne, ReadAll;
    CollectEffect(wf, step, h, s);
    var t := CollectOne(wf, h, s);
    forall p | p in wf.steps && p.outputVar.Some? && p.id in t.states && t.states[p.id].Completed?
      ensures p.outputVar.value in t.vars
      ensures SoleProducer(wf, p, p.outputVar.value) ==> t.vars[p.outputVar.value] == t.states[p.id].output
    {
      if p.id == step.id {
        SameStep(wf, p, step);
      } else {
        assert s.states[p.id] == t.states[p.id];
      }
    }
  }

  lemma StillExplained(wf: Workflow, oc: Oracle, step: Step, h: Handle, s: RunState, v: string)
    requires UniqueIds(wf) && Collectable(wf, oc, step, h, s) && Delivered(wf, s) && v in CollectOne(wf, h, s).vars
    ensures exists w <- wf.steps :: Explains(w, v, CollectOne(wf, h, s))
  {
    hide CollectOne, ReadAll;
    CollectEffect(wf, step, h, s);
    var t := CollectOne(wf, h, s);
    if ReadAll(h.events).Success() && h.outputVar == Some(v) {
      assert Explains(step, v, t);
    } else {
      var w :| w in wf.steps && Explains(w, v, s);
      if w.id == step.id {
        SameStep(wf, w, step);
      }
      assert Explains(w, v, t);
    }
  }

  lemma DeliveredSpawn(wf: Workflow, s: RunState)
    requires Delivered(wf, s)
    ensures Delivered(wf, SpawnAll(FindReady(wf.steps, s.states), s))
  {
    hide SpawnAll, FindReady;
    var ready := FindReady(wf.steps, s.states);
    var t := SpawnAll(ready, s);
    SpawnEffect(ready, s);
    forall v | v in t.vars ensures exists w <- wf.steps :: Explains(w, v, t) {
      var w :| w in wf.steps && Explains(w, v, s);
      assert Explains(w, v, t);
    }
    DeliveredIntro(wf, t);
  }

  /** Prompts are resolved with both stores, in which the shared context wins. */
  lemma SharedContextWins(wf: Workflow, oc: Oracle, s: RunState, k: nat)
    requires |s.log| <= k < |Round(wf, oc, s).log|
    ensures
      var e := Round(wf, oc, s).log[k];
      && (forall v :: v in e.env <==> v in s.vars || v in s.shared)
      && (forall v <- s.shared :: e.env[v] == s.shared[v])
      && (forall v <- s.vars :: v !in s.shared ==> e.env[v] == s.vars[v])
  {
    hide Round, SpawnAll, FindReady;
    var ready := FindReady(wf.steps, s.states);
    RoundLog(wf, oc, s);
    SpawnLog(ready, s);
    SpawnLogAt(ready, s, k - |s.log|);
  }

  /** A prompt that needs a step's success is resolved with exactly that step's output. */
  ghost predicate ReadsOutputs(wf: Workflow, e: Spawn) {
    forall step, d, p, v ::
      step in wf.steps && step.id == e.id && d in step.dependsOn && d.condition == OnSuccess &&
      SoleProducer(wf, p, v) && p.id == d.stepId ==>
        p.id in e.states && e.states[p.id].Completed? && v in e.env && e.env[v] == e.states[p.id].output
  }

  /** A step whose success is seen has its recorded output in the variables. */
  lemma SuccessIsStored(wf: Workflow, s: RunState, states: States, d: Dependency, p: Step, v: string)
    requires Delivered(wf, s) && SoleProducer(wf, p, v) && p.id == d.stepId && d.condition == OnSuccess && Meets(d, states)
    requires forall id <- states :: states[id].Completed? ==> id in s.states && s.states[id] == states[id]
    ensures p.id in states && states[p.id].Completed? && v in s.vars && s.vars[v] == states[p.id].output
  {
  }

  lemma EachIsMet(step: Step, states: States, d: Dependency)
    requires DependenciesMet(step, states) && d in step.dependsOn
    ensures Meets(d, states)
  {
  }

  lemma SpawnReadsOutputs(wf: Workflow, s: RunState, i: nat)
    requires UniqueIds(wf) && Delivered(wf, s) && s.vars == s.shared
    requires i < |FindReady(wf.steps, s.states)|
    ensures
      var ready := FindReady(wf.steps, s.states);
      ReadsOutputs(wf, Spawn(ready[i].id, SpawnAll(ready[..i], s).states, s.vars + s.shared))
  {
    hide SpawnAll, FindReady, UniqueIds, IsReady, Delivered, SoleProducer, Meets, DependenciesMet;
    var ready := FindReady(wf.steps, s.states);
    var e := Spawn(ready[i].id, SpawnAll(ready[..i], s).states, s.vars);
    assert s.vars + s.shared == s.vars;
    ReadyUnaffectedByMates(wf, s, i);
    SpawnKeepsCompleted(ready[..i], s);
    assert ready[i] in ready;
    forall step, d, p, v | step in wf.steps && step.id == e.id && d in step.dependsOn &&
      d.condition == OnSuccess && SoleProducer(wf, p, v) && p.id == d.stepId
      ensures p.id in e.states && e.states[p.id].Completed? && v in e.env && e.env[v] == e.states[p.id].output
    {
      SameStep(wf, step, ready[i]);
      EachIsMet(step, e.states, d);
      SuccessIsStored(wf, s, e.states, d, p, v);
    }
  }

  lemma SpawnKeepsCompleted(ready: seq<Step>, s: RunState)
    ensures forall id <- SpawnAll(ready, s).states ::
      SpawnAll(ready, s).states[id].Completed? ==> id in s.states && s.states[id] == SpawnAll(ready, s).states[id]
  {
    SpawnEffect(ready, s);
  }

  lemma LogReadsOutputs(wf: Workflow, s: RunState)
    requires UniqueIds(wf) && Delivered(wf, s) && s.vars == s.shared && forall e <- s.log :: ReadsOutputs(wf, e)
    ensures forall e <- SpawnAll(FindReady(wf.steps, s.states), s).log :: ReadsOutputs(wf, e)
  {
    hide SpawnAll, FindReady, ReadsOutputs, Delivered;
    var ready := FindReady(wf.steps, s.states);
    var log := SpawnAll(ready, s).log;
    SpawnLog(ready, s);
    forall e | e in log ensures ReadsOutputs(wf, e) {
      var k :| 0 <= k < |log| && log[k] == e;
      if k < |s.log| {
        assert e == s.log[k] && e in s.log;
      } else {
        SpawnLogAt(ready, s, k - |s.log|);
        SpawnReadsOutputs(wf, s, k - |s.log|);
      }
    }
  }

  lemma DeliveredRound(wf: Workflow, oc: Oracle, s: RunState)
    requires UniqueIds(wf) && NoneRunning(s.states) && Delivered(wf, s) && s.phase == Looping
    ensures Delivered(wf, Round(wf, oc, s))
  {
    hide Delivered, SpawnAll;
    if FindReady(wf.steps, s.states) == [] {
      DeliveredIgnoresPhase(wf, s, Round(wf, oc, s).phase);
    } else {
      DeliveredSpawn(wf, s);
      forall step, h, t | Delivered(wf, t) && Collectable(wf, oc, step, h, t) ensures Delivered(wf, CollectOne(wf, h, t)) {
        DeliveredCollect(wf, oc, step, h, t);
      }
      RoundKeeps(wf, oc, s, t => Delivered(wf, t));
    }
  }

  lemma DeliveredIgnoresPhase(wf: Workflow, s: RunState, phase: Phase)
    requires Delivered(wf, s)
    ensures Delivered(wf, s.(phase := phase))
  {
    var t := s.(phase := phase);
    forall v | v in t.vars ensures exists w <- wf.steps :: Explains(w, v, t) {
      var w :| w in wf.steps && Explains(w, v, s);
      assert Explains(w, v, t);
    }
  }

  /** In every state of a fresh run, whatever retries and fallbacks happened, a Completed step that
      alone writes its variable has left its recorded output in both stores, and every spawned prompt
      that needs a step's success saw that step's output. */
  lemma {:induction false} OutputsReachTheirReaders(wf: Workflow, oc: Oracle, n: nat)
    requires UniqueIds(wf)
    ensures Delivered(wf, Head(wf, oc, n)) && Head(wf, oc, n).vars == Head(wf, oc, n).shared
    ensures forall e <- Head(wf, oc, n).log :: ReadsOutputs(wf, e)
  {
    hide Head, Round, Delivered, ReadsOutputs, SpawnAll, FindReady;
    HeadsAreSane(wf, oc, n);
    if n == 0 {
      HeadStep(wf, oc, 0);
      FreshDelivered(wf);
    } else {
      OutputsReachTheirReaders(wf, oc, n - 1);
      HeadStep(wf, oc, n - 1);
      HeadsAreSane(wf, oc, n - 1);
      var before := Head(wf, oc, n - 1);
      if before.phase == Looping {
        DeliveredRound(wf, oc, before);
        RoundLog(wf, oc, before);
        LogReadsOutputs(wf, before);
      }
    }
  }

  lemma FreshDelivered(wf: Workflow)
    ensures Delivered(wf, Fresh(wf)) && Fresh(wf).log == []
  {
    FreshIs(wf);
  }

  /** The prompt of a spawned agent is its step's template with every known placeholder replaced at
      once; in it, a placeholder of a needed step's variable has become that step's output. */
  lemma PromptCarriesOutputs(wf: Workflow, oc: Oracle, n: nat, e: Spawn, prompt: string, step: Step, tokens: seq<Token>)
    requires UniqueIds(wf) && e in Head(wf, oc, n).log && PromptIsFor(wf, e, prompt)
    requires step in wf.steps && step.id == e.id && step.prompt == Render(tokens)
    requires WellTokenised(tokens) && CalmVars(e.env)
    ensures prompt == Render(SubstMap(tokens, TextValues(e.env)))
    ensures forall d, p, v :: d in step.dependsOn && d.condition == OnSuccess && SoleProducer(wf, p, v) && p.id == d.stepId ==>
      p.id in e.states && e.states[p.id].Completed? &&
      MapToken(Var(v), TextValues(e.env)) == [Text(e.states[p.id].output)]
  {
    hide Head, Render, SubstMap, UniqueIds, Delivered, WellTokenised, CalmVars, IsResolution;
    OutputsReachTheirReaders(wf, oc, n);
    var s :| s in wf.steps && s.id == e.id && IsResolution(s.prompt, e.env, prompt);
    SameStep(wf, s, step);
    ResolutionIsSimultaneous(tokens, e.env, prompt);
    assert ReadsOutputs(wf, e);
  }

  // No warning, nothing left over

  /** The step needs the success of one that writes the variable. */
  ghost predicate Provided(wf: Workflow, step: Step, v: string) {
    exists d <- step.dependsOn, p <- wf.steps :: d.condition == OnSuccess && p.id == d.stepId && p.outputVar == Some(v)
  }

  /** Whatever is provided for a step is among the variables its prompt is resolved with. */
  ghost predicate HasProvisions(wf: Workflow, e: Spawn) {
    forall step, v :: step in wf.steps && step.id == e.id && Provided(wf, step, v) ==> v in e.env
  }

  lemma SpawnHasProvisions(wf: Workflow, s: RunState, i: nat)
    requires UniqueIds(wf) && Delivered(wf, s) && i < |FindReady(wf.steps, s.states)|
    ensures
      var ready := FindReady(wf.steps, s.states);
      HasProvisions(wf, Spawn(ready[i].id, SpawnAll(ready[..i], s).states, s.vars + s.shared))
  {
    hide FindReady, SpawnAll, UniqueIds;
    var ready := FindReady(wf.steps, s.states);
    assert ready[i] in ready && IsReady(ready[i], s.states);
    forall step, v | step in wf.steps && step.id == ready[i].id && Provided(wf, step, v) ensures v in s.vars {
      SameStep(wf, step, ready[i]);
      var d, p :| d in step.dependsOn && p in wf.steps && d.condition == OnSuccess && p.id == d.stepId && p.outputVar == Some(v);
      assert Meets(d, s.states);
    }
  }

  lemma LogHasProvisions(wf: Workflow, s: RunState)
    requires UniqueIds(wf) && Delivered(wf, s) && forall e <- s.log :: HasProvisions(wf, e)
    ensures forall e <- SpawnAll(FindReady(wf.steps, s.states), s).log :: HasProvisions(wf, e)
  {
    hide SpawnAll, FindReady, HasProvisions, Delivered;
    var ready := FindReady(wf.steps, s.states);
    var log := SpawnAll(ready, s).log;
    SpawnLog(ready, s);
    forall e | e in log ensures HasProvisions(wf, e) {
      var k :| 0 <= k < |log| && log[k] == e;
      if k < |s.log| {
        assert e == s.log[k] && e in s.log;
      } else {
        SpawnLogAt(ready, s, k - |s.log|);
        SpawnHasProvisions(wf, s, k - |s.log|);
      }
    }
  }

  lemma {:induction false} SpawnsHaveProvisions(wf: Workflow, oc: Oracle, n: nat)
    requires UniqueIds(wf)
    ensures forall e <- Head(wf, oc, n).log :: HasProvisions(wf, e)
  {
    hide Head, Round, Delivered, HasProvisions, ReadsOutputs, SpawnAll, FindReady;
    if n == 0 {
      HeadStep(wf, oc, 0);
      FreshDelivered(wf);
    } else {
      SpawnsHaveProvisions(wf, oc, n - 1);
      OutputsReachTheirReaders(wf, oc, n - 1);
      HeadStep(wf, oc, n - 1);
      var before := Head(wf, oc, n - 1);
      if before.phase == Looping {
        RoundLog(wf, oc, before);
        LogHasProvisions(wf, before);
      }
    }
  }

  /** The prompt that an agent was given opens no placeholder any more if every name that the scan finds
      in its template is written by a step whose success it needs, and the variables were calm. */
  lemma SpawnedPromptsAreFilled(wf: Workflow, oc: Oracle, n: nat, e: Spawn, prompt: string, step: Step, tokens: seq<Token>)
    requires UniqueIds(wf) && e in Head(wf, oc, n).log && PromptIsFor(wf, e, prompt)
    requires step in wf.steps && step.id == e.id && step.prompt == Render(tokens) && WellTokenised(tokens)
    requires forall name <- Scanned(step.prompt) :: Provided(wf, step, name)
    requires CalmVars(e.env)
    ensures !Opens(prompt)
  {
    hide Head, Render, SubstMap, Scanned, IsResolution, UniqueIds, Provided;
    SpawnsHaveProvisions(wf, oc, n);
    assert HasProvisions(wf, e);
    var s :| s in wf.steps && s.id == e.id && IsResolution(s.prompt, e.env, prompt);
    SameStep(wf, s, step);
    ScanIsExactIff(tokens);
    forall t | t in tokens && t.Var? ensures t.name in e.env {
      NamesAre(tokens, t.name);
    }
    NothingLeftOver(tokens, e.env, prompt);
  }

  ghost predicate ProducersCompletedCalmly(wf: Workflow, s: RunState) {
    forall p <- wf.steps :: p.outputVar.Some? ==>
      BraceFree(p.outputVar.value) && p.id in s.states && s.states[p.id].Completed? && Calm(s.states[p.id].output)
  }

  lemma CompletedVarsAreCalm(wf: Workflow, s: RunState)
    requires Delivered(wf, s) && ProducersCompletedCalmly(wf, s)
    ensures CalmVars(s.vars) && forall v :: v in s.vars <==> v in OutputVars(wf)
  {
    forall v | v in s.vars ensures BraceFree(v) && Calm(s.vars[v]) && v in OutputVars(wf) {
      var p :| p in wf.steps && Explains(p, v, s);
    }
    forall v | v in OutputVars(wf) ensures v in s.vars {
      var p :| p in wf.steps && p.outputVar == Some(v);
    }
  }

  /** If validation warns about no placeholder of a step and every producer has completed with calm
      output, the step's resolved prompt opens no placeholder any more. */
  lemma NoWarningNothingLeftOver(wf: Workflow, oc: Oracle, n: nat, step: Step, tokens: seq<Token>, prompt: string)
    requires UniqueIds(wf) && step in wf.steps && step.prompt == Render(tokens) && WellTokenised(tokens)
    requires forall name <- Scanned(step.prompt) :: name in OutputVars(wf)
    requires ProducersCompletedCalmly(wf, Head(wf, oc, n))
    requires var s := Head(wf, oc, n); IsResolution(step.prompt, s.vars + s.shared, prompt)
    ensures !Opens(prompt)
  {
    hide Head, Render, SubstMap, Scanned, IsResolution;
    var s := Head(wf, oc, n);
    OutputsReachTheirReaders(wf, oc, n);
    assert s.vars + s.shared == s.vars;
    CompletedVarsAreCalm(wf, s);
    ScanIsExactIff(tokens);
    forall t | t in tokens && t.Var? ensures t.name in s.vars {
      NamesAre(tokens, t.name);
    }
    NothingLeftOver(tokens, s.vars, prompt);
  }
}
