/** Fallbacks as they are meant to be used: to a step that needs the failing one. Such a fallback
    changes nothing but the failure itself, so that what holds without fallbacks holds with it. */
module EngineForward {
  import opened Wrappers
  import opened Graphs
  import opened Workflows
  import opened Engine
  import opened EngineBatch
  import opened EngineSafety
  import opened EngineFallbacks
  import opened EngineAccounts

  /** One step depends on the other, directly or through other steps. */
  ghost predicate Needs(wf: Workflow, a: StepId, b: StepId) {
    exists p :: IsPath(Edges(wf), p) && |p| >= 2 && p[0] == a && p[|p| - 1] == b
  }

  /** Every fallback is to the step itself or to a step that needs it. */
  ghost predicate FallbacksNeedTheirSteps(wf: Workflow) {
    forall step <- wf.steps :: step.FallsBack() ==>
      step.Policy().value.target == step.id || Needs(wf, step.Policy().value.target, step.id)
  }

  function PlainStep(step: Step): Step {
    if step.FallsBack() then step.(onFailure := None) else step
  }

  function Plain(steps: seq<Step>): seq<Step> {
    if steps == [] then [] else Plain(steps[..|steps| - 1]) + [PlainStep(steps[|steps| - 1])]
  }

  /** The workflow in which steps that would fall back just fail. */
  function WithoutFallbacks(wf: Workflow): Workflow {
    Workflow(Plain(wf.steps))
  }

  lemma {:induction false} PlainAt(steps: seq<Step>)
    ensures |Plain(steps)| == |steps| && forall i :: 0 <= i < |steps| ==> Plain(steps)[i] == PlainStep(steps[i])
  {
    hide PlainStep;
    if steps != [] {
      PlainAt(steps[..|steps| - 1]);
    }
  }

  lemma PlainIs(step: Step)
    ensures
      var plain := PlainStep(step);
      && plain.id == step.id && plain.prompt == step.prompt && plain.outputVar == step.outputVar
      && plain.dependsOn == step.dependsOn && !plain.FallsBack()
      && plain.Aborts() == step.Aborts() && plain.Retries() == step.Retries()
    ensures forall r :: Settled(PlainStep(step), r) == Settled(step, r)
  {
    hide ReadAll;
  }

  lemma PlainWorkflow(wf: Workflow)
    ensures Ids(WithoutFallbacks(wf)) == Ids(wf) && Edges(WithoutFallbacks(wf)) == Edges(wf)
    ensures UniqueIds(wf) ==> UniqueIds(WithoutFallbacks(wf))
    ensures NoFallback(WithoutFallbacks(wf))
    ensures forall step <- wf.steps :: PlainStep(step) in WithoutFallbacks(wf).steps
  {
    hide PlainStep;
    var plain := Plain(wf.steps);
    PlainAt(wf.steps);
    forall step {
      PlainIs(step);
    }
    forall step | step in wf.steps ensures PlainStep(step) in plain {
      var i :| 0 <= i < |wf.steps| && wf.steps[i] == step;
      assert plain[i] == PlainStep(step);
    }
    forall step | step in plain ensures exists original <- wf.steps :: step == PlainStep(original) {
      var i :| 0 <= i < |plain| && plain[i] == step;
      assert wf.steps[i] in wf.steps;
    }
  }

  lemma {:induction false} PlainReady(steps: seq<Step>, states: States)
    ensures FindReady(Plain(steps), states) == Plain(FindReady(steps, states))
  {
    hide PlainStep, IsReady;
    if steps != [] {
      var n := |steps| - 1;
      PlainReady(steps[..n], states);
      SameReadiness(steps[n], states);
      assert Plain(steps)[..n] == Plain(steps[..n]) by {
        PlainAt(steps);
        PlainAt(steps[..n]);
      }
      var front := FindReady(steps[..n], states);
      if IsReady(steps[n], states) {
        assert (front + [steps[n]])[..|front|] == front;
      } else {
        assert FindReady(steps, states) == front;
      }
    }
  }

  lemma SameReadiness(step: Step, states: States)
    ensures IsReady(PlainStep(step), states) <==> IsReady(step, states)
  {
    PlainIs(step);
  }

  lemma {:induction false} PlainSpawns(oc: Oracle, ready: seq<Step>, s: RunState)
    ensures SpawnAll(Plain(ready), s) == SpawnAll(ready, s)
    ensures Handles(oc, Plain(ready), s) == Handles(oc, ready, s)
  {
    hide PlainStep;
    if ready != [] {
      var n := |ready| - 1;
      PlainSpawns(oc, ready[..n], s);
      PlainIs(ready[n]);
      PlainAt(ready);
      PlainAt(ready[..n]);
      assert Plain(ready)[..n] == Plain(ready[..n]);
    }
  }

  /** When a fallback reopens nobody, the failure is all there is to it. */
  lemma SameCollect(wf: Workflow, step: Step, h: Handle, t: RunState)
    requires UniqueIds(wf) && step in wf.steps && h.id == step.id && h.outputVar == step.outputVar
    requires t.phase == Looping && CurrentAttempts(t.states, h.id) == 0
    requires step.FallsBack() && step.Policy().value.target != step.id ==>
      step.Policy().value.target in t.states && t.states[step.Policy().value.target].Pending?
    ensures CollectOne(wf, h, t) == CollectOne(WithoutFallbacks(wf), h, t)
  {
    hide CollectOne, ReadAll, Settled, PlainStep;
    PlainWorkflow(wf);
    PlainIs(step);
    CollectEffect(wf, step, h, t);
    CollectEffect(WithoutFallbacks(wf), PlainStep(step), h, t);
    if step.FallsBack() && step.Policy().value.target != step.id {
      assert t.states[step.Policy().value.target := Pending] == t.states;
    }
  }

  // Whoever needs an open step is pending

  /** Along a path of dependencies that ends in an open step, every step is open. */
  lemma {:induction false} NeedersAreOpen(wf: Workflow, s: RunState, p: seq<StepId>, i: nat)
    requires Grounded(wf, s) && IsPath(Edges(wf), p) && i < |p|
    requires p[|p| - 1] in s.states && !s.states[p[|p| - 1]].IsTerminal()
    ensures p[i] in s.states ==> !s.states[p[i]].IsTerminal()
    decreases |p| - i
  {
    hide Grounded;
    if i < |p| - 1 {
      var a, b := p[i], p[i + 1];
      NeedersAreOpen(wf, s, p, i + 1);
      if a in s.states && s.states[a].IsTerminal() {
        TerminalNeedsTerminal(wf, s, a, b);
      }
    }
  }

  lemma TerminalNeedsTerminal(wf: Workflow, s: RunState, a: StepId, b: StepId)
    requires Grounded(wf, s) && (a, b) in Edges(wf) && a in s.states && s.states[a].IsTerminal()
    ensures b in s.states && s.states[b].IsTerminal()
  {
    var e :| e in s.log && e.id == a;
  }

  lemma EdgeIsStep(wf: Workflow, a: StepId, b: StepId)
    requires (a, b) in Edges(wf)
    ensures a in Ids(wf)
  {
  }

  /** A step that needs a ready one is pending, and not ready itself. */
  lemma NeederWaits(wf: Workflow, s: RunState, step: Step, target: StepId)
    requires UniqueIds(wf) && Grounded(wf, s) && NoneRunning(s.states) && Ids(wf) <= s.states.Keys
    requires step in FindReady(wf.steps, s.states) && Needs(wf, target, step.id)
    ensures target in s.states && s.states[target].Pending? && target !in IdsOf(FindReady(wf.steps, s.states))
  {
    hide FindReady, Edges, Grounded;
    var ready := FindReady(wf.steps, s.states);
    assert IsReady(step, s.states) && step.id in Ids(wf);
    var p :| IsPath(Edges(wf), p) && |p| >= 2 && p[0] == target && p[|p| - 1] == step.id;
    NeedersAreOpen(wf, s, p, 0);
    NeedersAreOpen(wf, s, p, 1);
    assert (p[0], p[1]) in Edges(wf);
    EdgeIsStep(wf, p[0], p[1]);
    if target in IdsOf(ready) {
      var i :| 0 <= i < |ready| && ready[i].id == target;
      ReadyNeedsTerminal(wf, s, i, p[1]);
      assert false;
    }
  }

  /** The targets of a batch are pending and will stay so: whoever is collected, they are not. */
  ghost predicate TargetsPending(ready: seq<Step>, states: States) {
    forall step <- ready :: step.FallsBack() && step.Policy().value.target != step.id ==>
      var target := step.Policy().value.target;
      target in states && states[target].Pending? && target !in IdsOf(ready)
  }

  lemma BatchTargetsPending(wf: Workflow, s: RunState)
    requires UniqueIds(wf) && FallbacksNeedTheirSteps(wf) && Grounded(wf, s) && NoneRunning(s.states)
    requires Ids(wf) <= s.states.Keys
    ensures TargetsPending(FindReady(wf.steps, s.states), s.states)
  {
    hide FindReady, Needs, Grounded;
    var ready := FindReady(wf.steps, s.states);
    forall step | step in ready && step.FallsBack() && step.Policy().value.target != step.id
      ensures step.Policy().value.target in s.states && s.states[step.Policy().value.target].Pending?
      ensures step.Policy().value.target !in IdsOf(ready)
    {
      assert step in wf.steps;
      NeederWaits(wf, s, step, step.Policy().value.target);
    }
  }

  /** Collecting a result leaves pending targets pending, and does the same without fallbacks. */
  lemma ForwardCollect(wf: Workflow, ready: seq<Step>, j: nat, h: Handle, t: RunState)
    requires UniqueIds(wf) && j < |ready| && ready[j] in wf.steps && h.id == ready[j].id && h.outputVar == ready[j].outputVar
    requires t.phase == Looping && CurrentAttempts(t.states, h.id) == 0 && TargetsPending(ready, t.states)
    ensures CollectOne(wf, h, t) == CollectOne(WithoutFallbacks(wf), h, t)
    ensures TargetsPending(ready, CollectOne(wf, h, t).states)
  {
    hide CollectOne, ReadAll, Settled, WithoutFallbacks;
    var step := ready[j];
    assert step in ready;
    SameCollect(wf, step, h, t);
    CollectEffect(wf, step, h, t);
    assert step.id in IdsOf(ready);
  }

  lemma {:induction false} ForwardCollects(wf: Workflow, ready: seq<Step>, hs: seq<Handle>, j: nat, s: RunState)
    requires UniqueIds(wf) && Batch(wf, ready, hs) && j <= |ready|
    requires s.phase == Looping && MidBatch(ready, 0, s.states) && TargetsPending(ready, s.states)
    ensures CollectAll(wf, hs[..j], s) == CollectAll(WithoutFallbacks(wf), hs[..j], s)
    ensures TargetsPending(ready, CollectAll(wf, hs[..j], s).states)
  {
    hide CollectOne, WithoutFallbacks, TargetsPending;
    if j == 0 {
      assert hs[..0] == [];
    } else {
      ForwardCollects(wf, ready, hs, j - 1, s);
      assert hs[..j][..j - 1] == hs[..j - 1];
      var before := CollectAll(wf, hs[..j - 1], s);
      CollectKeepsLog(wf, hs[j - 1], before);
      CollectKeepsLog(WithoutFallbacks(wf), hs[j - 1], before);
      if before.phase == Looping {
        MidBatchHolds(wf, ready, hs, j - 1, s);
        MidBatchStep(wf, ready, hs, j - 1, before);
        ForwardCollect(wf, ready, j - 1, hs[j - 1], before);
      }
    }
  }

  /** The batch of a round, with its targets pending. */
  lemma ForwardBatch(wf: Workflow, oc: Oracle, s: RunState) returns (ready: seq<Step>, hs: seq<Handle>)
    requires UniqueIds(wf) && FallbacksNeedTheirSteps(wf) && Grounded(wf, s) && NoneRunning(s.states)
    requires Ids(wf) <= s.states.Keys && s.phase == Looping
    ensures ready == FindReady(wf.steps, s.states) && hs == Handles(oc, ready, s) && Batch(wf, ready, hs)
    ensures
      var spawned := SpawnAll(ready, s);
      spawned.phase == Looping && MidBatch(ready, 0, spawned.states) && TargetsPending(ready, spawned.states)
  {
    hide FindReady, Handles, SpawnAll, Grounded, MidBatch, Batch;
    ready, hs := RoundBatch(wf, oc, s);
    BatchTargetsPending(wf, s);
    SpawnEffect(ready, s);
  }

  lemma ForwardRound(wf: Workflow, oc: Oracle, s: RunState)
    requires UniqueIds(wf) && FallbacksNeedTheirSteps(wf) && Grounded(wf, s) && NoneRunning(s.states)
    requires Ids(wf) <= s.states.Keys && s.phase == Looping
    ensures Round(wf, oc, s) == Round(WithoutFallbacks(wf), oc, s)
  {
    hide FindReady, Handles, SpawnAll, CollectAll, Grounded, Plain, TargetsPending;
    var ready, hs := ForwardBatch(wf, oc, s);
    PlainReady(wf.steps, s.states);
    PlainSpawns(oc, ready, s);
    PlainAt(ready);
    ForwardCollects(wf, ready, hs, |ready|, SpawnAll(ready, s));
    assert hs[..|ready|] == hs;
  }

  lemma GroundedAnyway(wf: Workflow, s: RunState)
    requires Grounded(WithoutFallbacks(wf), s)
    ensures Grounded(wf, s)
  {
    PlainWorkflow(wf);
  }

  /** If every fallback is to a step that needs the failing one, directly or not, the run is the same as
      if the failing steps just failed: all that is proved of runs without fallbacks holds. */
  lemma {:induction false} ForwardFallbacksOnlyFail(wf: Workflow, oc: Oracle, n: nat)
    requires UniqueIds(wf) && FallbacksNeedTheirSteps(wf)
    ensures Head(wf, oc, n) == Head(WithoutFallbacks(wf), oc, n)
    ensures Grounded(wf, Head(wf, oc, n))
  {
    hide Head, Round, WithoutFallbacks, Grounded, Fresh;
    var plain := WithoutFallbacks(wf);
    PlainWorkflow(wf);
    LogIsLinearExtension(plain, oc, n);
    GroundedAnyway(wf, Head(plain, oc, n));
    if n == 0 {
      HeadStep(wf, oc, 0);
      HeadStep(plain, oc, 0);
      SameFresh(wf);
    } else {
      ForwardFallbacksOnlyFail(wf, oc, n - 1);
      HeadStep(wf, oc, n - 1);
      HeadStep(plain, oc, n - 1);
      HeadsAreSane(wf, oc, n - 1);
      if Head(wf, oc, n - 1).phase == Looping {
        ForwardRound(wf, oc, Head(wf, oc, n - 1));
      }
    }
  }

  lemma SameFresh(wf: Workflow)
    ensures Fresh(WithoutFallbacks(wf)) == Fresh(wf)
  {
    PlainWorkflow(wf);
    PlainAt(wf.steps);
    FreshIs(wf);
    FreshIs(WithoutFallbacks(wf));
    assert Fresh(WithoutFallbacks(wf)).states == Fresh(wf).states;
  }

  lemma ForwardNeverUnsettles(wf: Workflow, oc: Oracle, s: RunState, j: int)
    requires UniqueIds(wf) && FallbacksNeedTheirSteps(wf) && Grounded(wf, s) && Ids(wf) <= s.states.Keys
    requires s.phase == Looping ==> NoneRunning(s.states)
    ensures !UnsettlesIn(wf, oc, s, j)
  {
    hide FindReady, Handles, SpawnAll, CollectAll, Grounded, ReadAll, Needs;
    if s.phase == Looping && 0 <= j < |RoundHandles(wf, oc, s)| {
      var ready, hs := ForwardBatch(wf, oc, s);
      var t := MidRound(wf, oc, s, j);
      ForwardCollects(wf, ready, hs, j, SpawnAll(ready, s));
      if t.phase == Looping {
        MidBatchHolds(wf, ready, hs, j, SpawnAll(ready, s));
        assert ready[j] in ready;
        PolicyIsOwn(wf, ready[j]);
      }
    }
  }

  /** Whether the metrics agree with the step states can be told from the workflow alone if fallbacks
      are to steps that need the failing ones: then they always do. */
  lemma ForwardMetricsAgree(wf: Workflow, oc: Oracle, n: nat)
    requires UniqueIds(wf) && FallbacksNeedTheirSteps(wf)
    ensures !UnsettledBefore(wf, oc, n) && CountsAgree(wf, Head(wf, oc, n))
  {
    hide Head, UnsettlesIn, Grounded, FallbacksNeedTheirSteps, CountsAgree;
    forall k: nat, j | k < n ensures !UnsettlesIn(wf, oc, Head(wf, oc, k), j) {
      ForwardFallbacksOnlyFail(wf, oc, k);
      HeadsAreSane(wf, oc, k);
      ForwardNeverUnsettles(wf, oc, Head(wf, oc, k), j);
    }
    MetricsAgreeIff(wf, oc, n);
  }
}
