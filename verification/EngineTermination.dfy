/** Runs with fallbacks: they end when fallbacks do not lead in a circle, and may not when they do. */
module EngineTermination {
  import opened Wrappers
  import opened Graphs
  import opened Workflows
  import opened Engine
  import opened EngineBatch
  import opened EngineRounds
  import opened EngineSafety
  import opened EngineFallbacks

  /** Which step falls back to which other step. */
  function FallbackEdges(wf: Workflow): Graph {
    set s <- wf.steps | s.FallsBack() && s.Policy().value.target != s.id :: (s.id, s.Policy().value.target)
  }

  /** Fallbacks never lead in a circle of several steps, and nothing is retried. */
  ghost predicate FallsForward(wf: Workflow) {
    UniqueIds(wf) && NoCycle(FallbackEdges(wf)) && forall s <- wf.steps :: !s.Retries()
  }

  ghost function Depth(wf: Workflow, id: StepId): nat
    requires FallsForward(wf)
  {
    if id in RankOf(FallbackEdges(wf)) then RankOf(FallbackEdges(wf))[id] else 0
  }

  lemma FallbackDescends(wf: Workflow, step: Step)
    requires FallsForward(wf) && step in wf.steps && FallbackStep(wf, step).Some?
    ensures Depth(wf, FallbackStep(wf, step).value.id) < Depth(wf, step.id)
  {
    assert (step.id, FallbackStep(wf, step).value.id) in FallbackEdges(wf);
  }

  /** How many executions a step that is not settled can still bring about. */
  ghost function Weight(wf: Workflow, step: Step): nat
    requires FallsForward(wf) && step in wf.steps
    decreases Depth(wf, step.id)
  {
    if FallbackStep(wf, step).Some? then
      FallbackDescends(wf, step);
      1 + Weight(wf, FallbackStep(wf, step).value)
    else 1
  }

  ghost function OpenWeight(wf: Workflow, states: States, step: Step): nat
    requires FallsForward(wf)
  {
    if step !in wf.steps || (step.id in states && states[step.id].IsTerminal()) then 0 else Weight(wf, step)
  }

  ghost function Potential(wf: Workflow, states: States): nat
    requires FallsForward(wf)
  {
    Sum(wf.steps, step => OpenWeight(wf, states, step))
  }

  /** Every collected result takes weight away: a step is settled, and only its fallback is reopened. */
  lemma CollectShrinks(wf: Workflow, oc: Oracle, step: Step, h: Handle, t: RunState)
    requires FallsForward(wf) && Collectable(wf, oc, step, h, t)
    ensures Potential(wf, CollectOne(wf, h, t).states) < Potential(wf, t.states)
  {
    hide CollectOne, ReadAll, Weight;
    var t' := CollectOne(wf, h, t);
    CollectEffect(wf, step, h, t);
    var other := FallbackStep(wf, step);
    var reopened := if other.Some? && OpenWeight(wf, t'.states, other.value) > OpenWeight(wf, t.states, other.value) then other else None;
    WeightExceeds(wf, step);
    forall s | s in wf.steps && s.id != step.id && (reopened.Some? ==> s.id != reopened.value.id)
      ensures OpenWeight(wf, t.states, s) == OpenWeight(wf, t'.states, s)
    {
      OthersStand(wf, step, h, t, s);
    }
    SumTwoChanges(wf.steps, s => OpenWeight(wf, t'.states, s), s => OpenWeight(wf, t.states, s), reopened, step);
  }

  lemma WeightExceeds(wf: Workflow, step: Step)
    requires FallsForward(wf) && step in wf.steps
    ensures Weight(wf, step) > 0
    ensures FallbackStep(wf, step).Some? ==> Weight(wf, step) > Weight(wf, FallbackStep(wf, step).value)
  {
  }

  lemma OthersStand(wf: Workflow, step: Step, h: Handle, t: RunState, s: Step)
    requires FallsForward(wf) && step in wf.steps && h.id == step.id && h.outputVar == step.outputVar
    requires t.phase == Looping && CurrentAttempts(t.states, h.id) == 0 && s in wf.steps && s.id != step.id
    requires var other := FallbackStep(wf, step);
      other.Some? && OpenWeight(wf, CollectOne(wf, h, t).states, other.value) > OpenWeight(wf, t.states, other.value) ==> s.id != other.value.id
    ensures OpenWeight(wf, t.states, s) == OpenWeight(wf, CollectOne(wf, h, t).states, s)
  {
    hide CollectOne, ReadAll, Weight, Settled;
    CollectEffect(wf, step, h, t);
    if step.FallsBack() && step.Policy().value.target == s.id {
      SameStep(wf, s, FallbackStep(wf, step).value);
    }
  }

  lemma SpawnKeepsWeight(wf: Workflow, s: RunState)
    requires FallsForward(wf)
    ensures Potential(wf, SpawnAll(FindReady(wf.steps, s.states), s).states) == Potential(wf, s.states)
  {
    hide SpawnAll, FindReady, Weight;
    var ready := FindReady(wf.steps, s.states);
    var t := SpawnAll(ready, s);
    SpawnEffect(ready, s);
    forall other | other in ready ensures other.id in s.states ==> s.states[other.id].Pending? {
      assert IsReady(other, s.states);
    }
    SumSame(wf.steps, x => OpenWeight(wf, s.states, x), x => OpenWeight(wf, t.states, x));
  }

  lemma {:induction false} CollectsShrink(wf: Workflow, oc: Oracle, s: RunState, ready: seq<Step>, hs: seq<Handle>, j: nat)
    requires FallsForward(wf) && Batch(wf, ready, hs) && hs == Handles(oc, ready, s) && j <= |ready|
    requires s.phase == Looping && SpawnAll(ready, s).phase == Looping && MidBatch(ready, 0, SpawnAll(ready, s).states)
    ensures
      var t := CollectAll(wf, hs[..j], SpawnAll(ready, s));
      t.phase == Looping ==> Potential(wf, t.states) + j <= Potential(wf, SpawnAll(ready, s).states)
  {
    hide CollectOne, SpawnAll, Handles, Potential;
    if j == 0 {
      assert hs[..0] == [];
    } else {
      var spawned := SpawnAll(ready, s);
      var before := CollectAll(wf, hs[..j - 1], spawned);
      assert hs[..j][..j - 1] == hs[..j - 1];
      CollectsShrink(wf, oc, s, ready, hs, j - 1);
      CollectKeepsLog(wf, hs[j - 1], before);
      if before.phase == Looping {
        MidBatchHolds(wf, ready, hs, j - 1, spawned);
        HandleIsCollectable(wf, oc, s, ready, hs, j - 1, before);
        CollectShrinks(wf, oc, ready[j - 1], hs[j - 1], before);
      }
    }
  }

  lemma RoundShrinks(wf: Workflow, oc: Oracle, s: RunState)
    requires FallsForward(wf) && NoneRunning(s.states) && s.phase == Looping && FindReady(wf.steps, s.states) != []
    ensures Round(wf, oc, s).phase == Looping ==> Potential(wf, Round(wf, oc, s).states) < Potential(wf, s.states)
  {
    hide FindReady, SpawnAll, Handles, CollectAll, Potential, Round;
    var ready, hs := RoundBatch(wf, oc, s);
    SpawnKeepsWeight(wf, s);
    CollectsShrink(wf, oc, s, ready, hs, |ready|);
    assert hs[..|ready|] == hs;
  }

  lemma {:induction false} HeadsShrink(wf: Workflow, oc: Oracle, n: nat)
    requires FallsForward(wf)
    ensures Head(wf, oc, n).phase == Looping ==> Potential(wf, Head(wf, oc, n).states) + n <= Potential(wf, Fresh(wf).states)
  {
    hide Head, Round, Potential, FindReady;
    HeadStep(wf, oc, 0);
    if n > 0 {
      HeadsShrink(wf, oc, n - 1);
      HeadStep(wf, oc, n - 1);
      HeadsAreSane(wf, oc, n - 1);
      if Head(wf, oc, n - 1).phase == Looping && FindReady(wf.steps, Head(wf, oc, n - 1).states) != [] {
        RoundShrinks(wf, oc, Head(wf, oc, n - 1));
      }
    }
  }

  /** Whatever the agents answer: without retries, a run in which fallbacks never lead in a circle ends. */
  lemma FallbackRunsEnd(wf: Workflow, oc: Oracle)
    requires FallsForward(wf)
    ensures Head(wf, oc, Potential(wf, Fresh(wf).states) + 1).phase != Looping
  {
    hide Head, Potential;
    HeadsShrink(wf, oc, Potential(wf, Fresh(wf).states) + 1);
  }

  // Fallbacks that lead in a circle

  /** The step falls back to another step, needs nothing, and always fails. */
  ghost predicate PassesOn(wf: Workflow, oc: Oracle, step: Step) {
    step.dependsOn == [] && FallbackStep(wf, step).Some? && forall k: nat :: !Succeeds(oc, step.id, k)
  }

  ghost predicate AllPassOn(wf: Workflow, oc: Oracle) {
    UniqueIds(wf) && wf.steps != [] && forall s <- wf.steps :: PassesOn(wf, oc, s)
  }

  ghost predicate SomePending(wf: Workflow, states: States) {
    exists s <- wf.steps :: s.id in states && states[s.id].Pending?
  }

  lemma {:induction false} NobodyStops(
    wf: Workflow, oc: Oracle, s: RunState, ready: seq<Step>, hs: seq<Handle>, j: nat)
    requires AllPassOn(wf, oc) && Batch(wf, ready, hs) && hs == Handles(oc, ready, s) && j <= |ready|
    requires SpawnAll(ready, s).phase == Looping && MidBatch(ready, 0, SpawnAll(ready, s).states)
    ensures
      var t := CollectAll(wf, hs[..j], SpawnAll(ready, s));
      t.phase == Looping && (j > 0 ==> SomePending(wf, t.states))
  {
    hide CollectOne, SpawnAll, Handles, ReadAll, SomePending, PassesOn, MidBatch;
    if j == 0 {
      assert hs[..0] == [];
    } else {
      var spawned := SpawnAll(ready, s);
      var before := CollectAll(wf, hs[..j - 1], spawned);
      assert hs[..j][..j - 1] == hs[..j - 1];
      NobodyStops(wf, oc, s, ready, hs, j - 1);
      MidBatchHolds(wf, ready, hs, j - 1, spawned);
      assert Collecting(ready, j - 1, spawned.log, before);
      HandleIsCollectable(wf, oc, s, ready, hs, j - 1, before);
      PassedOn(wf, oc, ready[j - 1], hs[j - 1], before);
    }
  }

  lemma PassedOn(wf: Workflow, oc: Oracle, step: Step, h: Handle, t: RunState)
    requires UniqueIds(wf) && PassesOn(wf, oc, step) && Collectable(wf, oc, step, h, t)
    ensures CollectOne(wf, h, t).phase == Looping && SomePending(wf, CollectOne(wf, h, t).states)
  {
    hide CollectOne, ReadAll;
    CollectEffect(wf, step, h, t);
    assert !Succeeds(oc, step.id, Executions(t.log, h.id) - 1);
    var other := FallbackStep(wf, step).value;
    assert CollectOne(wf, h, t).states[other.id].Pending?;
  }

  lemma PendingIsReady(wf: Workflow, oc: Oracle, states: States)
    requires AllPassOn(wf, oc) && SomePending(wf, states)
    ensures FindReady(wf.steps, states) != []
  {
    hide PassesOn;
    var s :| s in wf.steps && s.id in states && states[s.id].Pending?;
    NeedsNothing(wf, oc, s);
    assert s in FindReady(wf.steps, states);
  }

  lemma NeedsNothing(wf: Workflow, oc: Oracle, step: Step)
    requires PassesOn(wf, oc, step)
    ensures step.dependsOn == []
  {
  }

  /** When every step falls back to another one and all of them fail, the run never ends. */
  lemma {:induction false} CircularFallbacksNeverEnd(wf: Workflow, oc: Oracle, n: nat)
    requires AllPassOn(wf, oc)
    ensures Head(wf, oc, n).phase == Looping && SomePending(wf, Head(wf, oc, n).states)
  {
    hide Head, Round, FindReady, SpawnAll, Handles, CollectAll, PassesOn;
    if n == 0 {
      HeadStep(wf, oc, 0);
      StartsPending(wf);
    } else {
      CircularFallbacksNeverEnd(wf, oc, n - 1);
      HeadStep(wf, oc, n - 1);
      HeadsAreSane(wf, oc, n - 1);
      var s := Head(wf, oc, n - 1);
      PendingIsReady(wf, oc, s.states);
      var ready, hs := RoundBatch(wf, oc, s);
      NobodyStops(wf, oc, s, ready, hs, |ready|);
      assert hs[..|ready|] == hs;
    }
  }

  lemma StartsPending(wf: Workflow)
    requires wf.steps != []
    ensures Fresh(wf).phase == Looping && SomePending(wf, Fresh(wf).states)
  {
    FreshIs(wf);
    assert wf.steps[0] in wf.steps && wf.steps[0].id in Ids(wf);
  }

  /** Two steps that fall back to each other. */
  const MUTUAL := Workflow([
    Step("a", "", [], Some(Fallback("b")), None),
    Step("b", "", [], Some(Fallback("a")), None)])

  /** A validated workflow without any retry whose run never ends. */
  lemma MutualFallbackNeverEnds(n: nat)
    ensures WellFormed(MUTUAL) && LiteralFallbacksPresent(MUTUAL) && forall s <- MUTUAL.steps :: !s.Retries()
    ensures Head(MUTUAL, NoAnswers, n).phase == Looping
  {
    hide Head;
    IndependentIsWellFormed(MUTUAL);
    var a, b := MUTUAL.steps[0], MUTUAL.steps[1];
    assert FallbackStep(MUTUAL, a).Some? && FallbackStep(MUTUAL, b).Some?;
    CircularFallbacksNeverEnd(MUTUAL, NoAnswers, n);
  }
}
