/** One round of the engine seen from outside: what spawning and collecting a batch does to the state. */
module EngineBatch {
  import opened Wrappers
  import opened Workflows
  import opened Engine

  ghost predicate NoFallback(wf: Workflow) {
    forall s <- wf.steps :: !s.FallsBack()
  }

  /** Whether the k-th execution of a step (counting from 0) succeeds. */
  predicate Succeeds(oc: Oracle, id: StepId, k: nat) {
    ReadAll(oc(id, k)).Success()
  }

  /** No fallback is ever triggered: no step has that policy, or such steps never fail. */
  ghost predicate NeverFallsBack(wf: Workflow, oc: Oracle) {
    forall s, k: nat :: s in wf.steps && s.FallsBack() ==> Succeeds(oc, s.id, k)
  }

  /** No abort is ever triggered. */
  ghost predicate NeverAborts(wf: Workflow, oc: Oracle) {
    forall s, k: nat :: s in wf.steps && s.Aborts() ==> Succeeds(oc, s.id, k)
  }

  ghost predicate FallbackTargetsExist(wf: Workflow) {
    forall s <- wf.steps :: s.FallsBack() ==> s.Policy().value.target in Ids(wf)
  }

  ghost predicate NoneRunning(states: States) {
    forall id <- states :: !states[id].Running?
  }

  /** The state a step is left in by one execution on its first attempt. */
  function Settled(step: Step, r: Reading): StepState {
    if r.Success() then Completed(r.output)
    else if step.Retries() then Pending
    else if step.Policy() == Some(Skip) then Skipped
    else Failed(r.output, 1)
  }

  lemma {:induction false} NoneReady(steps: seq<Step>, states: States)
    requires forall step <- steps :: !IsReady(step, states)
    ensures FindReady(steps, states) == []
  {
    hide IsReady;
    if steps != [] {
      var n := |steps| - 1;
      assert steps == steps[..n] + [steps[n]];
      NoneReady(steps[..n], states);
    }
  }

  /** The positions of the ready steps, in order. */
  ghost predicate ReadyAt(steps: seq<Step>, states: States, ready: seq<Step>, at: seq<int>) {
    && |at| == |ready|
    && (forall i :: 0 <= i < |at| ==> 0 <= at[i] < |steps| && steps[at[i]] == ready[i])
    && (forall i, j :: 0 <= i < j < |at| ==> at[i] < at[j])
    && (forall k: nat :: k < |steps| && IsReady(steps[k], states) ==> k in at)
  }

  lemma ReadyAtNext(steps: seq<Step>, states: States, ready: seq<Step>, at: seq<int>, step: Step)
    requires ReadyAt(steps, states, ready, at)
    ensures IsReady(step, states) ==> ReadyAt(steps + [step], states, ready + [step], at + [|steps|])
    ensures !IsReady(step, states) ==> ReadyAt(steps + [step], states, ready, at)
  {
    hide IsReady;
    var all := steps + [step];
    forall k: nat | k < |all| && IsReady(all[k], states) ensures k in at + [|steps|] && (!IsReady(step, states) ==> k in at) {
      assert k < |steps| ==> all[k] == steps[k];
    }
  }

  lemma NothingReadyAt(states: States, none: seq<int>)
    requires none == []
    ensures ReadyAt([], states, [], none)
  {
  }

  /** Ready steps are found in the order of the steps, each as often as it stands there. */
  lemma {:induction false} ReadyInStepOrder(steps: seq<Step>, states: States)
    ensures exists at :: ReadyAt(steps, states, FindReady(steps, states), at)
  {
    hide IsReady, ReadyAt;
    if steps == [] {
      var none: seq<int> := [];
      NothingReadyAt(states, none);
      assert ReadyAt(steps, states, FindReady(steps, states), none);
    } else {
      var n := |steps| - 1;
      ReadyInStepOrder(steps[..n], states);
      var at :| ReadyAt(steps[..n], states, FindReady(steps[..n], states), at);
      var front := FindReady(steps[..n], states);
      ReadyAtNext(steps[..n], states, front, at, steps[n]);
      assert steps == steps[..n] + [steps[n]];
      if IsReady(steps[n], states) {
        assert FindReady(steps, states) == front + [steps[n]];
        assert ReadyAt(steps, states, FindReady(steps, states), at + [|steps[..n]|]);
      } else {
        assert FindReady(steps, states) == front;
        assert ReadyAt(steps, states, FindReady(steps, states), at);
      }
    }
  }

  /** Agents that end without a result. */
  function NoAnswers(id: StepId, k: nat): seq<AgentEvent> {
    []
  }

  // Spawning

  lemma {:induction false} ReadyIdsDistinct(steps: seq<Step>, states: States)
    requires DistinctIds(steps)
    ensures DistinctIds(FindReady(steps, states))
  {
    if steps != [] {
      var n := |steps| - 1;
      ReadyIdsDistinct(steps[..n], states);
      var front := FindReady(steps[..n], states);
      forall i | 0 <= i < |front| ensures front[i].id != steps[n].id {
        assert front[i] in front;
        var k :| 0 <= k < n && steps[..n][k] == front[i];
        assert steps[k].id != steps[n].id;
      }
    }
  }

  lemma {:induction false} SpawnEffect(ready: seq<Step>, s: RunState)
    ensures SpawnAll(ready, s).(states := s.states, log := s.log) == s
    ensures forall id :: id in SpawnAll(ready, s).states <==> id in s.states || id in IdsOf(ready)
    ensures forall id <- SpawnAll(ready, s).states ::
      SpawnAll(ready, s).states[id] == (if id in IdsOf(ready) then Running else s.states[id])
  {
    if ready != [] {
      var n := |ready| - 1;
      SpawnEffect(ready[..n], s);
      assert ready == ready[..n] + [ready[n]];
      assert IdsOf(ready) == IdsOf(ready[..n]) + {ready[n].id};
    }
  }

  lemma {:induction false} SpawnLog(ready: seq<Step>, s: RunState)
    ensures |SpawnAll(ready, s).log| == |s.log| + |ready| && s.log <= SpawnAll(ready, s).log
  {
    if ready != [] {
      SpawnLog(ready[..|ready| - 1], s);
    }
  }

  /** The i-th spawn of a batch is logged with the states the earlier spawns left. */
  lemma {:induction false} SpawnLogAt(ready: seq<Step>, s: RunState, i: nat)
    requires i < |ready|
    ensures |SpawnAll(ready, s).log| == |s.log| + |ready|
    ensures SpawnAll(ready, s).log[|s.log| + i] == Spawn(ready[i].id, SpawnAll(ready[..i], s).states, s.vars + s.shared)
  {
    var n := |ready| - 1;
    SpawnLog(ready, s);
    SpawnLog(ready[..n], s);
    if i < n {
      SpawnLogAt(ready[..n], s, i);
      assert ready[..n][..i] == ready[..i];
    } else {
      SpawnEffect(ready[..n], s);
    }
  }

  lemma {:induction false} SpawnCounts(ready: seq<Step>, s: RunState, id: StepId)
    requires DistinctIds(ready)
    ensures Executions(SpawnAll(ready, s).log, id) == Executions(s.log, id) + if id in IdsOf(ready) then 1 else 0
  {
    if ready != [] {
      var n := |ready| - 1;
      SpawnCounts(ready[..n], s, id);
      assert ready == ready[..n] + [ready[n]];
      assert IdsOf(ready) == IdsOf(ready[..n]) + {ready[n].id};
      assert ready[n].id !in IdsOf(ready[..n]);
      var log := SpawnAll(ready[..n], s).log;
      var e := SpawnAll(ready, s).log[|log|];
      assert SpawnAll(ready, s).log == log + [e];
      assert (log + [e])[..|log|] == log;
    }
  }

  /** The handle of each ready step carries the events of its next execution. */
  lemma {:induction false} HandlesAre(oc: Oracle, ready: seq<Step>, s: RunState)
    requires DistinctIds(ready)
    ensures |Handles(oc, ready, s)| == |ready|
    ensures forall i :: 0 <= i < |ready| ==>
      Handles(oc, ready, s)[i] == Handle(ready[i].id, ready[i].outputVar, oc(ready[i].id, Executions(s.log, ready[i].id)))
  {
    if ready != [] {
      var n := |ready| - 1;
      HandlesAre(oc, ready[..n], s);
      SpawnCounts(ready[..n], s, ready[n].id);
    }
  }

  lemma {:induction false} HandlesBelongToReady(oc: Oracle, ready: seq<Step>, s: RunState)
    ensures forall h <- Handles(oc, ready, s) :: h.id in IdsOf(ready)
  {
    if ready != [] {
      var n := |ready| - 1;
      HandlesBelongToReady(oc, ready[..n], s);
      assert ready == ready[..n] + [ready[n]];
    }
  }

  // Collecting

  lemma PolicyIsOwn(wf: Workflow, step: Step)
    requires UniqueIds(wf) && step in wf.steps
    ensures PolicyOf(wf, step.id) == step.Policy()
  {
    SameStep(wf, step, StepWithId(wf.steps, step.id).value);
  }

  /** The effect of collecting one result of a step that has not failed before. */
  lemma CollectEffect(wf: Workflow, step: Step, h: Handle, s: RunState)
    requires UniqueIds(wf) && step in wf.steps && h.id == step.id && h.outputVar == step.outputVar
    requires s.phase == Looping && CurrentAttempts(s.states, h.id) == 0
    ensures
      var r, s' := ReadAll(h.events), CollectOne(wf, h, s);
      && s'.log == s.log
      && s'.phase == (if !r.Success() && step.Aborts() then Aborted else Looping)
      && s'.states ==
        (if !r.Success() && step.FallsBack() then s.states[step.Policy().value.target := Pending] else s.states)
          [h.id := Settled(step, r)]
      && s'.vars == (if r.Success() && h.outputVar.Some? then s.vars[h.outputVar.value := r.output] else s.vars)
      && s'.shared == (if r.Success() && h.outputVar.Some? then s.shared[h.outputVar.value := r.output] else s.shared)
      && s'.metrics == Metrics(
        s.metrics.totalAgents,
        s.metrics.completedAgents + (if r.Success() then 1 else 0),
        s.metrics.failedAgents + (if r.Success() || step.Retries() then 0 else 1),
        s.metrics.inputTokens + (if r.Success() then r.result.value.inputTokens else 0),
        s.metrics.outputTokens + (if r.Success() then r.result.value.outputTokens else 0))
  {
    hide ReadAll, StepWithId;
    PolicyIsOwn(wf, step);
  }

  /** The handles of a batch belong to distinct steps of the workflow. */
  ghost predicate Batch(wf: Workflow, ready: seq<Step>, hs: seq<Handle>) {
    && DistinctIds(ready) && |hs| == |ready|
    && forall i :: 0 <= i < |ready| ==> ready[i] in wf.steps && hs[i].id == ready[i].id && hs[i].outputVar == ready[i].outputVar
  }

  /** While the first j handles have been collected, the uncollected steps are Running or have been
      reset to Pending by a fallback, and nobody else is Running. */
  ghost predicate MidBatch(ready: seq<Step>, j: nat, states: States)
    requires j <= |ready|
  {
    && (forall k :: j <= k < |ready| ==>
      ready[k].id in states && (states[ready[k].id].Running? || states[ready[k].id].Pending?))
    && (forall id <- states :: states[id].Running? ==> id in IdsOf(ready[j..]))
  }

  lemma MidBatchStep(wf: Workflow, ready: seq<Step>, hs: seq<Handle>, j: nat, s: RunState)
    requires UniqueIds(wf) && Batch(wf, ready, hs) && j < |ready|
    requires s.phase == Looping && MidBatch(ready, j, s.states)
    ensures CurrentAttempts(s.states, hs[j].id) == 0
    ensures MidBatch(ready, j + 1, CollectOne(wf, hs[j], s).states)
  {
    assert hs[j].id == ready[j].id;
    CollectEffect(wf, ready[j], hs[j], s);
    IdsOfSplit(ready, j);
    var states := CollectOne(wf, hs[j], s).states;
    forall k | j + 1 <= k < |ready|
      ensures ready[k].id in states && (states[ready[k].id].Running? || states[ready[k].id].Pending?)
    {
      assert ready[k].id != ready[j].id;
    }
  }

  lemma IdsOfSplit(ready: seq<Step>, j: nat)
    requires j < |ready|
    ensures IdsOf(ready[j..]) == {ready[j].id} + IdsOf(ready[j + 1..])
  {
    assert ready[j..] == [ready[j]] + ready[j + 1..];
  }

  lemma CollectKeepsLog(wf: Workflow, h: Handle, s: RunState)
    ensures CollectOne(wf, h, s).log == s.log
    ensures s.phase != Looping ==> CollectOne(wf, h, s) == s
  {
  }

  lemma {:induction false} CollectLog(wf: Workflow, hs: seq<Handle>, s: RunState)
    ensures CollectAll(wf, hs, s).log == s.log
  {
    hide CollectOne;
    if hs != [] {
      CollectLog(wf, hs[..|hs| - 1], s);
      CollectKeepsLog(wf, hs[|hs| - 1], CollectAll(wf, hs[..|hs| - 1], s));
    }
  }

  /** Collecting a prefix keeps the batch consistent as long as nothing aborts. */
  lemma {:induction false} MidBatchHolds(wf: Workflow, ready: seq<Step>, hs: seq<Handle>, j: nat, s: RunState)
    requires UniqueIds(wf) && Batch(wf, ready, hs) && j <= |ready|
    requires s.phase == Looping && MidBatch(ready, 0, s.states)
    ensures CollectAll(wf, hs[..j], s).phase == Looping ==> MidBatch(ready, j, CollectAll(wf, hs[..j], s).states)
    ensures CollectAll(wf, hs[..j], s).log == s.log
  {
    hide CollectOne;
    if j > 0 {
      MidBatchHolds(wf, ready, hs, j - 1, s);
      assert hs[..j][..j - 1] == hs[..j - 1];
      CollectKeepsLog(wf, hs[j - 1], CollectAll(wf, hs[..j - 1], s));
      var before := CollectAll(wf, hs[..j - 1], s);
      if before.phase == Looping {
        MidBatchStep(wf, ready, hs, j - 1, before);
      }
    } else {
      assert hs[..0] == [];
    }
  }

  /** The batch of a round, before anything is collected. */
  lemma RoundBatch(wf: Workflow, oc: Oracle, s: RunState) returns (ready: seq<Step>, hs: seq<Handle>)
    requires UniqueIds(wf) && NoneRunning(s.states)
    ensures ready == FindReady(wf.steps, s.states) && hs == Handles(oc, ready, s) && Batch(wf, ready, hs)
    ensures MidBatch(ready, 0, SpawnAll(ready, s).states)
    ensures s.phase == Looping && ready != [] ==> Round(wf, oc, s) == CollectAll(wf, hs, SpawnAll(ready, s))
    ensures SpawnAll(ready, s).phase == s.phase
  {
    ready := FindReady(wf.steps, s.states);
    hs := Handles(oc, ready, s);
    ReadyIdsDistinct(wf.steps, s.states);
    HandlesAre(oc, ready, s);
    SpawnEffect(ready, s);
    assert ready[0..] == ready;
    forall k | 0 <= k < |ready| ensures ready[k].id in IdsOf(ready) {
      assert ready[k] in ready;
    }
  }

  // Invariants of a round

  /** Handle k is next, nothing has aborted, and the batch is consistent. */
  ghost predicate Collecting(ready: seq<Step>, k: nat, log: seq<Spawn>, t: RunState) {
    k < |ready| && t.phase == Looping && t.log == log && MidBatch(ready, k, t.states)
  }

  lemma {:induction false} CollectKeeps(
    wf: Workflow, ready: seq<Step>, hs: seq<Handle>, j: nat, s: RunState, inv: RunState -> bool)
    requires UniqueIds(wf) && Batch(wf, ready, hs) && j <= |ready|
    requires s.phase == Looping && MidBatch(ready, 0, s.states) && inv(s)
    requires forall k: nat, t :: Collecting(ready, k, s.log, t) && inv(t) ==> inv(CollectOne(wf, hs[k], t))
    ensures inv(CollectAll(wf, hs[..j], s))
  {
    hide CollectOne;
    if j > 0 {
      CollectKeeps(wf, ready, hs, j - 1, s, inv);
      assert hs[..j][..j - 1] == hs[..j - 1];
      var before := CollectAll(wf, hs[..j - 1], s);
      CollectKeepsLog(wf, hs[j - 1], before);
      if before.phase == Looping {
        MidBatchHolds(wf, ready, hs, j - 1, s);
        assert Collecting(ready, j - 1, s.log, before);
      }
    } else {
      assert hs[..0] == [];
    }
  }

  /** What holds after spawning a batch and survives every collected result holds after the round. */
  lemma RoundKeeps(wf: Workflow, oc: Oracle, s: RunState, inv: RunState -> bool)
    requires UniqueIds(wf) && NoneRunning(s.states) && s.phase == Looping
    requires FindReady(wf.steps, s.states) != []
    requires inv(SpawnAll(FindReady(wf.steps, s.states), s))
    requires forall step, h, t :: inv(t) && Collectable(wf, oc, step, h, t) ==> inv(CollectOne(wf, h, t))
    ensures inv(Round(wf, oc, s))
  {
    var ready, hs := RoundBatch(wf, oc, s);
    var spawned := SpawnAll(ready, s);
    forall k: nat, t | Collecting(ready, k, spawned.log, t) && inv(t) ensures inv(CollectOne(wf, hs[k], t)) {
      HandleIsCollectable(wf, oc, s, ready, hs, k, t);
    }
    CollectKeeps(wf, ready, hs, |ready|, spawned, inv);
    assert hs[..|ready|] == hs;
  }

  lemma HandleIsCollectable(
    wf: Workflow, oc: Oracle, s: RunState, ready: seq<Step>, hs: seq<Handle>, k: nat, t: RunState)
    requires Batch(wf, ready, hs) && hs == Handles(oc, ready, s)
    requires Collecting(ready, k, SpawnAll(ready, s).log, t)
    ensures Collectable(wf, oc, ready[k], hs[k], t)
  {
    hide Handles, SpawnAll, Executions;
    HandlesAre(oc, ready, s);
    SpawnCounts(ready, s, ready[k].id);
    assert ready[k] in ready;
  }

  /** The handle carries the latest execution of a step of the workflow that is not settled yet. */
  ghost predicate Collectable(wf: Workflow, oc: Oracle, step: Step, h: Handle, t: RunState) {
    && step in wf.steps && h.id == step.id && h.outputVar == step.outputVar
    && Executions(t.log, h.id) > 0 && h.events == oc(h.id, Executions(t.log, h.id) - 1)
    && t.phase == Looping && h.id in t.states && (t.states[h.id].Running? || t.states[h.id].Pending?)
  }

  /** A round that does not abort leaves no step Running. */
  lemma RoundLeavesNoneRunning(wf: Workflow, oc: Oracle, s: RunState)
    requires UniqueIds(wf) && NoneRunning(s.states)
    ensures Round(wf, oc, s).phase != Aborted || s.phase == Aborted ==> NoneRunning(Round(wf, oc, s).states)
  {
    var ready, hs := RoundBatch(wf, oc, s);
    if s.phase == Looping && ready != [] {
      CollectedNoneRunning(wf, ready, hs, SpawnAll(ready, s));
    }
  }

  lemma CollectedNoneRunning(wf: Workflow, ready: seq<Step>, hs: seq<Handle>, s: RunState)
    requires UniqueIds(wf) && Batch(wf, ready, hs) && s.phase == Looping && MidBatch(ready, 0, s.states)
    ensures CollectAll(wf, hs, s).phase != Aborted ==> NoneRunning(CollectAll(wf, hs, s).states)
  {
    MidBatchHolds(wf, ready, hs, |ready|, s);
    assert hs[..|ready|] == hs;
    CollectPhases(wf, hs, s);
    assert ready[|ready|..] == [];
  }

  lemma {:induction false} CollectPhases(wf: Workflow, hs: seq<Handle>, s: RunState)
    requires s.phase == Looping
    ensures CollectAll(wf, hs, s).phase in {Looping, Aborted}
  {
    if hs != [] {
      CollectPhases(wf, hs[..|hs| - 1], s);
    }
  }

  /** An ended run stays as it is. */
  lemma RoundEnded(wf: Workflow, oc: Oracle, s: RunState)
    ensures s.phase != Looping ==> Round(wf, oc, s) == s
  {
  }
}
