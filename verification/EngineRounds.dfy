/** The effect of one whole round of a workflow without Fallback, in closed form. */
module EngineRounds {
  import opened Wrappers
  import opened Workflows
  import opened Engine
  import opened EngineBatch

  /** What the next execution of a step will report. */
  function Reply(oc: Oracle, s: RunState, id: StepId): Reading {
    ReadAll(oc(id, Executions(s.log, id)))
  }

  ghost predicate AbortsNow(step: Step, r: Reading) {
    step.Aborts() && !r.Success()
  }

  /** Exactly the ready steps have been executed once more and settled accordingly. */
  ghost predicate Advanced(oc: Oracle, ready: seq<Step>, s: RunState, s': RunState) {
    && (forall id :: id in s'.states <==> id in s.states || id in IdsOf(ready))
    && (forall id <- s.states :: id !in IdsOf(ready) ==> s'.states[id] == s.states[id])
    && (forall step <- ready :: step.id in s'.states && s'.states[step.id] == Settled(step, Reply(oc, s, step.id)))
    && (forall id :: Executions(s'.log, id) == Executions(s.log, id) + (if id in IdsOf(ready) then 1 else 0))
  }

  /** The first j results of the batch have been applied to the states. */
  ghost predicate Applied(ready: seq<Step>, hs: seq<Handle>, j: nat, before: States, after: States)
    requires j <= |ready| == |hs|
  {
    && after.Keys == before.Keys
    && (forall id <- before :: id !in IdsOf(ready[..j]) ==> after[id] == before[id])
    && (forall k :: 0 <= k < j ==> ready[k].id in after && after[ready[k].id] == Settled(ready[k], ReadAll(hs[k].events)))
  }

  lemma CollectStates(wf: Workflow, step: Step, h: Handle, s: RunState)
    requires UniqueIds(wf) && step in wf.steps && h.id == step.id && h.outputVar == step.outputVar
    requires step.FallsBack() ==> ReadAll(h.events).Success()
    requires s.phase == Looping && CurrentAttempts(s.states, h.id) == 0
    ensures CollectOne(wf, h, s).states == s.states[step.id := Settled(step, ReadAll(h.events))]
    ensures CollectOne(wf, h, s).phase == if AbortsNow(step, ReadAll(h.events)) then Aborted else Looping
  {
    hide CollectOne, Settled;
    CollectEffect(wf, step, h, s);
  }

  lemma AppliedStep(ready: seq<Step>, hs: seq<Handle>, j: nat, before: States, states: States)
    requires DistinctIds(ready) && j < |ready| == |hs| && ready[j].id in before
    requires Applied(ready, hs, j, before, states)
    ensures Applied(ready, hs, j + 1, before, states[ready[j].id := Settled(ready[j], ReadAll(hs[j].events))])
  {
    hide Settled, ReadAll, IdsOf;
    IdsOfFront(ready, j);
    var after := states[ready[j].id := Settled(ready[j], ReadAll(hs[j].events))];
    forall k | 0 <= k < j + 1 ensures ready[k].id in after && after[ready[k].id] == Settled(ready[k], ReadAll(hs[k].events)) {
      if k < j {
        assert ready[k].id != ready[j].id;
      }
    }
  }

  lemma IdsOfFront(ready: seq<Step>, j: nat)
    requires j < |ready|
    ensures IdsOf(ready[..j + 1]) == IdsOf(ready[..j]) + {ready[j].id}
  {
    assert ready[..j + 1] == ready[..j] + [ready[j]];
  }

  ghost predicate AnyAborts(ready: seq<Step>, hs: seq<Handle>, j: nat)
    requires j <= |ready| == |hs|
  {
    exists k :: 0 <= k < j && AbortsNow(ready[k], ReadAll(hs[k].events))
  }

  lemma AnyAbortsStep(ready: seq<Step>, hs: seq<Handle>, j: nat)
    requires j <= |ready| == |hs|
    ensures j == 0 ==> !AnyAborts(ready, hs, j)
    ensures j > 0 ==>
      (AnyAborts(ready, hs, j) <==> AnyAborts(ready, hs, j - 1) || AbortsNow(ready[j - 1], ReadAll(hs[j - 1].events)))
  {
    hide AbortsNow, ReadAll;
  }

  lemma {:induction false} CollectPrefix(
    wf: Workflow, ready: seq<Step>, hs: seq<Handle>, j: nat, s: RunState)
    requires UniqueIds(wf) && Batch(wf, ready, hs) && j <= |ready|
    requires forall k :: 0 <= k < |ready| && ready[k].FallsBack() ==> ReadAll(hs[k].events).Success()
    requires s.phase == Looping && MidBatch(ready, 0, s.states)
    ensures
      var end := CollectAll(wf, hs[..j], s);
      && end.phase == (if AnyAborts(ready, hs, j) then Aborted else Looping)
      && (end.phase == Looping ==> Applied(ready, hs, j, s.states, end.states))
  {
    hide CollectOne, Settled, ReadAll, AbortsNow, AnyAborts;
    AnyAbortsStep(ready, hs, j);
    if j == 0 {
      assert hs[..0] == [];
    } else {
      CollectPrefix(wf, ready, hs, j - 1, s);
      assert hs[..j][..j - 1] == hs[..j - 1];
      var before := CollectAll(wf, hs[..j - 1], s);
      if before.phase == Looping {
        MidBatchHolds(wf, ready, hs, j - 1, s);
        MidBatchStep(wf, ready, hs, j - 1, before);
        CollectStates(wf, ready[j - 1], hs[j - 1], before);
        AppliedStep(ready, hs, j - 1, s.states, before.states);
      } else {
        CollectKeepsLog(wf, hs[j - 1], before);
      }
    }
  }

  /** A round with ready steps aborts exactly when an aborting one fails, and otherwise advances. */
  lemma RoundEffect(wf: Workflow, oc: Oracle, s: RunState)
    requires UniqueIds(wf) && NeverFallsBack(wf, oc) && NoneRunning(s.states) && s.phase == Looping
    requires FindReady(wf.steps, s.states) != []
    ensures
      var ready, s' := FindReady(wf.steps, s.states), Round(wf, oc, s);
      && s'.phase == (if exists step <- ready :: AbortsNow(step, Reply(oc, s, step.id)) then Aborted else Looping)
      && (s'.phase == Looping ==> Advanced(oc, ready, s, s'))
  {
    hide Handles, SpawnAll, FindReady, CollectAll, Round, AbortsNow, AnyAborts, Settled, MidBatch, Executions;
    var ready, hs := RoundBatch(wf, oc, s);
    var spawned, end := SpawnAll(ready, s), Round(wf, oc, s);
    ReadyReplies(oc, s, ready, hs);
    forall k | 0 <= k < |ready| && ready[k].FallsBack() ensures ReadAll(hs[k].events).Success() {
      assert Succeeds(oc, ready[k].id, Executions(s.log, ready[k].id));
    }
    CollectPrefix(wf, ready, hs, |ready|, spawned);
    assert hs[..|ready|] == hs;
    SomeReadyAborts(oc, s, ready, hs);
    if end.phase == Looping {
      CollectLogs(wf, ready, hs, s);
      SpawnEffect(ready, s);
      AppliedIsAdvanced(oc, ready, hs, s, spawned.states, end);
    }
  }

  lemma SomeReadyAborts(oc: Oracle, s: RunState, ready: seq<Step>, hs: seq<Handle>)
    requires |hs| == |ready| && forall k :: 0 <= k < |ready| ==> ReadAll(hs[k].events) == Reply(oc, s, ready[k].id)
    ensures AnyAborts(ready, hs, |ready|) <==> exists step <- ready :: AbortsNow(step, Reply(oc, s, step.id))
  {
    hide AbortsNow, ReadAll, Reply;
    if step :| step in ready && AbortsNow(step, Reply(oc, s, step.id)) {
      var k :| 0 <= k < |ready| && ready[k] == step;
      assert AbortsNow(ready[k], ReadAll(hs[k].events));
    }
  }

  lemma AppliedIsAdvanced(oc: Oracle, ready: seq<Step>, hs: seq<Handle>, s: RunState, spawned: States, end: RunState)
    requires |hs| == |ready| && Applied(ready, hs, |ready|, spawned, end.states)
    requires forall k :: 0 <= k < |ready| ==> ReadAll(hs[k].events) == Reply(oc, s, ready[k].id)
    requires forall id :: id in spawned <==> id in s.states || id in IdsOf(ready)
    requires forall id <- spawned :: spawned[id] == (if id in IdsOf(ready) then Running else s.states[id])
    requires forall id :: Executions(end.log, id) == Executions(s.log, id) + (if id in IdsOf(ready) then 1 else 0)
    ensures Advanced(oc, ready, s, end)
  {
    hide Settled, ReadAll, Reply, Executions;
    assert ready[..|ready|] == ready;
    forall step | step in ready
      ensures step.id in end.states && end.states[step.id] == Settled(step, Reply(oc, s, step.id))
    {
      var k :| 0 <= k < |ready| && ready[k] == step;
    }
  }

  lemma ReadyReplies(oc: Oracle, s: RunState, ready: seq<Step>, hs: seq<Handle>)
    requires DistinctIds(ready) && hs == Handles(oc, ready, s)
    ensures |hs| == |ready|
    ensures forall k :: 0 <= k < |ready| ==> ReadAll(hs[k].events) == Reply(oc, s, ready[k].id)
  {
    HandlesAre(oc, ready, s);
  }

  lemma CollectLogs(wf: Workflow, ready: seq<Step>, hs: seq<Handle>, s: RunState)
    requires DistinctIds(ready)
    ensures var log := CollectAll(wf, hs, SpawnAll(ready, s)).log;
      forall id :: Executions(log, id) == Executions(s.log, id) + (if id in IdsOf(ready) then 1 else 0)
  {
    CollectLog(wf, hs, SpawnAll(ready, s));
    forall id {
      SpawnCounts(ready, s, id);
    }
  }

  // Sums over the steps of a workflow

  function Sum(steps: seq<Step>, weight: Step -> nat): nat {
    if steps == [] then 0 else Sum(steps[..|steps| - 1], weight) + weight(steps[|steps| - 1])
  }

  lemma {:induction false} SumLess(steps: seq<Step>, small: Step -> nat, large: Step -> nat)
    requires forall s <- steps :: small(s) <= large(s)
    ensures Sum(steps, small) <= Sum(steps, large)
    ensures (exists s <- steps :: small(s) < large(s)) ==> Sum(steps, small) < Sum(steps, large)
  {
    if steps != [] {
      var n := |steps| - 1;
      assert steps == steps[..n] + [steps[n]];
      SumLess(steps[..n], small, large);
    }
  }

  /** Changing the weight of one step changes the sum by as much. */
  lemma {:induction false} SumChange(steps: seq<Step>, before: Step -> nat, after: Step -> nat, step: Step)
    requires DistinctIds(steps) && step in steps
    requires forall s <- steps :: s.id != step.id ==> after(s) == before(s)
    ensures Sum(steps, after) + before(step) == Sum(steps, before) + after(step)
  {
    var n := |steps| - 1;
    var front := steps[..n];
    assert steps == front + [steps[n]];
    if steps[n] == step {
      forall s | s in front ensures s.id != step.id {
        var i :| 0 <= i < n && front[i] == s;
        assert steps[i].id != steps[n].id;
      }
      SumSame(front, before, after);
    } else {
      SumChange(front, before, after, step);
      var i :| 0 <= i < n && front[i] == step;
      assert steps[i].id != steps[n].id;
    }
  }

  /** Two steps change, one to no weight and one from none. */
  lemma SumTwoChanges(
    steps: seq<Step>, before: Step -> nat, after: Step -> nat, dropped: Option<Step>, gained: Step)
    requires DistinctIds(steps) && gained in steps && before(gained) == 0
    requires dropped.Some? ==> dropped.value in steps && dropped.value.id != gained.id && after(dropped.value) == 0
    requires forall s <- steps :: s.id != gained.id && (dropped.Some? ==> s.id != dropped.value.id) ==> after(s) == before(s)
    ensures Sum(steps, after) + (if dropped.Some? then before(dropped.value) else 0) == Sum(steps, before) + after(gained)
  {
    if dropped.Some? {
      var mid := (s: Step) => if s.id == dropped.value.id then 0 else before(s);
      SumChange(steps, before, mid, dropped.value);
      forall s | s in steps && s.id == dropped.value.id ensures s == dropped.value {
        OnlyStep(steps, s, dropped.value);
      }
      SumChange(steps, mid, after, gained);
    } else {
      SumChange(steps, before, after, gained);
    }
  }

  lemma OnlyStep(steps: seq<Step>, s: Step, t: Step)
    requires DistinctIds(steps) && s in steps && t in steps && s.id == t.id
    ensures s == t
  {
    SameStep(Workflow(steps), s, t);
  }

  lemma {:induction false} SumSame(steps: seq<Step>, before: Step -> nat, after: Step -> nat)
    requires forall s <- steps :: after(s) == before(s)
    ensures Sum(steps, after) == Sum(steps, before)
  {
    if steps != [] {
      var n := |steps| - 1;
      assert steps == steps[..n] + [steps[n]];
      SumSame(steps[..n], before, after);
    }
  }
}
