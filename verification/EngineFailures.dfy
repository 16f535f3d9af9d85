/** What failure policies do to a whole run: aborts, and what the metrics count once steps can be
    executed again. */
module EngineFailures {
  import opened Wrappers
  import opened Workflows
  import opened Engine
  import opened EngineBatch
  import opened EngineSafety

  // Aborts

  ghost predicate AbortingStepFailed(wf: Workflow, states: States) {
    exists step <- wf.steps :: step.Aborts() && step.id in states && states[step.id].Failed?
  }

  ghost predicate AbortsAsFailed(wf: Workflow, s: RunState) {
    s.phase == Aborted <==> AbortingStepFailed(wf, s.states)
  }

  lemma AbortsAsFailedCollect(wf: Workflow, oc: Oracle, step: Step, h: Handle, s: RunState)
    requires UniqueIds(wf) && Collectable(wf, oc, step, h, s) && AbortsAsFailed(wf, s)
    ensures AbortsAsFailed(wf, CollectOne(wf, h, s))
  {
    hide CollectOne, ReadAll;
    CollectEffect(wf, step, h, s);
    var t := CollectOne(wf, h, s);
    if t.phase == Aborted {
      assert t.states[step.id].Failed?;
    }
    forall other | other in wf.steps && other.id == step.id ensures other == step {
      SameStep(wf, other, step);
    }
  }

  lemma AbortsAsFailedRound(wf: Workflow, oc: Oracle, s: RunState)
    requires UniqueIds(wf) && NoneRunning(s.states) && AbortsAsFailed(wf, s)
    ensures AbortsAsFailed(wf, Round(wf, oc, s))
  {
    var ready := FindReady(wf.steps, s.states);
    if s.phase == Looping && ready != [] {
      SpawnEffect(ready, s);
      forall step, h, t | AbortsAsFailed(wf, t) && Collectable(wf, oc, step, h, t) ensures AbortsAsFailed(wf, CollectOne(wf, h, t)) {
        AbortsAsFailedCollect(wf, oc, step, h, t);
      }
      RoundKeeps(wf, oc, s, t => AbortsAsFailed(wf, t));
    }
  }

  /** A run has aborted exactly when some step with the abort policy has failed; any other failure lets
      it go on, and no aborting failure is overlooked. */
  lemma {:induction false} AbortIff(wf: Workflow, oc: Oracle, n: nat)
    requires UniqueIds(wf)
    ensures Head(wf, oc, n).phase == Aborted <==> AbortingStepFailed(wf, Head(wf, oc, n).states)
  {
    hide Head, Round;
    if n == 0 {
      HeadStep(wf, oc, 0);
      FreshIs(wf);
    } else {
      HeadStep(wf, oc, n - 1);
      AbortIff(wf, oc, n - 1);
      HeadsAreSane(wf, oc, n - 1);
      if Head(wf, oc, n - 1).phase == Looping {
        AbortsAsFailedRound(wf, oc, Head(wf, oc, n - 1));
      }
    }
  }

  lemma {:induction false} AbortPoint(wf: Workflow, hs: seq<Handle>, s: RunState) returns (j: nat)
    requires s.phase == Looping && CollectAll(wf, hs, s).phase == Aborted
    ensures j < |hs| && CollectAll(wf, hs[..j], s).phase == Looping
    ensures CollectAll(wf, hs, s) == CollectOne(wf, hs[j], CollectAll(wf, hs[..j], s))
  {
    hide CollectOne;
    var n := |hs| - 1;
    var front := hs[..n];
    CollectPhases(wf, front, s);
    CollectKeepsLog(wf, hs[n], CollectAll(wf, front, s));
    if CollectAll(wf, front, s).phase == Looping {
      j := n;
    } else {
      j := AbortPoint(wf, front, s);
      assert front[..j] == hs[..j];
    }
  }

  /** An abort ends the collection at once: the steps of the batch that come after the failed one are
      left as they were when it was collected, running unless an earlier fallback has reset them. */
  lemma AbortLeavesTheRest(wf: Workflow, oc: Oracle, s: RunState) returns (j: nat)
    requires UniqueIds(wf) && NoneRunning(s.states) && s.phase == Looping && Round(wf, oc, s).phase == Aborted
    ensures
      var ready, end := FindReady(wf.steps, s.states), Round(wf, oc, s);
      && j < |ready| && ready[j].Aborts() && ready[j].id in end.states && end.states[ready[j].id].Failed?
      && forall k :: j < k < |ready| ==>
        ready[k].id in end.states && (end.states[ready[k].id].Running? || end.states[ready[k].id].Pending?)
  {
    hide FindReady, Handles, SpawnAll, CollectOne, ReadAll, Round;
    var ready, hs := RoundBatch(wf, oc, s);
    AbortedHasBatch(wf, oc, s);
    var spawned := SpawnAll(ready, s);
    j := AbortPoint(wf, hs, spawned);
    var before := CollectAll(wf, hs[..j], spawned);
    MidBatchHolds(wf, ready, hs, j, spawned);
    MidBatchStep(wf, ready, hs, j, before);
    CollectEffect(wf, ready[j], hs[j], before);
  }

  lemma AbortedHasBatch(wf: Workflow, oc: Oracle, s: RunState)
    requires s.phase == Looping && Round(wf, oc, s).phase == Aborted
    ensures FindReady(wf.steps, s.states) != []
  {
  }

  // The metrics count executions

  /** The log entries whose execution succeeded, and the tokens of their results. */
  function Won(oc: Oracle, log: seq<Spawn>): (nat, nat, nat) {
    if log == [] then (0, 0, 0)
    else
      var front, id := log[..|log| - 1], log[|log| - 1].id;
      AddReading(Won(oc, front), ReadAll(oc(id, Executions(front, id))))
  }

  function AddReading(sums: (nat, nat, nat), r: Reading): (nat, nat, nat) {
    if r.Success() then (sums.0 + 1, sums.1 + r.result.value.inputTokens, sums.2 + r.result.value.outputTokens) else sums
  }

  /** The log entries whose execution failed for good. */
  function Lost(wf: Workflow, oc: Oracle, log: seq<Spawn>): nat {
    if log == [] then 0
    else
      var front, id := log[..|log| - 1], log[|log| - 1].id;
      Lost(wf, oc, front) + Loses(wf, id, ReadAll(oc(id, Executions(front, id))))
  }

  function Loses(wf: Workflow, id: StepId, r: Reading): nat {
    var step := StepWithId(wf.steps, id);
    if r.Success() || (step.Some? && step.value.Retries()) then 0 else 1
  }

  function WonIn(hs: seq<Handle>, sums: (nat, nat, nat)): (nat, nat, nat) {
    if hs == [] then sums else AddReading(WonIn(hs[..|hs| - 1], sums), ReadAll(hs[|hs| - 1].events))
  }

  function LostIn(wf: Workflow, hs: seq<Handle>): nat {
    if hs == [] then 0 else LostIn(wf, hs[..|hs| - 1]) + Loses(wf, hs[|hs| - 1].id, ReadAll(hs[|hs| - 1].events))
  }

  /** What a batch adds to the log is what its handles carry. */
  lemma {:induction false} BatchOutcomes(wf: Workflow, oc: Oracle, ready: seq<Step>, s: RunState)
    ensures Won(oc, SpawnAll(ready, s).log) == WonIn(Handles(oc, ready, s), Won(oc, s.log))
    ensures Lost(wf, oc, SpawnAll(ready, s).log) == Lost(wf, oc, s.log) + LostIn(wf, Handles(oc, ready, s))
  {
    hide ReadAll, Loses, AddReading, Executions;
    if ready != [] {
      var front, step := ready[..|ready| - 1], ready[|ready| - 1];
      BatchOutcomes(wf, oc, front, s);
      var log, hs := SpawnAll(front, s).log, Handles(oc, ready, s);
      assert SpawnAll(ready, s).log[..|log|] == log;
      assert hs[..|hs| - 1] == Handles(oc, front, s);
    }
  }

  function Sums(m: Metrics): (nat, nat, nat) {
    (m.completedAgents, m.inputTokens, m.outputTokens)
  }

  /** As long as nothing aborts, collecting counts every handle once. */
  lemma {:induction false} CollectCounts(wf: Workflow, ready: seq<Step>, hs: seq<Handle>, j: nat, s: RunState)
    requires UniqueIds(wf) && Batch(wf, ready, hs) && j <= |ready|
    requires s.phase == Looping && MidBatch(ready, 0, s.states)
    requires CollectAll(wf, hs[..j], s).phase == Looping
    ensures Sums(CollectAll(wf, hs[..j], s).metrics) == WonIn(hs[..j], Sums(s.metrics))
    ensures CollectAll(wf, hs[..j], s).metrics.failedAgents == s.metrics.failedAgents + LostIn(wf, hs[..j])
  {
    hide CollectOne, ReadAll, StepWithId, MidBatch, UniqueIds, Settled;
    if j == 0 {
      assert hs[..0] == [];
    } else {
      var before := CollectAll(wf, hs[..j - 1], s);
      assert hs[..j][..j - 1] == hs[..j - 1];
      CollectKeepsLog(wf, hs[j - 1], before);
      CollectCounts(wf, ready, hs, j - 1, s);
      MidBatchHolds(wf, ready, hs, j - 1, s);
      MidBatchStep(wf, ready, hs, j - 1, before);
      CollectEffect(wf, ready[j - 1], hs[j - 1], before);
      SameStep(wf, ready[j - 1], StepWithId(wf.steps, hs[j - 1].id).value);
    }
  }

  ghost predicate CountsExecutions(wf: Workflow, oc: Oracle, s: RunState) {
    Sums(s.metrics) == Won(oc, s.log) && s.metrics.failedAgents == Lost(wf, oc, s.log)
  }

  lemma CountsRound(wf: Workflow, oc: Oracle, s: RunState)
    requires UniqueIds(wf) && NoneRunning(s.states) && s.phase == Looping && CountsExecutions(wf, oc, s)
    ensures Round(wf, oc, s).phase != Aborted ==> CountsExecutions(wf, oc, Round(wf, oc, s))
  {
    hide FindReady, Handles, SpawnAll, CollectAll, Won, Lost;
    var ready, hs := RoundBatch(wf, oc, s);
    if ready != [] {
      var spawned := SpawnAll(ready, s);
      BatchOutcomes(wf, oc, ready, s);
      SpawnEffect(ready, s);
      CollectLog(wf, hs, spawned);
      CollectPhases(wf, hs, spawned);
      assert hs[..|ready|] == hs;
      if Round(wf, oc, s).phase != Aborted {
        CollectCounts(wf, ready, hs, |ready|, spawned);
      }
    }
  }

  /** In every run that has not aborted, whatever the policies, the metrics count executions: completed
      agents are the successful ones, with all their tokens, and failed agents the failed ones that are
      not retried. A step executed again after a fallback is therefore counted again. */
  lemma {:induction false} MetricsCountExecutions(wf: Workflow, oc: Oracle, n: nat)
    requires UniqueIds(wf) && Head(wf, oc, n).phase != Aborted
    ensures
      var s := Head(wf, oc, n);
      && (s.metrics.completedAgents, s.metrics.inputTokens, s.metrics.outputTokens) == Won(oc, s.log)
      && s.metrics.failedAgents == Lost(wf, oc, s.log)
  {
    hide Head, Round, Won, Lost;
    if n == 0 {
      HeadStep(wf, oc, 0);
      FreshIs(wf);
      NothingWon(wf, oc);
    } else {
      HeadStep(wf, oc, n - 1);
      MetricsCountExecutions(wf, oc, n - 1);
      HeadsAreSane(wf, oc, n - 1);
      if Head(wf, oc, n - 1).phase == Looping {
        CountsRound(wf, oc, Head(wf, oc, n - 1));
      }
    }
  }

  lemma NothingWon(wf: Workflow, oc: Oracle)
    ensures Won(oc, []) == (0, 0, 0) && Lost(wf, oc, []) == 0
  {
  }

  // A step counted twice

  const HELPER := Step("b", "", [], None, None)
  const FRAGILE := Step("a", "", [], Some(Fallback("b")), None)
  const PAIR := Workflow([HELPER, FRAGILE])

  /** The fragile step fails, the helper succeeds. */
  function PairAnswers(id: StepId, k: nat): seq<AgentEvent> {
    [ResultLine("", id == "a", None)]
  }

  lemma PairReads(id: StepId, k: nat)
    ensures ReadAll(PairAnswers(id, k)) == Reading("", Some(AgentResult(if id == "a" then 1 else 0, 0, 0)))
  {
    assert PairAnswers(id, k)[..0] == [];
  }

  predicate PairState(s: RunState, a: StepState, b: StepState) {
    s.phase == Looping && s.states == map["a" := a, "b" := b]
  }

  lemma PairScan(states: States)
    ensures FindReady(PAIR.steps, states) ==
      (if IsReady(HELPER, states) then [HELPER] else []) + if IsReady(FRAGILE, states) then [FRAGILE] else []
  {
    hide IsReady;
    assert PAIR.steps[..1] == [HELPER] && [HELPER][..0] == [];
    assert FindReady([HELPER], states) == if IsReady(HELPER, states) then [HELPER] else [];
  }

  lemma PairReady(s: RunState)
    ensures PairState(s, Pending, Pending) ==> FindReady(PAIR.steps, s.states) == [HELPER, FRAGILE]
    ensures PairState(s, Failed("", 1), Pending) ==> FindReady(PAIR.steps, s.states) == [HELPER]
    ensures PairState(s, Failed("", 1), Completed("")) ==> FindReady(PAIR.steps, s.states) == []
  {
    PairScan(s.states);
    hide FindReady;
  }

  lemma PairCollects(step: Step, s: RunState, k: nat)
    requires step in PAIR.steps && s.phase == Looping && CurrentAttempts(s.states, step.id) == 0
    ensures
      var t := CollectOne(PAIR, Handle(step.id, None, PairAnswers(step.id, k)), s);
      && t.phase == Looping
      && t.states == (if step == FRAGILE then s.states["b" := Pending]["a" := Failed("", 1)] else s.states["b" := Completed("")])
      && t.metrics.completedAgents == s.metrics.completedAgents + (if step == FRAGILE then 0 else 1)
      && t.metrics.failedAgents == s.metrics.failedAgents + (if step == FRAGILE then 1 else 0)
  {
    hide ReadAll, CollectOne;
    PairReads(step.id, k);
    CollectEffect(PAIR, step, Handle(step.id, None, PairAnswers(step.id, k)), s);
  }

  /** A round of the pair: all ready steps are running, and their handles carry their events. */
  lemma PairBatch(s: RunState, ready: seq<Step>) returns (hs: seq<Handle>, spawned: RunState)
    requires s.phase == Looping && NoneRunning(s.states) && s.states.Keys == {"a", "b"}
    requires ready == FindReady(PAIR.steps, s.states) && ready in {[HELPER], [HELPER, FRAGILE]}
    ensures |hs| == |ready| && forall i :: 0 <= i < |ready| ==>
      hs[i] == Handle(ready[i].id, None, PairAnswers(ready[i].id, Executions(s.log, ready[i].id)))
    ensures Round(PAIR, PairAnswers, s) == CollectAll(PAIR, hs, spawned)
    ensures spawned.metrics == s.metrics && spawned.phase == Looping
    ensures spawned.states == map["a" := if ready == [HELPER] then s.states["a"] else Running, "b" := Running]
  {
    hide CollectAll, PairAnswers, FindReady, SpawnAll, Handles, Executions, Round, MidBatch, Batch;
    var r;
    r, hs := RoundBatch(PAIR, PairAnswers, s);
    spawned := SpawnAll(ready, s);
    SpawnEffect(ready, s);
    HandlesAre(PairAnswers, ready, s);
    PairSpawned(ready, s.states, spawned.states);
  }

  lemma PairSpawned(ready: seq<Step>, before: States, after: States)
    requires ready in {[HELPER], [HELPER, FRAGILE]} && before.Keys == {"a", "b"}
    requires forall id :: id in after <==> id in before || id in IdsOf(ready)
    requires forall id <- after :: after[id] == (if id in IdsOf(ready) then Running else before[id])
    ensures after == map["a" := if ready == [HELPER] then before["a"] else Running, "b" := Running]
  {
    assert IdsOf(ready) == if ready == [HELPER] then {"b"} else {"a", "b"} by {
      assert HELPER in ready && (ready != [HELPER] ==> FRAGILE in ready);
    }
    assert after.Keys == {"a", "b"};
  }

  lemma FirstPairRound(s: RunState) returns (t: RunState)
    requires PairState(s, Pending, Pending)
    ensures t == Round(PAIR, PairAnswers, s) && PairState(t, Failed("", 1), Pending)
    ensures t.metrics.completedAgents == s.metrics.completedAgents + 1 && t.metrics.failedAgents == s.metrics.failedAgents + 1
  {
    hide CollectOne, PairAnswers, FindReady, Executions, Round;
    PairReady(s);
    var hs, spawned := PairBatch(s, [HELPER, FRAGILE]);
    var one := CollectOne(PAIR, hs[0], spawned);
    PairCollects(HELPER, spawned, Executions(s.log, "b"));
    PairCollects(FRAGILE, one, Executions(s.log, "a"));
    t := CollectOne(PAIR, hs[1], one);
    assert hs[..1] == [hs[0]] && hs[..1][..0] == [];
    assert CollectAll(PAIR, hs[..1], spawned) == one;
  }

  lemma SecondPairRound(s: RunState) returns (t: RunState)
    requires PairState(s, Failed("", 1), Pending)
    ensures t == Round(PAIR, PairAnswers, s) && PairState(t, Failed("", 1), Completed(""))
    ensures t.metrics.completedAgents == s.metrics.completedAgents + 1 && t.metrics.failedAgents == s.metrics.failedAgents
  {
    hide CollectOne, PairAnswers, FindReady, Executions, Round;
    PairReady(s);
    var hs, spawned := PairBatch(s, [HELPER]);
    PairCollects(HELPER, spawned, Executions(s.log, "b"));
    t := CollectOne(PAIR, hs[0], spawned);
    assert hs[..0] == [];
  }

  lemma IdleFinishes(wf: Workflow, oc: Oracle, s: RunState)
    requires s.phase == Looping && FindReady(wf.steps, s.states) == [] && AllTerminal(s.states)
    ensures Round(wf, oc, s) == s.(phase := Finished)
  {
  }

  lemma PairIsFresh()
    ensures PairState(Fresh(PAIR), Pending, Pending) && Fresh(PAIR).metrics == Metrics(2, 0, 0, 0, 0)
  {
    assert HELPER in PAIR.steps && FRAGILE in PAIR.steps;
  }

  /** With a fallback a validated workflow's run can finish with a step that is completed once but
      counted twice. */
  lemma FallbackCountsTwice()
    ensures WellFormed(PAIR) && LiteralFallbacksPresent(PAIR)
    ensures
      var end := Head(PAIR, PairAnswers, 3);
      && end.phase == Finished && end.states == map["a" := Failed("", 1), "b" := Completed("")]
      && end.metrics.completedAgents == 2 && end.metrics.failedAgents == 1 && |PAIR.steps| == 2
  {
    hide Head, Round, PairAnswers, FindReady;
    IndependentIsWellFormed(PAIR);
    var s0 := Fresh(PAIR);
    PairIsFresh();
    var s1 := FirstPairRound(s0);
    var s2 := SecondPairRound(s1);
    HeadStep(PAIR, PairAnswers, 0);
    HeadStep(PAIR, PairAnswers, 1);
    HeadStep(PAIR, PairAnswers, 2);
    PairReady(s2);
    IdleFinishes(PAIR, PairAnswers, s2);
  }
}
