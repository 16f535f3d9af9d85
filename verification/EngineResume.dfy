/** Resuming from a checkpoint: an interrupted run continues as if it had not been interrupted. */
module EngineResume {
  import opened Wrappers
  import opened Workflows
  import opened Substitution
  import opened Engine
  import opened EngineBatch
  import opened EngineSafety

  /** The checkpoint holds the state's step states, variables and metrics, whatever else it says. */
  predicate Holds(cp: Checkpoint, s: RunState) {
    cp.stepStates == s.states && cp.variables == s.vars && cp.metrics == s.metrics
  }

  /** `execute` entered with a checkpoint and an empty shared context; the agents remember their history. */
  function Resumed(wf: Workflow, cp: Checkpoint, log: seq<Spawn>): RunState {
    Start(wf, Some(cp), map[], log)
  }

  /** Equal but for the shared context, which holds nothing that the variables do not hold. */
  ghost predicate Alike(a: RunState, b: RunState) {
    && a == b.(shared := a.shared)
    && Agrees(a) && Agrees(b)
  }

  ghost predicate Agrees(s: RunState) {
    forall v <- s.shared :: v in s.vars && s.vars[v] == s.shared[v]
  }

  lemma AlikeSpawn(step: Step, a: RunState, b: RunState)
    requires Alike(a, b)
    ensures Alike(SpawnOne(step, a), SpawnOne(step, b))
  {
    assert a.vars + a.shared == a.vars == b.vars == b.vars + b.shared;
  }

  lemma {:induction false} AlikeSpawnAll(ready: seq<Step>, a: RunState, b: RunState)
    requires Alike(a, b)
    ensures Alike(SpawnAll(ready, a), SpawnAll(ready, b))
  {
    hide SpawnOne, Alike;
    if ready != [] {
      AlikeSpawnAll(ready[..|ready| - 1], a, b);
      AlikeSpawn(ready[|ready| - 1], SpawnAll(ready[..|ready| - 1], a), SpawnAll(ready[..|ready| - 1], b));
    }
  }

  lemma {:induction false} AlikeHandles(oc: Oracle, ready: seq<Step>, a: RunState, b: RunState)
    requires Alike(a, b)
    ensures Handles(oc, ready, a) == Handles(oc, ready, b)
  {
    hide SpawnAll;
    if ready != [] {
      AlikeHandles(oc, ready[..|ready| - 1], a, b);
      AlikeSpawnAll(ready[..|ready| - 1], a, b);
    }
  }

  lemma AlikeSuccess(h: Handle, r: Reading, a: RunState, b: RunState)
    requires Alike(a, b) && r.Success()
    ensures Alike(CollectSuccess(h, r, a), CollectSuccess(h, r, b))
  {
  }

  lemma AlikeFailure(wf: Workflow, h: Handle, r: Reading, a: RunState, b: RunState)
    requires Alike(a, b)
    ensures Alike(CollectFailure(wf, h, r, a), CollectFailure(wf, h, r, b))
  {
    hide CollectFailure;
    FailureIgnoresShared(wf, h, r, b, a.shared);
    FailureIgnoresShared(wf, h, r, b, b.shared);
  }

  lemma FailureIgnoresShared(wf: Workflow, h: Handle, r: Reading, s: RunState, shared: Vars)
    ensures CollectFailure(wf, h, r, s.(shared := shared)) == CollectFailure(wf, h, r, s).(shared := shared)
    ensures CollectFailure(wf, h, r, s).vars == s.vars
  {
    hide PolicyOf, CurrentAttempts;
  }

  lemma AlikeCollect(wf: Workflow, h: Handle, a: RunState, b: RunState)
    requires Alike(a, b)
    ensures Alike(CollectOne(wf, h, a), CollectOne(wf, h, b))
  {
    hide ReadAll, PolicyOf, CollectSuccess, CollectFailure;
    var r := ReadAll(h.events);
    if a.phase == Looping {
      if r.Success() {
        AlikeSuccess(h, r, a, b);
      } else {
        AlikeFailure(wf, h, r, a, b);
      }
    }
  }

  lemma {:induction false} AlikeCollectAll(wf: Workflow, hs: seq<Handle>, a: RunState, b: RunState)
    requires Alike(a, b)
    ensures Alike(CollectAll(wf, hs, a), CollectAll(wf, hs, b))
  {
    hide CollectOne, Alike;
    if hs != [] {
      AlikeCollectAll(wf, hs[..|hs| - 1], a, b);
      AlikeCollect(wf, hs[|hs| - 1], CollectAll(wf, hs[..|hs| - 1], a), CollectAll(wf, hs[..|hs| - 1], b));
    }
  }

  lemma AlikeRound(wf: Workflow, oc: Oracle, a: RunState, b: RunState)
    requires Alike(a, b)
    ensures Alike(Round(wf, oc, a), Round(wf, oc, b))
  {
    hide SpawnAll, CollectAll, Handles, FindReady;
    var ready := FindReady(wf.steps, a.states);
    AlikeSpawnAll(ready, a, b);
    AlikeHandles(oc, ready, a, b);
    AlikeCollectAll(wf, Handles(oc, ready, a), SpawnAll(ready, a), SpawnAll(ready, b));
  }

  lemma {:induction false} AlikeRun(wf: Workflow, oc: Oracle, a: RunState, b: RunState, n: nat)
    requires Alike(a, b)
    ensures Alike(RunFor(wf, oc, a, n), RunFor(wf, oc, b, n))
  {
    hide Round, Alike;
    if n > 0 {
      AlikeRun(wf, oc, a, b, n - 1);
      AlikeRound(wf, oc, RunFor(wf, oc, a, n - 1), RunFor(wf, oc, b, n - 1));
    }
  }

  lemma {:induction false} RunForAdds(wf: Workflow, oc: Oracle, s: RunState, m: nat, n: nat)
    ensures RunFor(wf, oc, RunFor(wf, oc, s, m), n) == RunFor(wf, oc, s, m + n)
  {
    hide Round;
    if n > 0 {
      RunForAdds(wf, oc, s, m, n - 1);
    }
  }

  /** Restarting from a checkpoint with the step states, variables and metrics of any loop head of a
      fresh run, and with an empty shared context, reproduces the rest of the run: the same spawns in the
      same order with the same variables in their prompts, and the same states, variables, metrics and
      ending. */
  lemma ResumeEquivalence(wf: Workflow, oc: Oracle, m: nat, n: nat, cp: Checkpoint)
    requires UniqueIds(wf) && Head(wf, oc, m).phase == Looping && Holds(cp, Head(wf, oc, m))
    ensures
      var resumed, whole := RunFor(wf, oc, Resumed(wf, cp, Head(wf, oc, m).log), n), Head(wf, oc, m + n);
      && resumed.states == whole.states && resumed.vars == whole.vars && resumed.metrics == whole.metrics
      && resumed.log == whole.log && resumed.phase == whole.phase && Report(resumed) == Report(whole)
  {
    hide Round, RunFor, FinalState;
    var s := Head(wf, oc, m);
    HeadsAreSane(wf, oc, m);
    AlikeRun(wf, oc, Resumed(wf, cp, s.log), s, n);
    RunForAdds(wf, oc, Fresh(wf), m, n);
  }

  /** Resuming a run that finished runs no agent and returns what it had returned. */
  lemma ResumeFinishedRunsNothing(wf: Workflow, oc: Oracle, s: RunState, n: nat, cp: Checkpoint)
    requires AllTerminal(s.states) && Ids(wf) <= s.states.Keys && n > 0 && Holds(cp, s)
    ensures RunFor(wf, oc, Resumed(wf, cp, s.log), n) == Resumed(wf, cp, s.log).(phase := Finished)
    ensures s.phase == Finished ==> Report(RunFor(wf, oc, Resumed(wf, cp, s.log), n)) == Report(s)
  {
    hide FinalState, FindReady;
    var r := Resumed(wf, cp, s.log);
    forall step | step in wf.steps ensures step.id in r.states {
      assert step.id in Ids(wf);
    }
    NoneReady(wf.steps, r.states);
    assert Round(wf, oc, r) == r.(phase := Finished);
    assert RunFor(wf, oc, r, 1) == Round(wf, oc, RunFor(wf, oc, r, 0));
    EndedStays(wf, oc, r, 1, n);
  }

  /** A checkpoint that lacks steps is resumed as if they were pending. */
  lemma {:induction false} UnknownStepsArePending(steps: seq<Step>, states: States, unknown: set<StepId>)
    requires unknown !! states.Keys
    ensures FindReady(steps, states + map id <- unknown :: Pending) == FindReady(steps, states)
  {
    hide IsReady;
    if steps != [] {
      var n := |steps| - 1;
      UnknownStepsArePending(steps[..n], states, unknown);
      UnknownStepIsPending(steps[n], states, unknown);
    }
  }

  lemma UnknownStepIsPending(step: Step, states: States, unknown: set<StepId>)
    requires unknown !! states.Keys
    ensures IsReady(step, states + map id <- unknown :: Pending) <==> IsReady(step, states)
  {
    var filled: States := states + map id <- unknown :: Pending;
    forall d | d in step.dependsOn ensures Meets(d, filled) <==> Meets(d, states) {
      assert d.stepId in unknown ==> filled[d.stepId].Pending?;
    }
  }

  // Checkpoints with running steps

  ghost predicate StuckRunning(s: RunState, id: StepId) {
    id in s.states && s.states[id].Running? && s.phase in {Looping, Aborted}
  }

  lemma CollectLeavesOthers(wf: Workflow, h: Handle, s: RunState, id: StepId)
    requires NoFallback(wf) && h.id != id && StuckRunning(s, id)
    ensures StuckRunning(CollectOne(wf, h, s), id)
  {
    hide ReadAll;
  }

  lemma {:induction false} CollectAllLeavesOthers(wf: Workflow, hs: seq<Handle>, s: RunState, id: StepId)
    requires NoFallback(wf) && StuckRunning(s, id) && forall h <- hs :: h.id != id
    ensures StuckRunning(CollectAll(wf, hs, s), id)
  {
    hide CollectOne;
    if hs != [] {
      CollectAllLeavesOthers(wf, hs[..|hs| - 1], s, id);
      CollectLeavesOthers(wf, hs[|hs| - 1], CollectAll(wf, hs[..|hs| - 1], s), id);
    }
  }

  lemma StuckRound(wf: Workflow, oc: Oracle, s: RunState, id: StepId)
    requires NoFallback(wf) && StuckRunning(s, id)
    ensures StuckRunning(Round(wf, oc, s), id)
  {
    hide FindReady, SpawnAll, CollectAll, Handles;
    var ready := FindReady(wf.steps, s.states);
    SpawnEffect(ready, s);
    forall step | step in ready ensures step.id != id {
      assert IsReady(step, s.states);
    }
    HandlesBelongToReady(oc, ready, s);
    CollectAllLeavesOthers(wf, Handles(oc, ready, s), SpawnAll(ready, s), id);
  }

  /** A checkpoint taken at an abort may hold steps that were still running. Without Fallback, resuming
      it never finishes and never reports a deadlock: it waits for ever or aborts again. */
  lemma {:induction false} ResumeWithRunningNeverFinishes(
    wf: Workflow, oc: Oracle, cp: Checkpoint, log: seq<Spawn>, id: StepId, n: nat)
    requires NoFallback(wf) && id in cp.stepStates && cp.stepStates[id].Running?
    ensures StuckRunning(RunFor(wf, oc, Resumed(wf, cp, log), n), id)
  {
    hide Round, FinalState;
    if n > 0 {
      ResumeWithRunningNeverFinishes(wf, oc, cp, log, id, n - 1);
      StuckRound(wf, oc, RunFor(wf, oc, Resumed(wf, cp, log), n - 1), id);
    }
  }
}
