/** What a run leaves behind: what the step states record, and what is returned in the end. */
module EngineReports {
  import opened Wrappers
  import opened Workflows
  import opened Engine
  import opened EngineBatch
  import opened EngineSafety
  import opened EngineFallbacks
  import opened EngineFailures

  // Step states record executions

  /** A settled state says what the step's last execution was and what its policy made of it. */
  ghost predicate Recorded(oc: Oracle, t: RunState, step: Step) {
    step.id in t.states && t.states[step.id].IsTerminal() ==>
      var k := Executions(t.log, step.id);
      k > 0 &&
      var r := ReadAll(oc(step.id, k - 1));
      match t.states[step.id]
      case Completed(output) => r.Success() && output == r.output
      case Failed(error, attempts) =>
        !r.Success() && error == r.output && attempts == 1 && !step.Retries() && step.Policy() != Some(Skip)
      case _ => !r.Success() && step.Policy() == Some(Skip)
  }

  ghost predicate AllRecorded(wf: Workflow, oc: Oracle, t: RunState) {
    forall step <- wf.steps :: Recorded(oc, t, step)
  }

  lemma RecordedCollect(wf: Workflow, oc: Oracle, step: Step, h: Handle, t: RunState)
    requires UniqueIds(wf) && Collectable(wf, oc, step, h, t) && AllRecorded(wf, oc, t)
    ensures AllRecorded(wf, oc, CollectOne(wf, h, t))
  {
    hide CollectOne, ReadAll, Executions;
    CollectEffect(wf, step, h, t);
    forall other | other in wf.steps && other.id == step.id ensures other == step {
      SameStep(wf, other, step);
    }
  }

  lemma RecordedSpawn(wf: Workflow, oc: Oracle, s: RunState)
    requires UniqueIds(wf) && AllRecorded(wf, oc, s)
    ensures AllRecorded(wf, oc, SpawnAll(FindReady(wf.steps, s.states), s))
  {
    hide FindReady, SpawnAll, ReadAll, Executions;
    var ready := FindReady(wf.steps, s.states);
    ReadyIdsDistinct(wf.steps, s.states);
    SpawnEffect(ready, s);
    forall step | step in wf.steps ensures Recorded(oc, SpawnAll(ready, s), step) {
      SpawnCounts(ready, s, step.id);
      assert Recorded(oc, s, step);
    }
  }

  lemma RecordedRound(wf: Workflow, oc: Oracle, s: RunState)
    requires UniqueIds(wf) && NoneRunning(s.states) && AllRecorded(wf, oc, s) && s.phase == Looping
    ensures AllRecorded(wf, oc, Round(wf, oc, s))
  {
    if FindReady(wf.steps, s.states) != [] {
      hide FindReady, SpawnAll, CollectOne, AllRecorded, Collectable;
      RecordedSpawn(wf, oc, s);
      forall step, h, t | AllRecorded(wf, oc, t) && Collectable(wf, oc, step, h, t) ensures AllRecorded(wf, oc, CollectOne(wf, h, t)) {
        RecordedCollect(wf, oc, step, h, t);
      }
      RoundKeeps(wf, oc, s, t => AllRecorded(wf, oc, t));
    }
  }

  /** At every head of every fresh run, whatever the policies: a completed step records the output of its
      last execution, which succeeded; a failed one the output of its last execution, which failed, and
      its policy is neither to skip nor to retry; a step is skipped only by that policy. */
  lemma {:induction false} StatesRecordLastExecutions(wf: Workflow, oc: Oracle, n: nat)
    requires UniqueIds(wf)
    ensures forall step <- wf.steps :: Recorded(oc, Head(wf, oc, n), step)
  {
    hide Head, Round, Recorded;
    if n == 0 {
      HeadStep(wf, oc, 0);
      NothingRecorded(wf, oc);
    } else {
      HeadStep(wf, oc, n - 1);
      StatesRecordLastExecutions(wf, oc, n - 1);
      HeadsAreSane(wf, oc, n - 1);
      if Head(wf, oc, n - 1).phase == Looping {
        RecordedRound(wf, oc, Head(wf, oc, n - 1));
      }
    }
  }

  lemma NothingRecorded(wf: Workflow, oc: Oracle)
    ensures AllRecorded(wf, oc, Fresh(wf))
  {
    FreshIs(wf);
  }

  // What is returned

  /** Whatever run has ended, the result and the checkpoint in it hold its variables, metrics and step
      states, and agree on the workflow's state. */
  lemma ResultHoldsRun(s: RunState)
    ensures Report(s).Returned? <==> s.phase == Finished || s.phase == Aborted
    ensures Report(s) == Deadlock <==> s.phase == Deadlocked
    ensures Report(s).Returned? ==>
      var result := Report(s).result;
      && result.stepOutputs == s.vars && result.metrics == s.metrics
      && result.checkpoint.workflowState == result.state && result.checkpoint.stepStates == s.states
      && result.checkpoint.variables == result.checkpoint.agentOutputs == s.vars && result.checkpoint.metrics == s.metrics
    ensures Report(s).Returned? ==>
      && (Report(s).result.state == WorkflowAborted <==> s.phase == Aborted)
      && (s.phase != Aborted ==>
        && (Report(s).result.state == WorkflowFailed <==> exists id <- s.states :: s.states[id].Failed?)
        && (Report(s).result.state == WorkflowCompleted <==> forall id <- s.states :: !s.states[id].Failed?))
  {
  }

  /** A fresh run that returns is reported as aborted if and only if a step with the abort policy has
      failed, otherwise as failed if and only if some step has failed, and as completed if and only if
      every step is completed or skipped. */
  lemma ReturnedStateIff(wf: Workflow, oc: Oracle, n: nat)
    requires UniqueIds(wf) && Report(Head(wf, oc, n)).Returned?
    ensures
      var s := Head(wf, oc, n);
      var state := Report(s).result.state;
      && (state == WorkflowAborted <==> AbortingStepFailed(wf, s.states))
      && (state == WorkflowFailed <==>
        !AbortingStepFailed(wf, s.states) && exists step <- wf.steps :: step.id in s.states && s.states[step.id].Failed?)
      && (state == WorkflowCompleted <==>
        forall step <- wf.steps :: step.id in s.states && (s.states[step.id].Completed? || s.states[step.id].Skipped?))
  {
    hide Head, Report, FiredBefore, AbortingStepFailed;
    var s := Head(wf, oc, n);
    ResultHoldsRun(s);
    AbortIff(wf, oc, n);
    HeadsAreSane(wf, oc, n);
    HeadsHaveStrays(wf, oc, n);
    if s.phase == Finished {
      FinishedRunsFellBackToSteps(wf, oc, n);
      StepsShowStates(wf, s.states);
    } else {
      AbortedShows(wf, s.states);
    }
  }

  lemma StepsShowStates(wf: Workflow, states: States)
    requires states.Keys == Ids(wf) && AllTerminal(states)
    ensures (exists id <- states :: states[id].Failed?) <==> exists step <- wf.steps :: step.id in states && states[step.id].Failed?
    ensures (forall id <- states :: !states[id].Failed?) <==>
      forall step <- wf.steps :: step.id in states && (states[step.id].Completed? || states[step.id].Skipped?)
  {
    forall id | id in states ensures exists step <- wf.steps :: step.id == id {
    }
    forall step | step in wf.steps ensures step.id in states {
    }
  }

  lemma AbortedShows(wf: Workflow, states: States)
    requires AbortingStepFailed(wf, states)
    ensures exists step <- wf.steps :: step.id in states && states[step.id].Failed?
  {
  }
}
