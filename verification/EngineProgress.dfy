/** When runs end: the work left shrinks in every round, and the retry policy as written never gives up. */
module EngineProgress {
  import opened Workflows
  import opened Engine
  import opened EngineBatch
  import opened EngineRounds
  import opened EngineSafety

  ghost predicate EventuallySucceeds(oc: Oracle, id: StepId) {
    exists k: nat :: Succeeds(oc, id, k)
  }

  /** No step that is ready now retries for ever. */
  ghost predicate ReadyRetriesSucceed(wf: Workflow, oc: Oracle, s: RunState) {
    forall step <- FindReady(wf.steps, s.states) :: step.Retries() ==> EventuallySucceeds(oc, step.id)
  }

  ghost function FirstFrom(oc: Oracle, id: StepId, from: nat, some: nat): (k: nat)
    requires from <= some && Succeeds(oc, id, some)
    ensures from <= k && Succeeds(oc, id, k) && forall j: nat :: from <= j < k ==> !Succeeds(oc, id, j)
    decreases some - from
  {
    if Succeeds(oc, id, from) then from else FirstFrom(oc, id, from + 1, some)
  }

  ghost function FirstSuccess(oc: Oracle, id: StepId): (k: nat)
    requires EventuallySucceeds(oc, id)
    ensures Succeeds(oc, id, k) && forall j: nat :: j < k ==> !Succeeds(oc, id, j)
  {
    var some: nat :| Succeeds(oc, id, some);
    FirstFrom(oc, id, 0, some)
  }

  /** The work left in a step: being settled, and for a retried step its remaining failures. */
  ghost function StepWork(oc: Oracle, s: RunState, step: Step): nat {
    if step.id !in s.states || !s.states[step.id].Pending? then 0
    else if step.Retries() && EventuallySucceeds(oc, step.id) && Executions(s.log, step.id) <= FirstSuccess(oc, step.id)
    then 1 + FirstSuccess(oc, step.id) - Executions(s.log, step.id)
    else 1
  }

  ghost function Work(wf: Workflow, oc: Oracle, s: RunState): nat {
    Sum(wf.steps, step => StepWork(oc, s, step))
  }

  /** A pending step that retries has not been executed past its first success, and another one not at
      all; a settled one was executed just once more. */
  ghost predicate StepOnTrack(oc: Oracle, s: RunState, step: Step) {
    && step.id in s.states
    && (s.states[step.id].Pending? ==>
      if step.Retries()
      then EventuallySucceeds(oc, step.id) ==> Executions(s.log, step.id) <= FirstSuccess(oc, step.id)
      else Executions(s.log, step.id) == 0)
    && (s.states[step.id].IsTerminal() ==>
      if step.Retries()
      then EventuallySucceeds(oc, step.id) && Executions(s.log, step.id) == FirstSuccess(oc, step.id) + 1
      else Executions(s.log, step.id) == 1)
  }

  ghost predicate OnTrack(wf: Workflow, oc: Oracle, s: RunState) {
    forall step <- wf.steps :: StepOnTrack(oc, s, step)
  }

  lemma SettledPending(step: Step, r: Reading)
    ensures Settled(step, r).Pending? <==> step.Retries() && !r.Success()
    ensures !Settled(step, r).Running?
  {
    hide ReadAll;
  }

  lemma NotReadyUnchanged(wf: Workflow, s: RunState, step: Step)
    requires UniqueIds(wf) && step in wf.steps
    ensures step.id in IdsOf(FindReady(wf.steps, s.states)) <==> step in FindReady(wf.steps, s.states)
  {
    hide FindReady;
    if step.id in IdsOf(FindReady(wf.steps, s.states)) {
      var other :| other in FindReady(wf.steps, s.states) && other.id == step.id;
      SameStep(wf, other, step);
    }
  }

  /** A round keeps every step on track and takes work away from exactly the steps it executes. */
  lemma StepAdvances(wf: Workflow, oc: Oracle, s: RunState, s': RunState, step: Step)
    requires UniqueIds(wf) && step in wf.steps && StepOnTrack(oc, s, step)
    requires Advanced(oc, FindReady(wf.steps, s.states), s, s')
    ensures StepOnTrack(oc, s', step)
    ensures step !in FindReady(wf.steps, s.states) ==> StepWork(oc, s', step) <= StepWork(oc, s, step)
    ensures step in FindReady(wf.steps, s.states) && (step.Retries() ==> EventuallySucceeds(oc, step.id)) ==>
      StepWork(oc, s', step) < StepWork(oc, s, step)
  {
    hide FindReady, ReadAll, Settled;
    var ready := FindReady(wf.steps, s.states);
    NotReadyUnchanged(wf, s, step);
    if step in ready {
      assert IsReady(step, s.states);
      SettledPending(step, Reply(oc, s, step.id));
      assert Reply(oc, s, step.id).Success() <==> Succeeds(oc, step.id, Executions(s.log, step.id));
    }
  }

  lemma OnTrackRound(wf: Workflow, oc: Oracle, s: RunState)
    requires UniqueIds(wf) && NeverFallsBack(wf, oc) && NoneRunning(s.states) && OnTrack(wf, oc, s)
    requires s.phase == Looping && FindReady(wf.steps, s.states) != [] && Round(wf, oc, s).phase == Looping
    ensures OnTrack(wf, oc, Round(wf, oc, s))
    ensures ReadyRetriesSucceed(wf, oc, s) ==> Work(wf, oc, Round(wf, oc, s)) < Work(wf, oc, s)
  {
    hide FindReady, Round, StepWork, StepOnTrack, Advanced;
    var s' := Round(wf, oc, s);
    RoundEffect(wf, oc, s);
    forall step | step in wf.steps
      ensures StepOnTrack(oc, s', step)
      ensures ReadyRetriesSucceed(wf, oc, s) ==> StepWork(oc, s', step) <= StepWork(oc, s, step)
    {
      StepAdvances(wf, oc, s, s', step);
    }
    if ReadyRetriesSucceed(wf, oc, s) {
      var first := FindReady(wf.steps, s.states)[0];
      assert first in FindReady(wf.steps, s.states);
      StepAdvances(wf, oc, s, s', first);
      SumLess(wf.steps, step => StepWork(oc, s', step), step => StepWork(oc, s, step));
    }
  }

  lemma OnTrackStart(wf: Workflow, oc: Oracle)
    ensures OnTrack(wf, oc, Fresh(wf))
  {
    FreshIs(wf);
    forall step | step in wf.steps ensures step.id in Ids(wf) {}
    assert forall id :: Executions([], id) == 0;
  }

  lemma {:induction false} StaysOnTrack(wf: Workflow, oc: Oracle, n: nat)
    requires UniqueIds(wf) && NeverFallsBack(wf, oc)
    ensures Head(wf, oc, n).phase != Aborted ==> OnTrack(wf, oc, Head(wf, oc, n))
    ensures n > 0 && Head(wf, oc, n).phase == Looping && ReadyRetriesSucceed(wf, oc, Head(wf, oc, n - 1)) ==>
      Work(wf, oc, Head(wf, oc, n)) < Work(wf, oc, Head(wf, oc, n - 1))
  {
    hide Head, Round, OnTrack, Work, FindReady, ReadyRetriesSucceed;
    if n == 0 {
      HeadStep(wf, oc, 0);
      OnTrackStart(wf, oc);
    } else {
      StaysOnTrack(wf, oc, n - 1);
      HeadStep(wf, oc, n - 1);
      HeadsAreSane(wf, oc, n - 1);
      var before := Head(wf, oc, n - 1);
      if before.phase == Looping && FindReady(wf.steps, before.states) == [] {
        IdleKeepsTrack(wf, oc, before);
      } else if before.phase == Looping && Head(wf, oc, n).phase != Aborted {
        BusyRoundPhase(wf, oc, before);
        OnTrackRound(wf, oc, before);
      }
    }
  }

  lemma IdleKeepsTrack(wf: Workflow, oc: Oracle, s: RunState)
    requires s.phase == Looping && FindReady(wf.steps, s.states) == [] && OnTrack(wf, oc, s)
    ensures OnTrack(wf, oc, Round(wf, oc, s))
  {
  }

  lemma BusyRoundPhase(wf: Workflow, oc: Oracle, s: RunState)
    requires s.phase == Looping && FindReady(wf.steps, s.states) != []
    ensures Round(wf, oc, s).phase in {Looping, Aborted}
  {
    var ready := FindReady(wf.steps, s.states);
    SpawnEffect(ready, s);
    CollectPhases(wf, Handles(oc, ready, s), SpawnAll(ready, s));
  }

  /** Without triggered fallbacks, as long as the run goes on, every round takes at least one unit of work away. */
  lemma {:induction false} WorkShrinks(wf: Workflow, oc: Oracle, n: nat)
    requires UniqueIds(wf) && NeverFallsBack(wf, oc)
    requires forall k: nat :: k < n ==> ReadyRetriesSucceed(wf, oc, Head(wf, oc, k))
    ensures Head(wf, oc, n).phase == Looping ==> Work(wf, oc, Head(wf, oc, n)) + n <= Work(wf, oc, Fresh(wf))
  {
    hide Head, Round, Work, ReadyRetriesSucceed;
    HeadStep(wf, oc, 0);
    if n > 0 {
      WorkShrinks(wf, oc, n - 1);
      HeadStep(wf, oc, n - 1);
      StaysOnTrack(wf, oc, n);
    }
  }

  /** Without triggered fallbacks, a run ends whenever each retried step that gets its turn fails finitely often. */
  lemma RunEnds(wf: Workflow, oc: Oracle, n: nat)
    requires UniqueIds(wf) && NeverFallsBack(wf, oc)
    requires forall k: nat :: k < n ==> ReadyRetriesSucceed(wf, oc, Head(wf, oc, k))
    requires n > Work(wf, oc, Fresh(wf))
    ensures Head(wf, oc, n).phase != Looping
  {
    hide Head, Work;
    WorkShrinks(wf, oc, n);
  }

  // The retry limit is not enforced

  lemma NobodyAborts(wf: Workflow, oc: Oracle, s: RunState)
    requires NeverAborts(wf, oc)
    ensures forall step <- FindReady(wf.steps, s.states) :: !AbortsNow(step, Reply(oc, s, step.id))
  {
    hide FindReady, ReadAll;
    forall step | step in FindReady(wf.steps, s.states) ensures !AbortsNow(step, Reply(oc, s, step.id)) {
      assert step.Aborts() ==> Succeeds(oc, step.id, Executions(s.log, step.id));
    }
  }

  lemma AlwaysReadyRound(wf: Workflow, oc: Oracle, s: RunState, step: Step)
    requires UniqueIds(wf) && NeverFallsBack(wf, oc) && NeverAborts(wf, oc) && NoneRunning(s.states) && s.phase == Looping
    requires step in FindReady(wf.steps, s.states) && step.Retries() && !Succeeds(oc, step.id, Executions(s.log, step.id))
    ensures
      var s' := Round(wf, oc, s);
      && s'.phase == Looping && step in FindReady(wf.steps, s'.states)
      && Executions(s'.log, step.id) == Executions(s.log, step.id) + 1
  {
    hide FindReady, Round;
    RoundEffect(wf, oc, s);
    RoundAbsorbs(wf, oc, s);
    NobodyAborts(wf, oc, s);
    assert IsReady(step, s.states);
    forall d | d in step.dependsOn ensures Meets(d, Round(wf, oc, s).states) {
      assert Meets(d, s.states);
    }
    SettledPending(step, Reply(oc, s, step.id));
    assert step.id in IdsOf(FindReady(wf.steps, s.states));
  }

  /** A ready step that retries and never succeeds is executed in every later round, whatever its
      attempt limit says, and the run never ends. */
  lemma {:induction false} RetryNeverGivesUp(wf: Workflow, oc: Oracle, n: nat, step: Step, m: nat)
    requires UniqueIds(wf) && NeverFallsBack(wf, oc) && NeverAborts(wf, oc)
    requires Head(wf, oc, n).phase == Looping && step in FindReady(wf.steps, Head(wf, oc, n).states)
    requires step.Retries() && forall k: nat :: !Succeeds(oc, step.id, k)
    ensures Head(wf, oc, n + m).phase == Looping
    ensures step in FindReady(wf.steps, Head(wf, oc, n + m).states)
    ensures Executions(Head(wf, oc, n + m).log, step.id) == Executions(Head(wf, oc, n).log, step.id) + m
  {
    hide Head, Round, FindReady, Executions, Succeeds, NeverFallsBack, NeverAborts, UniqueIds, NoneRunning;
    if m > 0 {
      RetryNeverGivesUp(wf, oc, n, step, m - 1);
      HeadStep(wf, oc, n + m - 1);
      HeadsAreSane(wf, oc, n + m - 1);
      AlwaysReadyRound(wf, oc, Head(wf, oc, n + m - 1), step);
    }
  }
}
