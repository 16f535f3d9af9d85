/** What becomes of every step in runs that may never end: fates are reached, whatever is retried for
    ever beside them; and exactly when the retry limit is kept. */
module EngineLiveness {
  import opened Wrappers
  import opened Workflows
  import opened Engine
  import opened EngineBatch
  import opened EngineRounds
  import opened EngineSafety
  import opened EngineProgress
  import opened EngineFate

  ghost predicate IsSettled(s: RunState, id: StepId) {
    id in s.states && s.states[id].IsTerminal()
  }

  ghost predicate HasTurn(wf: Workflow, s: RunState, step: Step) {
    s.phase == Looping && step in FindReady(wf.steps, s.states)
  }

  /** A step that has its turn is executed and settled, or waits for its retry with the run going on. */
  lemma TurnIsTaken(wf: Workflow, oc: Oracle, step: Step, n: nat)
    requires UniqueIds(wf) && NeverFallsBack(wf, oc) && NeverAborts(wf, oc) && HasTurn(wf, Head(wf, oc, n), step)
    ensures
      var s, s' := Head(wf, oc, n), Head(wf, oc, n + 1);
      && s'.phase == Looping && step.id in s'.states && s'.states[step.id] == Settled(step, Reply(oc, s, step.id))
      && Executions(s'.log, step.id) == Executions(s.log, step.id) + 1
  {
    hide Head, Round, FindReady, Settled, Reply;
    var s := Head(wf, oc, n);
    HeadStep(wf, oc, n);
    HeadsAreSane(wf, oc, n);
    RoundEffect(wf, oc, s);
    NobodyAborts(wf, oc, s);
    assert step.id in IdsOf(FindReady(wf.steps, s.states));
  }

  /** A retried step that has its turn is settled once its first success comes up. */
  lemma {:induction false} RetriesUntilSuccess(wf: Workflow, oc: Oracle, step: Step, n: nat) returns (m: nat)
    requires WellFormed(wf) && NeverFallsBack(wf, oc) && NeverAborts(wf, oc) && HasTurn(wf, Head(wf, oc, n), step)
    requires step.Retries() && EventuallySucceeds(oc, step.id)
    requires Executions(Head(wf, oc, n).log, step.id) <= FirstSuccess(oc, step.id)
    decreases FirstSuccess(oc, step.id) - Executions(Head(wf, oc, n).log, step.id)
    ensures IsSettled(Head(wf, oc, m), step.id)
  {
    hide Head, Round, FindReady, ReadAll, NeverFallsBack, NeverAborts;
    var s := Head(wf, oc, n);
    var k := Executions(s.log, step.id);
    TurnIsTaken(wf, oc, step, n);
    assert Reply(oc, s, step.id).Success() <==> Succeeds(oc, step.id, k);
    if Succeeds(oc, step.id, k) {
      m := n + 1;
    } else {
      RetryTurn(wf, oc, step, n);
      m := RetriesUntilSuccess(wf, oc, step, n + 1);
    }
  }

  lemma RetryTurn(wf: Workflow, oc: Oracle, step: Step, n: nat)
    requires UniqueIds(wf) && NeverFallsBack(wf, oc) && NeverAborts(wf, oc) && HasTurn(wf, Head(wf, oc, n), step)
    requires step.Retries() && !Succeeds(oc, step.id, Executions(Head(wf, oc, n).log, step.id))
    ensures HasTurn(wf, Head(wf, oc, n + 1), step)
  {
    hide Head, Round, FindReady;
    HeadStep(wf, oc, n);
    HeadsAreSane(wf, oc, n);
    AlwaysReadyRound(wf, oc, Head(wf, oc, n), step);
  }

  /** With its dependencies settled as they should be, a step is settled or has its turn. */
  lemma MetMeansTurn(wf: Workflow, oc: Oracle, step: Step, n: nat)
    requires WellFormed(wf) && NeverFallsBack(wf, oc) && NeverAborts(wf, oc) && step in wf.steps
    requires !FateOf(wf, oc, step).Blocked?
    requires forall d <- step.dependsOn :: IsSettled(Head(wf, oc, n), d.stepId)
    ensures IsSettled(Head(wf, oc, n), step.id) || HasTurn(wf, Head(wf, oc, n), step)
  {
    hide Head, FindReady, FateOf, OwnFate, Height, IsReady;
    var s := Head(wf, oc, n);
    StaysOnFate(wf, oc, n);
    HeadsAreSane(wf, oc, n);
    assert step.id in s.states;
    forall d | d in step.dependsOn ensures Meets(d, s.states) {
      DependencyMet(wf, oc, s, step, d);
    }
    MetAndPendingIsReady(wf, s, step);
  }

  lemma MetAndPendingIsReady(wf: Workflow, s: RunState, step: Step)
    requires step in wf.steps && step.id in s.states && forall d <- step.dependsOn :: Meets(d, s.states)
    ensures s.states[step.id].Pending? ==> step in FindReady(wf.steps, s.states)
  {
  }

  lemma DependencyMet(wf: Workflow, oc: Oracle, s: RunState, step: Step, d: Dependency)
    requires WellFormed(wf) && OnFate(wf, oc, s) && step in wf.steps && d in step.dependsOn
    requires !FateOf(wf, oc, step).Blocked? && IsSettled(s, d.stepId)
    ensures Meets(d, s.states)
    ensures FateOf(wf, oc, Target(wf, step, d)).Ends?
  {
    hide OwnFate, Height;
    var target := Target(wf, step, d);
    assert FateMeets(d.condition, FateOf(wf, oc, target));
    assert FateOf(wf, oc, target) == Ends(s.states[target.id]);
  }

  lemma {:induction false} DependenciesSettle(wf: Workflow, oc: Oracle, step: Step, k: nat) returns (n: nat)
    requires WellFormed(wf) && NeverFallsBack(wf, oc) && NeverAborts(wf, oc) && step in wf.steps
    requires !FateOf(wf, oc, step).Blocked? && k <= |step.dependsOn|
    decreases Height(wf, step.id), 0, k
    ensures forall d <- step.dependsOn[..k] :: IsSettled(Head(wf, oc, n), d.stepId)
  {
    if k == 0 {
      n := 0;
    } else {
      hide Head, FateOf, Height;
      var d := step.dependsOn[k - 1];
      var target := Target(wf, step, d);
      TargetEnds(wf, oc, step, d);
      var m := DependenciesSettle(wf, oc, step, k - 1);
      var own := Settles(wf, oc, target);
      n := if m < own then own else m;
      TerminalIsForever(wf, oc, m, n);
      TerminalIsForever(wf, oc, own, n);
      assert step.dependsOn[..k] == step.dependsOn[..k - 1] + [d];
    }
  }

  lemma TargetEnds(wf: Workflow, oc: Oracle, step: Step, d: Dependency)
    requires WellFormed(wf) && step in wf.steps && d in step.dependsOn && !FateOf(wf, oc, step).Blocked?
    ensures FateOf(wf, oc, Target(wf, step, d)).Ends?
  {
    assert FateMeets(d.condition, FateOf(wf, oc, Target(wf, step, d)));
  }

  /** Every step that is not blocked is settled or gets its turn. */
  lemma {:induction false} GetsItsTurn(wf: Workflow, oc: Oracle, step: Step) returns (n: nat)
    requires WellFormed(wf) && NeverFallsBack(wf, oc) && NeverAborts(wf, oc) && step in wf.steps
    requires !FateOf(wf, oc, step).Blocked?
    decreases Height(wf, step.id), 1
    ensures IsSettled(Head(wf, oc, n), step.id) || HasTurn(wf, Head(wf, oc, n), step)
  {
    hide Head, FateOf, Height, HasTurn, IsSettled;
    n := DependenciesSettle(wf, oc, step, |step.dependsOn|);
    assert step.dependsOn[..|step.dependsOn|] == step.dependsOn;
    MetMeansTurn(wf, oc, step, n);
  }

  lemma {:induction false} Settles(wf: Workflow, oc: Oracle, step: Step) returns (n: nat)
    requires WellFormed(wf) && NeverFallsBack(wf, oc) && NeverAborts(wf, oc) && step in wf.steps
    requires FateOf(wf, oc, step).Ends?
    decreases Height(wf, step.id), 2
    ensures IsSettled(Head(wf, oc, n), step.id)
  {
    hide Head, FindReady, Height, ReadAll, EventuallySucceeds, StepOnTrack;
    var m := GetsItsTurn(wf, oc, step);
    if IsSettled(Head(wf, oc, m), step.id) {
      n := m;
    } else if !step.Retries() {
      TurnIsTaken(wf, oc, step, m);
      n := m + 1;
    } else {
      assert EventuallySucceeds(oc, step.id);
      StaysOnTrack(wf, oc, m);
      TurnOnTrack(wf, oc, Head(wf, oc, m), step);
      n := RetriesUntilSuccess(wf, oc, step, m);
    }
  }

  lemma TurnOnTrack(wf: Workflow, oc: Oracle, s: RunState, step: Step)
    requires OnTrack(wf, oc, s) && HasTurn(wf, s, step)
    ensures step.Retries() && EventuallySucceeds(oc, step.id) ==> Executions(s.log, step.id) <= FirstSuccess(oc, step.id)
  {
    assert IsReady(step, s.states);
  }

  lemma BlockedHasNoTurn(wf: Workflow, oc: Oracle, s: RunState, step: Step)
    requires WellFormed(wf) && OnFate(wf, oc, s) && step in wf.steps && FateOf(wf, oc, step).Blocked?
    ensures step !in FindReady(wf.steps, s.states)
  {
    hide FindReady, Height;
    if step in FindReady(wf.steps, s.states) {
      ReadyHasOwnFate(wf, oc, s, step);
      assert false;
    }
  }

  /** Not having its turn leaves a step as it is. */
  lemma NoTurnNoChange(wf: Workflow, oc: Oracle, step: Step, n: nat)
    requires WellFormed(wf) && NeverFallsBack(wf, oc) && NeverAborts(wf, oc) && step in wf.steps
    requires step !in FindReady(wf.steps, Head(wf, oc, n).states)
    ensures
      var s, s' := Head(wf, oc, n), Head(wf, oc, n + 1);
      && step.id in s.states && step.id in s'.states && s'.states[step.id] == s.states[step.id]
      && Executions(s'.log, step.id) == Executions(s.log, step.id)
  {
    hide Head, Round, FindReady, Executions, AllTerminal;
    var s := Head(wf, oc, n);
    HeadStep(wf, oc, n);
    HeadsAreSane(wf, oc, n);
    assert step.id in s.states;
    if s.phase == Looping {
      if FindReady(wf.steps, s.states) == [] {
        IdleRound(wf, oc, s);
      } else {
        NoAbortRound(wf, oc, s);
        RoundEffect(wf, oc, s);
        NotReadyUnchanged(wf, s, step);
      }
    }
  }

  lemma {:induction false} BlockedStaysPending(wf: Workflow, oc: Oracle, step: Step, n: nat)
    requires WellFormed(wf) && NeverFallsBack(wf, oc) && NeverAborts(wf, oc) && step in wf.steps
    requires FateOf(wf, oc, step).Blocked?
    ensures
      var s := Head(wf, oc, n);
      step.id in s.states && s.states[step.id].Pending? && Executions(s.log, step.id) == 0
  {
    hide Head, FindReady, FateOf, Height;
    if n == 0 {
      HeadStep(wf, oc, 0);
      FreshIs(wf);
      StepHasId(wf, step);
    } else {
      BlockedStaysPending(wf, oc, step, n - 1);
      StaysOnFate(wf, oc, n - 1);
      BlockedHasNoTurn(wf, oc, Head(wf, oc, n - 1), step);
      NoTurnNoChange(wf, oc, step, n - 1);
    }
  }

  lemma StepHasId(wf: Workflow, step: Step)
    requires step in wf.steps
    ensures step.id in Ids(wf) && Executions([], step.id) == 0
  {
  }

  /** A step that is retried for ever is executed any number of times, and never settled. */
  lemma LoopsForEver(wf: Workflow, oc: Oracle, step: Step, count: nat) returns (n: nat)
    requires WellFormed(wf) && NeverFallsBack(wf, oc) && NeverAborts(wf, oc) && step in wf.steps
    requires FateOf(wf, oc, step).Loops?
    ensures Executions(Head(wf, oc, n).log, step.id) >= count
  {
    hide Head, FindReady, Height, Settled, Executions;
    var m := GetsItsTurn(wf, oc, step);
    StaysOnFate(wf, oc, m);
    RetryNeverGivesUp(wf, oc, m, step, count);
    n := m + count;
  }

  ghost predicate KeepsState(wf: Workflow, oc: Oracle, id: StepId, state: StepState, n: nat) {
    forall m: nat :: m >= n ==> id in Head(wf, oc, m).states && Head(wf, oc, m).states[id] == state
  }

  /** At some head the step has been executed at least that often. */
  ghost predicate IsExecuted(wf: Workflow, oc: Oracle, id: StepId, count: nat) {
    exists n: nat :: Executions(Head(wf, oc, n).log, id) >= count
  }

  lemma SettledForEver(wf: Workflow, oc: Oracle, step: Step) returns (n: nat)
    requires WellFormed(wf) && NeverFallsBack(wf, oc) && NeverAborts(wf, oc) && step in wf.steps
    requires FateOf(wf, oc, step).Ends?
    ensures KeepsState(wf, oc, step.id, FateOf(wf, oc, step).state, n)
  {
    hide Head, FateOf, Height;
    n := Settles(wf, oc, step);
    StaysOnFate(wf, oc, n);
    forall m: nat | m >= n
      ensures step.id in Head(wf, oc, m).states && Head(wf, oc, m).states[step.id] == FateOf(wf, oc, step).state
    {
      TerminalIsForever(wf, oc, n, m);
    }
  }

  /** Every run gives every step its fate, whether or not it ends: a fated state is reached at some head
      and kept, a blocked step stays pending and is never executed, and a step without a fate is never
      settled but executed any number of times. */
  lemma EveryStepMeetsItsFate(wf: Workflow, oc: Oracle, step: Step)
    requires WellFormed(wf) && NeverFallsBack(wf, oc) && NeverAborts(wf, oc) && step in wf.steps
    ensures
      match FateOf(wf, oc, step)
      case Ends(state) => exists n: nat :: KeepsState(wf, oc, step.id, state, n)
      case Blocked =>
        forall n: nat :: step.id in Head(wf, oc, n).states && Head(wf, oc, n).states[step.id].Pending? &&
          Executions(Head(wf, oc, n).log, step.id) == 0
      case Loops =>
        && (forall n: nat :: !IsSettled(Head(wf, oc, n), step.id))
        && forall count: nat :: IsExecuted(wf, oc, step.id, count)
  {
    hide Head, FateOf, Height, KeepsState, Executions;
    match FateOf(wf, oc, step)
    case Ends(_) =>
      var n := SettledForEver(wf, oc, step);
    case Blocked =>
      forall n: nat ensures step.id in Head(wf, oc, n).states && Head(wf, oc, n).states[step.id].Pending? && Executions(Head(wf, oc, n).log, step.id) == 0 {
        BlockedStaysPending(wf, oc, step, n);
      }
    case Loops =>
      forall n: nat ensures !IsSettled(Head(wf, oc, n), step.id) {
        StaysOnFate(wf, oc, n);
      }
      forall count: nat ensures IsExecuted(wf, oc, step.id, count) {
        var n := LoopsForEver(wf, oc, step, count);
      }
  }

  // The retry limit

  ghost predicate WithinLimit(wf: Workflow, oc: Oracle, id: StepId, limit: nat) {
    forall n: nat :: Executions(Head(wf, oc, n).log, id) <= limit
  }

  lemma ExecutionsAreBounded(wf: Workflow, oc: Oracle, step: Step, n: nat)
    requires WellFormed(wf) && NeverFallsBack(wf, oc) && NeverAborts(wf, oc) && step in wf.steps
    requires step.Retries() && EventuallySucceeds(oc, step.id)
    ensures Executions(Head(wf, oc, n).log, step.id) <= FirstSuccess(oc, step.id) + 1
    ensures IsSettled(Head(wf, oc, n), step.id) ==> Executions(Head(wf, oc, n).log, step.id) == FirstSuccess(oc, step.id) + 1
  {
    hide Head, Executions, EventuallySucceeds;
    StaysOnFate(wf, oc, n);
    StaysOnTrack(wf, oc, n);
    HeadsAreSane(wf, oc, n);
    assert StepOnTrack(oc, Head(wf, oc, n), step);
  }

  /** A step with a retry limit is executed at most once more than its limit, in the whole run, exactly
      if it is never executed at all or succeeds within that many executions anyway: the limit itself
      stops nothing. */
  lemma RetryLimitKeptIff(wf: Workflow, oc: Oracle, step: Step)
    requires WellFormed(wf) && NeverFallsBack(wf, oc) && NeverAborts(wf, oc) && step in wf.steps && step.Retries()
    ensures
      var limit := step.Policy().value.maxAttempts;
      WithinLimit(wf, oc, step.id, limit + 1) <==>
      FateOf(wf, oc, step).Blocked? || exists k: nat :: k <= limit && Succeeds(oc, step.id, k)
  {
    hide Head, Height, Executions, ReadAll;
    var limit := step.Policy().value.maxAttempts;
    if FateOf(wf, oc, step).Blocked? {
      forall n: nat ensures Executions(Head(wf, oc, n).log, step.id) <= limit + 1 {
        BlockedStaysPending(wf, oc, step, n);
      }
    } else if k: nat :| k <= limit && Succeeds(oc, step.id, k) {
      forall n: nat ensures Executions(Head(wf, oc, n).log, step.id) <= limit + 1 {
        ExecutionsAreBounded(wf, oc, step, n);
      }
    } else if FateOf(wf, oc, step).Loops? {
      var n := LoopsForEver(wf, oc, step, limit + 2);
    } else {
      var n := Settles(wf, oc, step);
      assert EventuallySucceeds(oc, step.id);
      ExecutionsAreBounded(wf, oc, step, n);
    }
  }

  /** One step that may be retried once and always fails. */
  const STUBBORN := Step("a", "", [], Some(Retry(1)), None)

  lemma IndependentIsNotBlocked(wf: Workflow, oc: Oracle, step: Step)
    requires WellFormed(wf) && step in wf.steps && step.dependsOn == []
    ensures !FateOf(wf, oc, step).Blocked?
  {
  }

  /** A validated workflow of one step with limit 1 is at its n-th execution after n rounds. */
  lemma RetryLimitIgnored(n: nat)
    ensures WellFormed(Workflow([STUBBORN])) && !FateOf(Workflow([STUBBORN]), NoAnswers, STUBBORN).Blocked?
    ensures Executions(Head(Workflow([STUBBORN]), NoAnswers, n).log, "a") == n
  {
    hide Head, FateOf, WellFormed, Executions;
    var wf := Workflow([STUBBORN]);
    IndependentIsWellFormed(wf);
    IndependentIsNotBlocked(wf, NoAnswers, STUBBORN);
    HeadStep(wf, NoAnswers, 0);
    FreshIs(wf);
    StepHasId(wf, STUBBORN);
    MetAndPendingIsReady(wf, Fresh(wf), STUBBORN);
    RetryNeverGivesUp(wf, NoAnswers, 0, STUBBORN, n);
  }
}
