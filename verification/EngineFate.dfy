/** The denotation of a workflow: each step's fate, defined along the acyclic dependency order, and the
    proof that the round-based loop computes it. */
module EngineFate {
  import opened Graphs
  import opened Workflows
  import opened Engine
  import opened EngineBatch
  import opened EngineRounds
  import opened EngineSafety
  import opened EngineProgress

  /** A step ends in a state, is blocked by a dependency that never meets its condition, or is retried for ever. */
  datatype Fate = Ends(state: StepState) | Blocked | Loops

  predicate FateMeets(c: Condition, fate: Fate) {
    fate.Ends? &&
    match c
    case OnSuccess => fate.state.Completed?
    case OnFailure => fate.state.Failed?
    case Always => fate.state.IsTerminal()
  }

  /** What becomes of a step once its dependencies are met. */
  ghost function OwnFate(oc: Oracle, step: Step): Fate {
    if !step.Retries() then Ends(Settled(step, ReadAll(oc(step.id, 0))))
    else if EventuallySucceeds(oc, step.id) then Ends(Completed(ReadAll(oc(step.id, FirstSuccess(oc, step.id))).output))
    else Loops
  }

  ghost function Height(wf: Workflow, id: StepId): nat
    requires WellFormed(wf)
  {
    if id in RankOf(Edges(wf)) then RankOf(Edges(wf))[id] else 0
  }

  /** The step a dependency names; it ranks below the step that names it. */
  ghost function Target(wf: Workflow, step: Step, d: Dependency): (target: Step)
    requires WellFormed(wf) && step in wf.steps && d in step.dependsOn
    ensures target in wf.steps && target.id == d.stepId
    ensures Height(wf, target.id) < Height(wf, step.id)
  {
    assert (step.id, d.stepId) in Edges(wf);
    assert d.stepId in Ids(wf);
    StepWithId(wf.steps, d.stepId).value
  }

  ghost function FateOf(wf: Workflow, oc: Oracle, step: Step): Fate
    requires WellFormed(wf) && step in wf.steps
    decreases Height(wf, step.id)
  {
    if forall d <- step.dependsOn :: FateMeets(d.condition, FateOf(wf, oc, Target(wf, step, d))) then OwnFate(oc, step)
    else Blocked
  }

  /** So far every settled step has met its fate. */
  ghost predicate OnFate(wf: Workflow, oc: Oracle, s: RunState)
    requires WellFormed(wf)
  {
    forall step <- wf.steps ::
      step.id in s.states && (s.states[step.id].IsTerminal() ==> FateOf(wf, oc, step) == Ends(s.states[step.id]))
  }

  /** A ready step is not blocked. */
  lemma ReadyHasOwnFate(wf: Workflow, oc: Oracle, s: RunState, step: Step)
    requires WellFormed(wf) && OnFate(wf, oc, s) && step in FindReady(wf.steps, s.states)
    ensures FateOf(wf, oc, step) == OwnFate(oc, step)
  {
    hide FindReady, OwnFate;
    assert IsReady(step, s.states);
    forall d | d in step.dependsOn ensures FateMeets(d.condition, FateOf(wf, oc, Target(wf, step, d))) {
      assert Meets(d, s.states);
      var target := Target(wf, step, d);
      assert FateOf(wf, oc, target) == Ends(s.states[target.id]);
    }
  }

  /** Executing a step on track leaves it either waiting for its retry or with its own fate. */
  lemma SettledIsOwnFate(oc: Oracle, s: RunState, step: Step)
    requires StepOnTrack(oc, s, step) && s.states[step.id].Pending?
    ensures var state := Settled(step, Reply(oc, s, step.id)); state.IsTerminal() ==> OwnFate(oc, step) == Ends(state)
  {
    hide ReadAll;
    var k := Executions(s.log, step.id);
    assert Reply(oc, s, step.id).Success() <==> Succeeds(oc, step.id, k);
  }

  lemma OnFateRound(wf: Workflow, oc: Oracle, s: RunState)
    requires WellFormed(wf) && NeverFallsBack(wf, oc) && NoneRunning(s.states) && OnTrack(wf, oc, s) && OnFate(wf, oc, s)
    requires s.phase == Looping && FindReady(wf.steps, s.states) != [] && Round(wf, oc, s).phase == Looping
    ensures OnFate(wf, oc, Round(wf, oc, s))
  {
    hide Round, FindReady, FateOf, OwnFate, Settled, Reply;
    var ready, s' := FindReady(wf.steps, s.states), Round(wf, oc, s);
    RoundEffect(wf, oc, s);
    forall step | step in wf.steps
      ensures step.id in s'.states && (s'.states[step.id].IsTerminal() ==> FateOf(wf, oc, step) == Ends(s'.states[step.id]))
    {
      NotReadyUnchanged(wf, s, step);
      if step in ready {
        assert IsReady(step, s.states);
        ReadyHasOwnFate(wf, oc, s, step);
        SettledIsOwnFate(oc, s, step);
      }
    }
  }

  /** When nothing is ready, exactly the blocked steps are left pending. */
  lemma {:induction false} IdleIsBlocked(wf: Workflow, oc: Oracle, s: RunState, step: Step)
    requires WellFormed(wf) && NoneRunning(s.states) && OnFate(wf, oc, s) && step in wf.steps
    requires FindReady(wf.steps, s.states) == []
    ensures s.states[step.id].Pending? ==> FateOf(wf, oc, step).Blocked?
    ensures !s.states[step.id].Pending? ==> FateOf(wf, oc, step) == Ends(s.states[step.id])
    decreases Height(wf, step.id)
  {
    hide OwnFate, Height, FindReady;
    if s.states[step.id].Pending? {
      assert step !in FindReady(wf.steps, s.states);
      assert !IsReady(step, s.states);
      var d :| d in step.dependsOn && !Meets(d, s.states);
      IdleIsBlocked(wf, oc, s, Target(wf, step, d));
      assert !FateMeets(d.condition, FateOf(wf, oc, Target(wf, step, d)));
    }
  }

  lemma {:induction false} StaysOnFate(wf: Workflow, oc: Oracle, n: nat)
    requires WellFormed(wf) && NeverFallsBack(wf, oc) && NeverAborts(wf, oc)
    ensures Head(wf, oc, n).phase != Aborted && OnFate(wf, oc, Head(wf, oc, n))
    ensures Head(wf, oc, n).phase in {Finished, Deadlocked} ==> FindReady(wf.steps, Head(wf, oc, n).states) == []
    ensures Head(wf, oc, n).phase == Finished ==> AllTerminal(Head(wf, oc, n).states)
    ensures Head(wf, oc, n).phase == Deadlocked ==> !AllTerminal(Head(wf, oc, n).states)
  {
    hide Head, Round, FindReady, OnFate, OnTrack, AllTerminal, NoneRunning;
    if n == 0 {
      HeadStep(wf, oc, 0);
      FreshOnFate(wf, oc);
    } else {
      StaysOnFate(wf, oc, n - 1);
      StaysOnTrack(wf, oc, n - 1);
      HeadStep(wf, oc, n - 1);
      HeadsAreSane(wf, oc, n - 1);
      var before := Head(wf, oc, n - 1);
      if before.phase == Looping {
        if FindReady(wf.steps, before.states) == [] {
          IdleRound(wf, oc, before);
          OnFateDependsOnStates(wf, oc, before, Head(wf, oc, n));
        } else {
          NoAbortRound(wf, oc, before);
          OnFateRound(wf, oc, before);
        }
      }
    }
  }

  lemma FreshOnFate(wf: Workflow, oc: Oracle)
    requires WellFormed(wf)
    ensures OnFate(wf, oc, Fresh(wf)) && Fresh(wf).phase == Looping
  {
    hide FateOf, Height, Fresh, WellFormed;
    FreshIs(wf);
    forall step | step in wf.steps ensures step.id in Ids(wf) {}
  }

  lemma OnFateDependsOnStates(wf: Workflow, oc: Oracle, s: RunState, t: RunState)
    requires WellFormed(wf) && OnFate(wf, oc, s) && s.states == t.states
    ensures OnFate(wf, oc, t)
  {
  }

  lemma IdleRound(wf: Workflow, oc: Oracle, s: RunState)
    requires s.phase == Looping && FindReady(wf.steps, s.states) == [] && NoneRunning(s.states)
    ensures Round(wf, oc, s) == s.(phase := if AllTerminal(s.states) then Finished else Deadlocked)
  {
  }

  lemma NoAbortRound(wf: Workflow, oc: Oracle, s: RunState)
    requires UniqueIds(wf) && NeverFallsBack(wf, oc) && NeverAborts(wf, oc) && NoneRunning(s.states) && s.phase == Looping
    requires FindReady(wf.steps, s.states) != []
    ensures Round(wf, oc, s).phase == Looping
  {
    hide FindReady, Round, Advanced;
    RoundEffect(wf, oc, s);
    NobodyAborts(wf, oc, s);
  }

  ghost predicate SomeLoops(wf: Workflow, oc: Oracle)
    requires WellFormed(wf)
  {
    exists step <- wf.steps :: FateOf(wf, oc, step).Loops?
  }

  ghost predicate SomeBlocked(wf: Workflow, oc: Oracle)
    requires WellFormed(wf)
  {
    exists step <- wf.steps :: FateOf(wf, oc, step).Blocked?
  }

  ghost predicate ShowsFate(wf: Workflow, oc: Oracle, states: States, step: Step)
    requires WellFormed(wf) && step in wf.steps
  {
    step.id in states && FateOf(wf, oc, step) == if states[step.id].Pending? then Blocked else Ends(states[step.id])
  }

  /** A run that has ended shows every step's fate: blocked steps are the pending ones, and the run
      deadlocked exactly when there are any. */
  lemma EndedRunShowsFates(wf: Workflow, oc: Oracle, n: nat)
    requires WellFormed(wf) && NeverFallsBack(wf, oc) && NeverAborts(wf, oc)
    requires Head(wf, oc, n).phase != Looping
    ensures !SomeLoops(wf, oc)
    ensures Head(wf, oc, n).phase == (if SomeBlocked(wf, oc) then Deadlocked else Finished)
    ensures forall step <- wf.steps :: ShowsFate(wf, oc, Head(wf, oc, n).states, step)
  {
    hide Head, FindReady, FateOf, Height, SomeLoops, SomeBlocked;
    var s := Head(wf, oc, n);
    StaysOnFate(wf, oc, n);
    HeadsAreSane(wf, oc, n);
    forall step | step in wf.steps ensures ShowsFate(wf, oc, s.states, step) {
      IdleIsBlocked(wf, oc, s, step);
    }
    ShownFates(wf, oc, s.states);
  }

  lemma ShownFates(wf: Workflow, oc: Oracle, states: States)
    requires WellFormed(wf) && states.Keys == Ids(wf) && NoneRunning(states)
    requires forall step <- wf.steps :: ShowsFate(wf, oc, states, step)
    ensures !SomeLoops(wf, oc)
    ensures SomeBlocked(wf, oc) <==> !AllTerminal(states)
  {
    hide FateOf, Height;
    if id :| id in states && !states[id].IsTerminal() {
      assert id in Ids(wf);
      var step :| step in wf.steps && step.id == id;
      assert ShowsFate(wf, oc, states, step);
    }
  }

  lemma NoLoopsNoEndlessRetries(wf: Workflow, oc: Oracle, n: nat)
    requires WellFormed(wf) && NeverFallsBack(wf, oc) && NeverAborts(wf, oc) && !SomeLoops(wf, oc)
    ensures ReadyRetriesSucceed(wf, oc, Head(wf, oc, n))
  {
    hide Head, FindReady, FateOf, OnFate;
    StaysOnFate(wf, oc, n);
    forall step | step in FindReady(wf.steps, Head(wf, oc, n).states) && step.Retries() ensures EventuallySucceeds(oc, step.id) {
      ReadyHasOwnFate(wf, oc, Head(wf, oc, n), step);
      assert step in wf.steps;
    }
  }

  /** The run ends exactly when no step is retried for ever, and then within its initial work plus one rounds. */
  lemma RunEndsIff(wf: Workflow, oc: Oracle)
    requires WellFormed(wf) && NeverFallsBack(wf, oc) && NeverAborts(wf, oc)
    ensures (exists n: nat :: Head(wf, oc, n).phase != Looping) <==> !SomeLoops(wf, oc)
    ensures !SomeLoops(wf, oc) ==> Head(wf, oc, Work(wf, oc, Fresh(wf)) + 1).phase != Looping
  {
    hide Head, SomeLoops, ReadyRetriesSucceed, Work;
    if !SomeLoops(wf, oc) {
      var n := Work(wf, oc, Fresh(wf)) + 1;
      forall k: nat | k < n ensures ReadyRetriesSucceed(wf, oc, Head(wf, oc, k)) {
        NoLoopsNoEndlessRetries(wf, oc, k);
      }
      RunEnds(wf, oc, n);
    }
    if n: nat :| Head(wf, oc, n).phase != Looping {
      EndedRunShowsFates(wf, oc, n);
    }
  }

  /** The loop computes the fates: with nothing blocked and nothing retried for ever it returns with
      exactly the fates as step states; with something blocked it reports the deadlock. */
  lemma LoopRefinesFate(wf: Workflow, oc: Oracle)
    requires WellFormed(wf) && NeverFallsBack(wf, oc) && NeverAborts(wf, oc) && !SomeLoops(wf, oc)
    ensures
      var end := Head(wf, oc, Work(wf, oc, Fresh(wf)) + 1);
      && (Report(end) == Deadlock <==> SomeBlocked(wf, oc))
      && (Report(end).Returned? <==> !SomeBlocked(wf, oc))
      && (Report(end).Returned? ==>
        var states := Report(end).result.checkpoint.stepStates;
        states.Keys == Ids(wf) && forall step <- wf.steps :: FateOf(wf, oc, step) == Ends(states[step.id]))
  {
    hide Head, FateOf, Work, SomeLoops, FindReady;
    var n := Work(wf, oc, Fresh(wf)) + 1;
    RunEndsIff(wf, oc);
    EndedRunShowsFates(wf, oc, n);
    HeadsAreSane(wf, oc, n);
    StaysOnFate(wf, oc, n);
  }
}
