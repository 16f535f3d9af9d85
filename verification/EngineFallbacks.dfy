/** Fallbacks at run time: when they fire, which states they leave, and when runs with them end. */
module EngineFallbacks {
  import opened Wrappers
  import opened Workflows
  import opened Engine
  import opened EngineBatch
  import opened EngineSafety

  /** The other step that a step falls back to, if there is one. */
  function FallbackStep(wf: Workflow, step: Step): (other: Option<Step>)
    ensures other.Some? ==> other.value in wf.steps && other.value.id != step.id
    ensures other.Some? ==> step.FallsBack() && step.Policy().value.target == other.value.id
  {
    if step.FallsBack() && step.Policy().value.target != step.id then StepWithId(wf.steps, step.Policy().value.target) else None
  }

  /** The target of the fallback that collecting the result triggers, if it triggers one. */
  function Fallen(wf: Workflow, h: Handle, t: RunState): Option<StepId> {
    var policy := PolicyOf(wf, h.id);
    if t.phase == Looping && !ReadAll(h.events).Success() && policy.Some? && policy.value.Fallback?
    then Some(policy.value.target)
    else None
  }

  /** The handles of the round that begins in this state. */
  function RoundHandles(wf: Workflow, oc: Oracle, s: RunState): seq<Handle> {
    if s.phase == Looping then Handles(oc, FindReady(wf.steps, s.states), s) else []
  }

  /** That round after j of its results have been collected. */
  function MidRound(wf: Workflow, oc: Oracle, s: RunState, j: nat): RunState
    requires j <= |RoundHandles(wf, oc, s)|
  {
    CollectAll(wf, RoundHandles(wf, oc, s)[..j], SpawnAll(FindReady(wf.steps, s.states), s))
  }

  /** The j-th result collected in the round that begins in this state triggers a fallback. */
  ghost predicate FiresIn(wf: Workflow, oc: Oracle, s: RunState, j: int, target: StepId) {
    var hs := RoundHandles(wf, oc, s);
    0 <= j < |hs| && Fallen(wf, hs[j], MidRound(wf, oc, s, j)) == Some(target)
  }

  /** The j-th result collected in round k of the fresh run triggers a fallback. */
  ghost predicate Fires(wf: Workflow, oc: Oracle, k: nat, j: int, target: StepId) {
    FiresIn(wf, oc, Head(wf, oc, k), j, target)
  }

  /** A fallback to the target is triggered before the n-th loop head. */
  ghost predicate FiredBefore(wf: Workflow, oc: Oracle, n: nat, target: StepId) {
    exists k: nat, j :: k < n && Fires(wf, oc, k, j, target)
  }

  /** If steps with a fallback never fail, no fallback is triggered. */
  lemma NeverFires(wf: Workflow, oc: Oracle, s: RunState, j: int, target: StepId)
    requires UniqueIds(wf) && NeverFallsBack(wf, oc)
    ensures !FiresIn(wf, oc, s, j, target)
  {
    hide FindReady, Handles, ReadAll, MidRound;
    if s.phase == Looping && 0 <= j < |RoundHandles(wf, oc, s)| {
      var ready := FindReady(wf.steps, s.states);
      ReadyIdsDistinct(wf.steps, s.states);
      HandlesAre(oc, ready, s);
      assert ready[j] in ready;
      PolicyIsOwn(wf, ready[j]);
      assert ready[j].FallsBack() ==> Succeeds(oc, ready[j].id, Executions(s.log, ready[j].id));
    }
  }

  // Which states there are

  lemma CollectKeys(wf: Workflow, h: Handle, t: RunState, id: StepId)
    requires h.id in t.states
    ensures id in CollectOne(wf, h, t).states <==> id in t.states || Fallen(wf, h, t) == Some(id)
  {
    hide ReadAll, PolicyOf;
  }

  ghost predicate FallenIn(wf: Workflow, hs: seq<Handle>, t: RunState, j: int, id: StepId) {
    0 <= j < |hs| && Fallen(wf, hs[j], CollectAll(wf, hs[..j], t)) == Some(id)
  }

  lemma {:induction false} CollectAllKeys(wf: Workflow, hs: seq<Handle>, t: RunState, id: StepId)
    requires forall h <- hs :: h.id in t.states
    ensures t.states.Keys <= CollectAll(wf, hs, t).states.Keys
    ensures id in CollectAll(wf, hs, t).states <==> id in t.states || exists j :: FallenIn(wf, hs, t, j, id)
  {
    if hs != [] {
      hide CollectOne, Fallen;
      var n := |hs| - 1;
      var front := hs[..n];
      CollectAllKeys(wf, front, t, id);
      forall other ensures other in t.states ==> other in CollectAll(wf, front, t).states {
        assert t.states.Keys <= CollectAll(wf, front, t).states.Keys;
      }
      forall other {
        CollectKeys(wf, hs[n], CollectAll(wf, front, t), other);
      }
      forall j | 0 <= j < n ensures FallenIn(wf, front, t, j, id) <==> FallenIn(wf, hs, t, j, id) {
        assert front[..j] == hs[..j];
      }
      assert FallenIn(wf, hs, t, n, id) <==> Fallen(wf, hs[n], CollectAll(wf, front, t)) == Some(id);
    }
  }

  lemma RoundKeys(wf: Workflow, oc: Oracle, s: RunState, id: StepId)
    requires Ids(wf) <= s.states.Keys
    ensures id in Round(wf, oc, s).states <==> id in s.states || exists j :: FiresIn(wf, oc, s, j, id)
  {
    var ready, hs := FindReady(wf.steps, s.states), RoundHandles(wf, oc, s);
    if s.phase == Looping {
      hide FindReady, SpawnAll, Fallen, CollectAll, IsReady;
      var spawned := SpawnAll(ready, s);
      SpawnEffect(ready, s);
      HandlesBelongToReady(oc, ready, s);
      forall step | step in ready ensures step.id in Ids(wf) {
        assert step in wf.steps;
      }
      CollectAllKeys(wf, hs, spawned, id);
      forall j ensures FallenIn(wf, hs, spawned, j, id) <==> FiresIn(wf, oc, s, j, id) {
      }
    }
  }

  /** The states of a run are those of the steps and of whatever fallbacks have been triggered to. */
  lemma {:induction false} KeysAre(wf: Workflow, oc: Oracle, n: nat, id: StepId)
    requires UniqueIds(wf)
    ensures id in Head(wf, oc, n).states <==> id in Ids(wf) || FiredBefore(wf, oc, n, id)
  {
    hide Head, Round, FiresIn, FiredBefore;
    HeadStep(wf, oc, 0);
    if n == 0 {
      FreshIs(wf);
      FiredNext(wf, oc, 0, id);
    } else {
      KeysAre(wf, oc, n - 1, id);
      HeadStep(wf, oc, n - 1);
      HeadsAreSane(wf, oc, n - 1);
      var before := Head(wf, oc, n - 1);
      RoundKeys(wf, oc, before, id);
      FiredNext(wf, oc, n - 1, id);
    }
  }

  lemma FiredNext(wf: Workflow, oc: Oracle, n: nat, id: StepId)
    ensures !FiredBefore(wf, oc, 0, id)
    ensures FiredBefore(wf, oc, n + 1, id) <==> FiredBefore(wf, oc, n, id) || exists j :: FiresIn(wf, oc, Head(wf, oc, n), j, id)
  {
    hide Head, FiresIn;
    if FiredBefore(wf, oc, n + 1, id) {
      var k: nat, j :| k < n + 1 && Fires(wf, oc, k, j, id);
      assert k < n ==> FiredBefore(wf, oc, n, id);
    }
    if j :| FiresIn(wf, oc, Head(wf, oc, n), j, id) {
      assert Fires(wf, oc, n, j, id);
    }
  }

  /** Exactly the steps have states if and only if every fallback triggered so far was to a step. */
  lemma KeysAreStepsIff(wf: Workflow, oc: Oracle, n: nat)
    requires UniqueIds(wf)
    ensures Head(wf, oc, n).states.Keys == Ids(wf) <==> forall target :: FiredBefore(wf, oc, n, target) ==> target in Ids(wf)
  {
    hide Head, FiredBefore;
    forall id {
      KeysAre(wf, oc, n, id);
    }
  }

  // Fallbacks to missing steps

  /** Entries of ids that no step has stay pending, and each triggered fallback to such an id left one. */
  ghost predicate Strays(wf: Workflow, s: RunState) {
    && (forall id <- s.states :: id in Ids(wf) || s.states[id].Pending?)
    && (forall step <- wf.steps :: step.FallsBack() && step.id in s.states && s.states[step.id].Failed? ==>
      step.Policy().value.target in s.states)
    && (s.phase == Finished ==> AllTerminal(s.states))
  }

  lemma StraysCollect(wf: Workflow, oc: Oracle, step: Step, h: Handle, s: RunState)
    requires UniqueIds(wf) && Collectable(wf, oc, step, h, s) && Strays(wf, s)
    ensures Strays(wf, CollectOne(wf, h, s))
  {
    hide CollectOne, ReadAll;
    CollectEffect(wf, step, h, s);
    forall other | other in wf.steps && other.id == step.id ensures other == step {
      SameStep(wf, other, step);
    }
  }

  lemma StraysRound(wf: Workflow, oc: Oracle, s: RunState)
    requires UniqueIds(wf) && NoneRunning(s.states) && Strays(wf, s)
    ensures Strays(wf, Round(wf, oc, s))
  {
    var ready := FindReady(wf.steps, s.states);
    if s.phase == Looping && ready != [] {
      hide FindReady, SpawnAll, CollectOne, Round, Strays, Collectable;
      StraysSpawn(wf, s);
      forall step, h, t | Strays(wf, t) && Collectable(wf, oc, step, h, t) ensures Strays(wf, CollectOne(wf, h, t)) {
        StraysCollect(wf, oc, step, h, t);
      }
      RoundKeeps(wf, oc, s, t => Strays(wf, t));
    } else {
      RoundEnded(wf, oc, s);
    }
  }

  lemma StraysSpawn(wf: Workflow, s: RunState)
    requires Strays(wf, s) && s.phase == Looping
    ensures Strays(wf, SpawnAll(FindReady(wf.steps, s.states), s))
  {
    hide SpawnAll;
    var ready := FindReady(wf.steps, s.states);
    SpawnEffect(ready, s);
    forall id | id in IdsOf(ready) ensures id in Ids(wf) {
      var step :| step in ready && step.id == id;
    }
  }

  lemma NoStraysYet(wf: Workflow)
    ensures Strays(wf, Fresh(wf))
  {
    FreshIs(wf);
  }

  lemma {:induction false} HeadsHaveStrays(wf: Workflow, oc: Oracle, n: nat)
    requires UniqueIds(wf)
    ensures Strays(wf, Head(wf, oc, n))
  {
    hide Head, Round, Strays;
    if n == 0 {
      HeadStep(wf, oc, 0);
      NoStraysYet(wf);
    } else {
      HeadStep(wf, oc, n - 1);
      HeadsHaveStrays(wf, oc, n - 1);
      HeadsAreSane(wf, oc, n - 1);
      if Head(wf, oc, n - 1).phase == Looping {
        StraysRound(wf, oc, Head(wf, oc, n - 1));
      }
    }
  }

  ghost predicate FallenBackFrom(wf: Workflow, states: States, target: StepId) {
    exists step <- wf.steps ::
      step.FallsBack() && step.Policy().value.target == target && step.id in states && states[step.id].Failed?
  }

  /** Validation lets a wrapped fallback name a step that does not exist. Once such a fallback has been
      triggered, its target stays pending for ever and the run cannot finish any more. */
  lemma MissingFallbackNeverFinishes(wf: Workflow, oc: Oracle, n: nat, target: StepId)
    requires UniqueIds(wf) && target !in Ids(wf)
    requires FiredBefore(wf, oc, n, target) || FallenBackFrom(wf, Head(wf, oc, n).states, target)
    ensures
      var s := Head(wf, oc, n);
      s.phase != Finished && target in s.states && s.states[target].Pending?
  {
    hide Head, FiredBefore;
    HeadsHaveStrays(wf, oc, n);
    KeysAre(wf, oc, n, target);
  }

  /** A run can only finish if every fallback triggered in it was to a step. */
  lemma FinishedRunsFellBackToSteps(wf: Workflow, oc: Oracle, n: nat)
    requires UniqueIds(wf) && Head(wf, oc, n).phase == Finished
    ensures Head(wf, oc, n).states.Keys == Ids(wf)
  {
    hide Head, FiredBefore;
    KeysAreStepsIff(wf, oc, n);
    forall target | FiredBefore(wf, oc, n, target) ensures target in Ids(wf) {
      if target !in Ids(wf) {
        MissingFallbackNeverFinishes(wf, oc, n, target);
        assert false;
      }
    }
  }

  /** One step whose wrapped fallback names no step. */
  const ORPHAN := Workflow([Step("a", "", [], Some(Wrapped(None, Some("ghost"))), None)])

  /** Validation accepts this workflow. */
  lemma OrphanIsAccepted()
    ensures WellFormed(ORPHAN) && LiteralFallbacksPresent(ORPHAN)
  {
    IndependentIsWellFormed(ORPHAN);
  }

  /** Its only step falls back to a step that is not there, and from the second head on the run has ended
      in the deadlock error. */
  lemma {:induction false} ValidatedFallbackDeadlocks(n: nat)
    ensures WellFormed(ORPHAN) && LiteralFallbacksPresent(ORPHAN)
    ensures n >= 1 ==> Head(ORPHAN, NoAnswers, n).states == map["a" := Failed("", 1), "ghost" := Pending]
    ensures Report(Head(ORPHAN, NoAnswers, n)) == if n >= 2 then Deadlock else OutOfRounds
  {
    hide Head, Round, WellFormed, LiteralFallbacksPresent;
    OrphanIsAccepted();
    if n == 0 {
      FreshIs(ORPHAN);
      HeadStep(ORPHAN, NoAnswers, 0);
    } else {
      ValidatedFallbackDeadlocks(n - 1);
      HeadStep(ORPHAN, NoAnswers, n - 1);
      if n == 1 {
        FreshIs(ORPHAN);
        OrphanStarts();
        OrphanRound(Fresh(ORPHAN));
      } else if n == 2 {
        OrphanIdles(Head(ORPHAN, NoAnswers, 1));
      }
    }
  }

  lemma OrphanStarts()
    ensures Fresh(ORPHAN).states == map["a" := Pending] && Fresh(ORPHAN).phase == Looping
  {
    assert ORPHAN.steps[0] in ORPHAN.steps;
  }

  lemma OrphanReady(s: RunState)
    requires s.phase == Looping && s.states == map["a" := Pending]
    ensures FindReady(ORPHAN.steps, s.states) == ORPHAN.steps
  {
    hide SpawnAll;
    var step := ORPHAN.steps[0];
    assert ORPHAN.steps == [step] && [step][..0] == [];
    assert IsReady(step, s.states);
  }

  lemma OrphanSpawned(s: RunState)
    requires s.phase == Looping && s.states == map["a" := Pending]
    ensures SpawnAll(ORPHAN.steps, s).states == map["a" := Running] && SpawnAll(ORPHAN.steps, s).phase == Looping
  {
    hide FindReady;
    var step := ORPHAN.steps[0];
    assert ORPHAN.steps == [step] && [step][..0] == [];
  }

  lemma OrphanCollects(h: Handle, t: RunState)
    requires h == Handle("a", None, []) && t.phase == Looping && t.states == map["a" := Running]
    ensures CollectOne(ORPHAN, h, t).phase == Looping
    ensures CollectOne(ORPHAN, h, t).states == map["a" := Failed("", 1), "ghost" := Pending]
  {
    hide CollectOne;
    assert ReadAll([]) == Reading("", None);
    CollectEffect(ORPHAN, ORPHAN.steps[0], h, t);
  }

  lemma OrphanRound(s: RunState)
    requires s.phase == Looping && s.states == map["a" := Pending]
    ensures Round(ORPHAN, NoAnswers, s).phase == Looping
    ensures Round(ORPHAN, NoAnswers, s).states == map["a" := Failed("", 1), "ghost" := Pending]
  {
    hide FindReady, SpawnAll, Handles, CollectOne, Round, MidBatch, Batch;
    OrphanReady(s);
    OrphanSpawned(s);
    var ready, hs := RoundBatch(ORPHAN, NoAnswers, s);
    HandlesAre(NoAnswers, ready, s);
    assert ready[0].id == "a" && hs[..0] == [];
    OrphanCollects(hs[0], SpawnAll(ready, s));
  }

  lemma OrphanIdles(s: RunState)
    requires s.phase == Looping && s.states == map["a" := Failed("", 1), "ghost" := Pending]
    ensures Round(ORPHAN, NoAnswers, s) == s.(phase := Deadlocked)
  {
    NoneReady(ORPHAN.steps, s.states);
    assert !s.states["ghost"].IsTerminal();
  }
}
