/** When every agent succeeds, rounds are the levels of the dependency order. */
module EngineLevels {
  import opened Graphs
  import opened Workflows
  import opened Engine
  import opened EngineBatch
  import opened EngineRounds
  import opened EngineSafety
  import opened EngineProgress
  import opened EngineFate
  import opened EngineAccounts

  /** One more than the deepest of the first k dependencies, and 0 without dependencies. */
  ghost function LevelOver(wf: Workflow, step: Step, k: nat): nat
    requires WellFormed(wf) && step in wf.steps && k <= |step.dependsOn|
    decreases Height(wf, step.id), k
  {
    if k == 0 then 0
    else
      var target := Target(wf, step, step.dependsOn[k - 1]);
      var rest, through := LevelOver(wf, step, k - 1), 1 + LevelOver(wf, target, |target.dependsOn|);
      if through > rest then through else rest
  }

  ghost function Level(wf: Workflow, step: Step): nat
    requires WellFormed(wf) && step in wf.steps
  {
    LevelOver(wf, step, |step.dependsOn|)
  }

  lemma LevelOverStep(wf: Workflow, step: Step, k: nat)
    requires WellFormed(wf) && step in wf.steps && 0 < k <= |step.dependsOn|
    ensures
      var rest, through := LevelOver(wf, step, k - 1), 1 + Level(wf, Target(wf, step, step.dependsOn[k - 1]));
      LevelOver(wf, step, k) == if through > rest then through else rest
  {
    hide Target;
  }

  lemma {:induction false} LevelOverBounds(wf: Workflow, step: Step, k: nat, i: nat)
    requires WellFormed(wf) && step in wf.steps && i < k <= |step.dependsOn|
    ensures Level(wf, Target(wf, step, step.dependsOn[i])) < LevelOver(wf, step, k)
  {
    hide Level, LevelOver, Target;
    LevelOverStep(wf, step, k);
    if i < k - 1 {
      LevelOverBounds(wf, step, k - 1, i);
    }
  }

  lemma {:induction false} LevelOverReached(wf: Workflow, step: Step, k: nat) returns (i: nat)
    requires WellFormed(wf) && step in wf.steps && 0 < k <= |step.dependsOn|
    ensures i < k && LevelOver(wf, step, k) == 1 + Level(wf, Target(wf, step, step.dependsOn[i]))
  {
    hide Level, Target;
    LevelOverStep(wf, step, k);
    i := k - 1;
    if LevelOver(wf, step, k) == LevelOver(wf, step, k - 1) && k > 1 {
      i := LevelOverReached(wf, step, k - 1);
    }
  }

  // The level is the length of the longest dependency chain

  lemma {:induction false} ChainsAreShort(wf: Workflow, step: Step, p: seq<StepId>)
    requires WellFormed(wf) && step in wf.steps && IsPath(Edges(wf), p) && |p| > 0 && p[0] == step.id
    ensures |p| - 1 <= Level(wf, step)
    decreases |p|
  {
    if |p| > 1 {
      assert (p[0], p[1]) in Edges(wf);
      var t, d :| t in wf.steps && d in t.dependsOn && (t.id, d.stepId) == (p[0], p[1]);
      SameStep(wf, t, step);
      var target := Target(wf, step, d);
      assert forall k :: 0 <= k < |p[1..]| ==> p[1..][k] == p[k + 1];
      ChainsAreShort(wf, target, p[1..]);
      var i :| 0 <= i < |step.dependsOn| && step.dependsOn[i] == d;
      LevelOverBounds(wf, step, |step.dependsOn|, i);
    }
  }

  lemma {:induction false} LongChain(wf: Workflow, step: Step) returns (p: seq<StepId>)
    requires WellFormed(wf) && step in wf.steps
    ensures IsPath(Edges(wf), p) && |p| == Level(wf, step) + 1 && p[0] == step.id
    decreases Height(wf, step.id)
  {
    if step.dependsOn == [] {
      p := [step.id];
    } else {
      var i := LevelOverReached(wf, step, |step.dependsOn|);
      var target := Target(wf, step, step.dependsOn[i]);
      var rest := LongChain(wf, target);
      p := [step.id] + rest;
      assert (step.id, target.id) in Edges(wf);
      forall k | 0 <= k < |p| - 1 ensures (p[k], p[k + 1]) in Edges(wf) {
        if k > 0 {
          assert (rest[k - 1], rest[k]) in Edges(wf);
        }
      }
    }
  }

  /** A step's level is the number of edges of the longest dependency chain that starts at it. */
  lemma LevelIsLongestChain(wf: Workflow, step: Step)
    requires WellFormed(wf) && step in wf.steps
    ensures forall p: seq<StepId> :: |p| > 0 && p[0] == step.id && IsPath(Edges(wf), p) ==> |p| - 1 <= Level(wf, step)
    ensures exists p: seq<StepId> :: |p| > 0 && p[0] == step.id && IsPath(Edges(wf), p) && |p| - 1 == Level(wf, step)
  {
    forall p: seq<StepId> | |p| > 0 && p[0] == step.id && IsPath(Edges(wf), p) ensures |p| - 1 <= Level(wf, step) {
      ChainsAreShort(wf, step, p);
    }
    var p := LongChain(wf, step);
  }

  // Rounds

  ghost predicate AllSucceed(oc: Oracle) {
    forall id, k: nat :: Succeeds(oc, id, k)
  }

  ghost predicate NoFailureConditions(wf: Workflow) {
    forall s <- wf.steps, d <- s.dependsOn :: d.condition != OnFailure
  }

  /** Exactly the steps below level k are completed, after one execution each; the others are untouched. */
  ghost predicate DoneBelow(wf: Workflow, k: nat, s: RunState)
    requires WellFormed(wf)
  {
    forall step <- wf.steps ::
      && step.id in s.states
      && (if Level(wf, step) < k then s.states[step.id].Completed? else s.states[step.id].Pending?)
      && Executions(s.log, step.id) == if Level(wf, step) < k then 1 else 0
  }

  lemma ReadyIsLevel(wf: Workflow, k: nat, s: RunState, step: Step)
    requires WellFormed(wf) && NoFailureConditions(wf) && DoneBelow(wf, k, s) && step in wf.steps
    ensures step in FindReady(wf.steps, s.states) <==> Level(wf, step) == k
  {
    hide FindReady, Level, LevelOver, Executions;
    LevelAboveDependencies(wf, step);
    if Level(wf, step) <= k {
      forall d | d in step.dependsOn ensures Meets(d, s.states) {
        var target := Target(wf, step, d);
        assert Level(wf, target) < k;
      }
    } else {
      var d :| d in step.dependsOn && Level(wf, step) == 1 + Level(wf, Target(wf, step, d));
      assert !Meets(d, s.states);
    }
  }

  lemma LevelAboveDependencies(wf: Workflow, step: Step)
    requires WellFormed(wf) && step in wf.steps
    ensures forall d <- step.dependsOn :: Level(wf, Target(wf, step, d)) < Level(wf, step)
    ensures Level(wf, step) > 0 ==> exists d <- step.dependsOn :: Level(wf, step) == 1 + Level(wf, Target(wf, step, d))
  {
    forall d | d in step.dependsOn ensures Level(wf, Target(wf, step, d)) < Level(wf, step) {
      var i :| 0 <= i < |step.dependsOn| && step.dependsOn[i] == d;
      LevelOverBounds(wf, step, |step.dependsOn|, i);
    }
    if step.dependsOn != [] {
      var i := LevelOverReached(wf, step, |step.dependsOn|);
      assert step.dependsOn[i] in step.dependsOn;
    }
  }

  /** Levels have no gaps. */
  lemma {:induction false} LevelsAreDense(wf: Workflow, step: Step, k: nat) returns (at: Step)
    requires WellFormed(wf) && step in wf.steps && k <= Level(wf, step)
    ensures at in wf.steps && Level(wf, at) == k
    decreases Height(wf, step.id)
  {
    LevelAboveDependencies(wf, step);
    if k == Level(wf, step) {
      at := step;
    } else {
      var d :| d in step.dependsOn && Level(wf, step) == 1 + Level(wf, Target(wf, step, d));
      at := LevelsAreDense(wf, Target(wf, step, d), k);
    }
  }

  lemma LevelRound(wf: Workflow, oc: Oracle, k: nat, s: RunState)
    requires WellFormed(wf) && NoFailureConditions(wf) && AllSucceed(oc)
    requires NoneRunning(s.states) && s.phase == Looping && DoneBelow(wf, k, s) && FindReady(wf.steps, s.states) != []
    ensures Round(wf, oc, s).phase == Looping && DoneBelow(wf, k + 1, Round(wf, oc, s))
  {
    hide FindReady, Round, Level, ReadAll, Executions;
    var ready, s' := FindReady(wf.steps, s.states), Round(wf, oc, s);
    RoundEffect(wf, oc, s);
    NobodyAborts(wf, oc, s);
    forall step | step in wf.steps
      ensures step.id in s'.states
      ensures if Level(wf, step) < k + 1 then s'.states[step.id].Completed? else s'.states[step.id].Pending?
      ensures Executions(s'.log, step.id) == if Level(wf, step) < k + 1 then 1 else 0
    {
      ReadyIsLevel(wf, k, s, step);
      NotReadyUnchanged(wf, s, step);
      assert Succeeds(oc, step.id, Executions(s.log, step.id));
    }
  }

  /** The number of levels: every step lies below it, and it is 0 only without steps. */
  ghost predicate IsDepth(wf: Workflow, depth: nat)
    requires WellFormed(wf)
  {
    (forall step <- wf.steps :: Level(wf, step) < depth) && (depth > 0 ==> exists step <- wf.steps :: Level(wf, step) == depth - 1)
  }

  lemma {:induction false} DepthOver(wf: Workflow, k: nat) returns (depth: nat)
    requires WellFormed(wf) && k <= |wf.steps|
    ensures forall i :: 0 <= i < k ==> Level(wf, wf.steps[i]) < depth
    ensures depth > 0 ==> exists i :: 0 <= i < k && Level(wf, wf.steps[i]) == depth - 1
  {
    hide Level, WellFormed;
    depth := 0;
    if k > 0 {
      depth := DepthOver(wf, k - 1);
      var level := Level(wf, wf.steps[k - 1]);
      if depth <= level {
        depth := level + 1;
      }
    }
  }

  lemma DepthExists(wf: Workflow)
    requires WellFormed(wf)
    ensures exists depth: nat :: IsDepth(wf, depth)
  {
    hide Level;
    var depth := DepthOver(wf, |wf.steps|);
    assert IsDepth(wf, depth);
  }

  ghost function Depth(wf: Workflow): (depth: nat)
    requires WellFormed(wf)
    ensures IsDepth(wf, depth)
  {
    DepthExists(wf);
    var depth: nat :| IsDepth(wf, depth);
    depth
  }

  lemma FreshBelow(wf: Workflow)
    requires WellFormed(wf)
    ensures DoneBelow(wf, 0, Fresh(wf)) && Fresh(wf).phase == Looping
  {
    FreshIs(wf);
    forall step | step in wf.steps ensures step.id in Ids(wf) {}
    assert forall id :: Executions([], id) == 0;
  }

  lemma SomeStepAt(wf: Workflow, depth: nat, k: nat) returns (at: Step)
    requires WellFormed(wf) && IsDepth(wf, depth) && k < depth
    ensures at in wf.steps && Level(wf, at) == k
  {
    hide Level;
    var deep :| deep in wf.steps && Level(wf, deep) == depth - 1;
    at := LevelsAreDense(wf, deep, k);
  }

  lemma {:induction false} LevelsDone(wf: Workflow, oc: Oracle, depth: nat, k: nat)
    requires WellFormed(wf) && NoFailureConditions(wf) && AllSucceed(oc) && IsDepth(wf, depth) && k <= depth
    ensures Head(wf, oc, k).phase == Looping && DoneBelow(wf, k, Head(wf, oc, k))
  {
    hide Head, Round, FindReady, Level, DoneBelow, IsDepth, NoFailureConditions, AllSucceed, WellFormed;
    if k == 0 {
      HeadStep(wf, oc, 0);
      FreshBelow(wf);
    } else {
      LevelsDone(wf, oc, depth, k - 1);
      HeadStep(wf, oc, k - 1);
      WellFormedIds(wf);
      HeadsAreSane(wf, oc, k - 1);
      var at := SomeStepAt(wf, depth, k - 1);
      ReadyIsLevel(wf, k - 1, Head(wf, oc, k - 1), at);
      LevelRound(wf, oc, k - 1, Head(wf, oc, k - 1));
    }
  }

  lemma WellFormedIds(wf: Workflow)
    requires WellFormed(wf)
    ensures UniqueIds(wf)
  {
  }

  /** Up to the depth, loop head k has completed exactly the levels below k, and its round spawns
      exactly the steps whose longest dependency chain has k edges. */
  lemma RoundsAreLevels(wf: Workflow, oc: Oracle, k: nat)
    requires WellFormed(wf) && NoFailureConditions(wf) && AllSucceed(oc) && k <= Depth(wf)
    ensures Head(wf, oc, k).phase == Looping && DoneBelow(wf, k, Head(wf, oc, k))
    ensures forall step <- wf.steps :: step in FindReady(wf.steps, Head(wf, oc, k).states) <==> Level(wf, step) == k
  {
    hide Head, FindReady, Level, DoneBelow;
    LevelsDone(wf, oc, Depth(wf), k);
    forall step | step in wf.steps
      ensures step in FindReady(wf.steps, Head(wf, oc, k).states) <==> Level(wf, step) == k
    {
      ReadyIsLevel(wf, k, Head(wf, oc, k), step);
    }
  }

  lemma AllCompleted(wf: Workflow, depth: nat, s: RunState)
    requires WellFormed(wf) && IsDepth(wf, depth) && DoneBelow(wf, depth, s) && s.states.Keys == Ids(wf)
    ensures forall id <- s.states :: s.states[id].Completed?
  {
    hide Level, Executions;
    forall id | id in s.states ensures s.states[id].Completed? {
      var step :| step in wf.steps && step.id == id;
    }
  }

  lemma {:induction false} SumOnes(steps: seq<Step>, states: States)
    requires forall s <- steps :: s.id in states && states[s.id].Completed?
    ensures Sum(steps, x => One(states, IsCompleted, x)) == |steps|
  {
    if steps != [] {
      var n := |steps| - 1;
      assert steps == steps[..n] + [steps[n]];
      SumOnes(steps[..n], states);
    }
  }

  /** The run never deadlocks: one pass after the last level it returns Completed, every step having
      been executed exactly once and counted as completed. */
  lemma LevelRunCompletes(wf: Workflow, oc: Oracle)
    requires WellFormed(wf) && NoFailureConditions(wf) && AllSucceed(oc)
    ensures
      var end := Head(wf, oc, Depth(wf) + 1);
      && Report(end).Returned? && Report(end).result.state == WorkflowCompleted
      && (forall step <- wf.steps :: Executions(end.log, step.id) == 1)
      && end.metrics.completedAgents == end.metrics.totalAgents == |wf.steps|
  {
    hide Head, Round, FindReady, Level, Executions, UnsettledBefore;
    var depth := Depth(wf);
    var s := Head(wf, oc, depth);
    RoundsAreLevels(wf, oc, depth);
    HeadsAreSane(wf, oc, depth);
    HeadStep(wf, oc, depth);
    AllCompleted(wf, depth, s);
    forall step | step in wf.steps ensures step.id in s.states {}
    NoneReady(wf.steps, s.states);
    IdleRound(wf, oc, s);
    NeverUnsettled(wf, oc, depth + 1);
    MetricsAreConserved(wf, oc, depth + 1);
    SumOnes(wf.steps, s.states);
  }
}
