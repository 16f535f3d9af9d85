/** Workflow definitions: steps, dependencies and failure policies, and what it means for
    the dependency relation to be well formed. */
module Workflows {
  import opened Wrappers
  import opened Graphs

  type StepId = string

  datatype Condition = OnSuccess | OnFailure | Always

  datatype Dependency = Dependency(stepId: StepId, condition: Condition)

  datatype FailureAction =
    | Skip
    | Abort
    | Fallback(target: StepId)
    | Retry(maxAttempts: nat)
    | Wrapped(retry: Option<nat>, fallback: Option<StepId>)
  {
    /** The canonical form of a policy; a wrapper may hold both parts or neither. */
    function Normalize(): (r: FailureAction)
      ensures !r.Wrapped?
      ensures !Wrapped? ==> r == this
      ensures r.Retry? <==> Retry? || (Wrapped? && retry.Some?)
      ensures Wrapped? && retry.Some? ==> r.maxAttempts == retry.value
      ensures r.Fallback? <==> Fallback? || (Wrapped? && retry.None? && fallback.Some?)
      ensures Wrapped? && r.Fallback? ==> r.target == fallback.value
      ensures r.Abort? <==> Abort?
    {
      match this
      case Wrapped(Some(n), _) => Retry(n)
      case Wrapped(None, Some(id)) => Fallback(id)
      case Wrapped(None, None) => Skip
      case _ => this
    }
  }

  datatype Step = Step(
    id: StepId,
    prompt: string,
    dependsOn: seq<Dependency>,
    onFailure: Option<FailureAction>,
    outputVar: Option<string>)
  {
    predicate DependsOn(other: StepId) {
      exists d <- dependsOn :: d.stepId == other
    }

    /** The normalized policy, if the step has one. */
    function Policy(): Option<FailureAction> {
      if onFailure.Some? then Some(onFailure.value.Normalize()) else None
    }

    predicate Retries() {
      Policy().Some? && Policy().value.Retry? && Policy().value.maxAttempts > 0
    }

    predicate FallsBack() {
      Policy().Some? && Policy().value.Fallback?
    }

    predicate Aborts() {
      Policy().Some? && Policy().value.Abort?
    }
  }

  datatype Workflow = Workflow(steps: seq<Step>)

  function IdsOf(steps: seq<Step>): set<StepId> {
    set s <- steps :: s.id
  }

  ghost predicate DistinctIds(steps: seq<Step>) {
    forall i, j :: 0 <= i < j < |steps| ==> steps[i].id != steps[j].id
  }

  function Ids(wf: Workflow): set<StepId> {
    IdsOf(wf.steps)
  }

  ghost predicate UniqueIds(wf: Workflow) {
    DistinctIds(wf.steps)
  }

  ghost predicate DependenciesPresent(wf: Workflow) {
    forall s <- wf.steps, d <- s.dependsOn :: d.stepId in Ids(wf)
  }

  /** Only the literal form is looked at: a wrapped fallback is not validated. */
  ghost predicate LiteralFallbacksPresent(wf: Workflow) {
    forall s <- wf.steps :: s.onFailure.Some? && s.onFailure.value.Fallback? ==> s.onFailure.value.target in Ids(wf)
  }

  /** The pairs (step, dependency) of the workflow. */
  function Edges(wf: Workflow): set<(StepId, StepId)> {
    set s <- wf.steps, d <- s.dependsOn :: (s.id, d.stepId)
  }

  ghost predicate Acyclic(wf: Workflow) {
    NoCycle(Edges(wf))
  }

  /** Everything that `check_no_cycles` needs in order to accept. */
  ghost predicate WellFormed(wf: Workflow) {
    UniqueIds(wf) && DependenciesPresent(wf) && Acyclic(wf)
  }

  lemma IdsSnoc(wf: Workflow, s: Step)
    ensures Ids(Workflow(wf.steps + [s])) == Ids(wf) + {s.id}
  {
    var all := wf.steps + [s];
    forall t | t in all ensures t in wf.steps || t == s {}
    forall t | t in wf.steps ensures t in all {}
    assert s in all by { assert all[|wf.steps|] == s; }
  }

  lemma UniqueSnoc(wf: Workflow, s: Step)
    ensures UniqueIds(Workflow(wf.steps + [s])) <==> UniqueIds(wf) && s.id !in Ids(wf)
  {
    var all := Workflow(wf.steps + [s]);
    if UniqueIds(all) {
      forall i, j | 0 <= i < j < |wf.steps| ensures wf.steps[i].id != wf.steps[j].id {
        assert all.steps[i].id != all.steps[j].id;
      }
      forall t | t in wf.steps ensures t.id != s.id {
        var i :| 0 <= i < |wf.steps| && wf.steps[i] == t;
        assert all.steps[i].id != all.steps[|wf.steps|].id;
      }
    }
  }

  /** Comparing the number of distinct ids with the number of steps detects exactly the duplicates. */
  lemma {:induction false} IdsCardinality(wf: Workflow)
    ensures |Ids(wf)| <= |wf.steps|
    ensures |Ids(wf)| == |wf.steps| <==> UniqueIds(wf)
    decreases |wf.steps|
  {
    if wf.steps != [] {
      var n := |wf.steps| - 1;
      var rest := Workflow(wf.steps[..n]);
      assert wf.steps == rest.steps + [wf.steps[n]];
      IdsCardinality(rest);
      IdsSnoc(rest, wf.steps[n]);
      UniqueSnoc(rest, wf.steps[n]);
      assert wf == Workflow(rest.steps + [wf.steps[n]]);
    }
  }

  /** With unique ids, a step is determined by its id. */
  lemma SameStep(wf: Workflow, s: Step, t: Step)
    requires UniqueIds(wf) && s in wf.steps && t in wf.steps && s.id == t.id
    ensures s == t
  {
    var i :| 0 <= i < |wf.steps| && wf.steps[i] == s;
    var j :| 0 <= j < |wf.steps| && wf.steps[j] == t;
  }

  /** Without dependencies, distinct ids are enough. */
  lemma IndependentIsWellFormed(wf: Workflow)
    requires UniqueIds(wf) && forall s <- wf.steps :: s.dependsOn == []
    ensures WellFormed(wf)
  {
    assert Edges(wf) == {};
    RankedHasNoCycle(Edges(wf), map[]);
  }
}
