/** Workflow validation: Kahn's algorithm as cycle detection and as topological ordering. */
module Kahn {
  import opened Wrappers
  import opened Graphs
  import opened Workflows

  /** One entry per dependency declaration, in declaration order: (dependency, dependent). */
  type Arc = (StepId, StepId)

  /** The arcs declared before dependency k of step i. */
  function ArcsBefore(steps: seq<Step>, i: nat, k: nat): seq<Arc>
    requires i <= |steps| && (if i < |steps| then k <= |steps[i].dependsOn| else k == 0)
    decreases i, k
  {
    if k > 0 then ArcsBefore(steps, i, k - 1) + [(steps[i].dependsOn[k - 1].stepId, steps[i].id)]
    else if i > 0 then ArcsBefore(steps, i - 1, |steps[i - 1].dependsOn|)
    else []
  }

  function Arcs(steps: seq<Step>): seq<Arc> {
    ArcsBefore(steps, |steps|, 0)
  }

  /** The number of arcs into v that do not come from a finished node. */
  function Incoming(arcs: seq<Arc>, v: StepId, finished: set<StepId>): nat {
    if arcs == [] then 0
    else
      var a := arcs[|arcs| - 1];
      Incoming(arcs[..|arcs| - 1], v, finished) + if a.1 == v && a.0 !in finished then 1 else 0
  }

  /** The targets of the arcs leaving u, with repetitions. */
  function Targets(arcs: seq<Arc>, u: StepId): seq<StepId> {
    if arcs == [] then []
    else
      var a := arcs[|arcs| - 1];
      Targets(arcs[..|arcs| - 1], u) + if a.0 == u then [a.1] else []
  }

  lemma ArcsSnoc(arcs: seq<Arc>, a: Arc)
    ensures forall v, finished ::
      Incoming(arcs + [a], v, finished) == Incoming(arcs, v, finished) + if a.1 == v && a.0 !in finished then 1 else 0
    ensures forall u :: Targets(arcs + [a], u) == Targets(arcs, u) + if a.0 == u then [a.1] else []
  {
    assert (arcs + [a])[..|arcs|] == arcs;
  }

  lemma {:induction false} IncomingZero(arcs: seq<Arc>, v: StepId, finished: set<StepId>)
    ensures Incoming(arcs, v, finished) == 0 <==> forall a <- arcs :: a.1 == v ==> a.0 in finished
  {
    if arcs != [] {
      var n := |arcs| - 1;
      IncomingZero(arcs[..n], v, finished);
      assert arcs == arcs[..n] + [arcs[n]];
    }
  }

  /** Finishing u takes away exactly as many incoming arcs of v as u has targets equal to v. */
  lemma {:induction false} IncomingFinish(arcs: seq<Arc>, v: StepId, finished: set<StepId>, u: StepId)
    requires u !in finished
    ensures Incoming(arcs, v, finished) == Incoming(arcs, v, finished + {u}) + multiset(Targets(arcs, u))[v]
  {
    if arcs != [] {
      IncomingFinish(arcs[..|arcs| - 1], v, finished, u);
    }
  }

  lemma {:induction false} ArcsBeforeAre(steps: seq<Step>, i: nat, k: nat, a: Arc)
    requires i <= |steps| && (if i < |steps| then k <= |steps[i].dependsOn| else k == 0)
    ensures a in ArcsBefore(steps, i, k) <==>
      (a.1, a.0) in Edges(Workflow(steps[..i])) ||
      (i < |steps| && a.1 == steps[i].id && exists d <- steps[i].dependsOn[..k] :: d.stepId == a.0)
    decreases i, k
  {
    if k > 0 {
      ArcsBeforeAre(steps, i, k - 1, a);
      var deps := steps[i].dependsOn;
      assert deps[..k] == deps[..k - 1] + [deps[k - 1]];
    } else if i > 0 {
      var last := steps[i - 1];
      ArcsBeforeAre(steps, i - 1, |last.dependsOn|, a);
      assert last.dependsOn[..|last.dependsOn|] == last.dependsOn;
      EdgesSnoc(steps[..i - 1], last, (a.1, a.0));
      assert steps[..i] == steps[..i - 1] + [last];
    }
  }

  lemma EdgesSnoc(steps: seq<Step>, s: Step, e: (StepId, StepId))
    ensures e in Edges(Workflow(steps + [s])) <==>
      e in Edges(Workflow(steps)) || (e.0 == s.id && exists d <- s.dependsOn :: d.stepId == e.1)
  {
    var all := Workflow(steps + [s]);
    if e in Edges(all) {
      var t, d :| t in all.steps && d in t.dependsOn && (t.id, d.stepId) == e;
      assert t in steps || t == s;
    }
    if e in Edges(Workflow(steps)) {
      var t, d :| t in steps && d in t.dependsOn && (t.id, d.stepId) == e;
      assert t in all.steps;
    }
    assert all.steps[|steps|] == s;
  }

  /** The arcs are the edges of the workflow, reversed. */
  lemma ArcsAreEdges(wf: Workflow, a: Arc)
    ensures a in Arcs(wf.steps) <==> (a.1, a.0) in Edges(wf)
  {
    ArcsBeforeAre(wf.steps, |wf.steps|, 0, a);
    assert wf.steps[..|wf.steps|] == wf.steps;
  }

  /** The maps built so far describe exactly the given arcs. */
  ghost predicate Describes(inDegree: map<StepId, nat>, adjacency: map<StepId, seq<StepId>>, arcs: seq<Arc>) {
    && inDegree.Keys <= adjacency.Keys
    && (forall v <- inDegree :: inDegree[v] == Incoming(arcs, v, {}))
    && (forall u :: Targets(arcs, u) == if u in adjacency then adjacency[u] else [])
  }

  method RegisterDependency(
    dep: StepId, id: StepId, inDegree: map<StepId, nat>, adjacency: map<StepId, seq<StepId>>, ghost arcs: seq<Arc>)
    returns (inDegree': map<StepId, nat>, adjacency': map<StepId, seq<StepId>>)
    requires Describes(inDegree, adjacency, arcs) && id in inDegree
    ensures Describes(inDegree', adjacency', arcs + [(dep, id)])
    ensures inDegree'.Keys == inDegree.Keys
  {
    hide Incoming, Targets;
    ArcsSnoc(arcs, (dep, id));
    var dependents := if dep in adjacency then adjacency[dep] else [];
    adjacency' := adjacency[dep := dependents + [id]];
    inDegree' := inDegree[id := inDegree[id] + 1];
  }

  method RegisterNodes(steps: seq<Step>) returns (inDegree: map<StepId, nat>, adjacency: map<StepId, seq<StepId>>)
    ensures inDegree.Keys == Ids(Workflow(steps))
    ensures Describes(inDegree, adjacency, [])
  {
    inDegree, adjacency := map[], map[];
    for i := 0 to |steps|
      invariant inDegree.Keys == adjacency.Keys == Ids(Workflow(steps[..i]))
      invariant forall v <- inDegree :: inDegree[v] == 0 && adjacency[v] == []
    {
      IdsSnoc(Workflow(steps[..i]), steps[i]);
      assert steps[..i + 1] == steps[..i] + [steps[i]];
      var id := steps[i].id;
      inDegree := inDegree[id := if id in inDegree then inDegree[id] else 0];
      adjacency := adjacency[id := if id in adjacency then adjacency[id] else []];
    }
    assert steps[..|steps|] == steps;
  }

  lemma IdPresent(steps: seq<Step>, i: nat)
    requires i < |steps|
    ensures steps[i].id in Ids(Workflow(steps))
  {
  }

  /** The first two loops of both algorithms. */
  method BuildGraph(steps: seq<Step>) returns (inDegree: map<StepId, nat>, adjacency: map<StepId, seq<StepId>>)
    ensures inDegree.Keys == Ids(Workflow(steps))
    ensures Describes(inDegree, adjacency, Arcs(steps))
  {
    hide Describes, Ids;
    inDegree, adjacency := RegisterNodes(steps);
    for i := 0 to |steps|
      invariant inDegree.Keys == Ids(Workflow(steps))
      invariant Describes(inDegree, adjacency, ArcsBefore(steps, i, 0))
    {
      var s := steps[i];
      IdPresent(steps, i);
      for k := 0 to |s.dependsOn|
        invariant inDegree.Keys == Ids(Workflow(steps))
        invariant Describes(inDegree, adjacency, ArcsBefore(steps, i, k))
      {
        inDegree, adjacency :=
          RegisterDependency(s.dependsOn[k].stepId, s.id, inDegree, adjacency, ArcsBefore(steps, i, k));
      }
    }
  }

  /** The initial queue: the nodes of in-degree zero, in an arbitrary order. */
  method Roots(inDegree: map<StepId, nat>) returns (queue: seq<StepId>)
    ensures Distinct(queue)
    ensures forall v :: v in queue <==> v in inDegree && inDegree[v] == 0
  {
    queue := [];
    var rest := set v <- inDegree | inDegree[v] == 0;
    while rest != {}
      invariant forall v <- rest :: v in inDegree && inDegree[v] == 0 && v !in queue
      invariant forall v <- inDegree :: inDegree[v] == 0 ==> v in rest || v in queue
      invariant forall v <- queue :: v in inDegree && inDegree[v] == 0
      invariant Distinct(queue)
      decreases rest
    {
      var v :| v in rest;
      queue := queue + [v];
      rest := rest - {v};
    }
  }

  /** The inner loop of both algorithms. The precondition is what keeps `*deg -= 1` from
      underflowing; both callers establish it. */
  method Relax(inDegree: map<StepId, nat>, neighbors: seq<StepId>, queue: seq<StepId>)
    returns (degree: map<StepId, nat>, queue': seq<StepId>)
    requires forall v <- inDegree :: multiset(neighbors)[v] <= inDegree[v]
    requires Distinct(queue) && forall v <- queue :: v in inDegree && inDegree[v] == 0
    ensures Relaxed(inDegree, neighbors, queue, degree, queue')
  {
    degree, queue' := inDegree, queue;
    for i := 0 to |neighbors|
      invariant degree.Keys == inDegree.Keys
      invariant forall v <- degree :: degree[v] + multiset(neighbors[..i])[v] == inDegree[v]
      invariant Distinct(queue') && queue <= queue'
      invariant forall v :: v in queue' <==> v in queue || (v in degree && degree[v] == 0 < inDegree[v])
    {
      assert neighbors[..i + 1] == neighbors[..i] + [neighbors[i]];
      assert neighbors == neighbors[..i + 1] + neighbors[i + 1..];
      var v := neighbors[i];
      if v in degree {
        assert multiset(neighbors[..i + 1])[v] <= multiset(neighbors)[v];
        degree := degree[v := degree[v] - 1];
        if degree[v] == 0 {
          queue' := queue' + [v];
        }
      }
    }
    assert neighbors[..|neighbors|] == neighbors;
  }

  /** What holds before each pop: `order` lists the nodes popped so far. */
  ghost predicate Progress(wf: Workflow, inDegree: map<StepId, nat>, queue: seq<StepId>, order: seq<StepId>) {
    && inDegree.Keys == Ids(wf)
    && Distinct(order + queue)
    && (forall v <- inDegree :: inDegree[v] == Incoming(Arcs(wf.steps), v, SetOf(order)))
    && (forall v <- inDegree :: v in order + queue <==> inDegree[v] == 0)
    && (forall v <- order + queue :: v in inDegree)
    && DependenciesFirst(wf, order)
  }

  ghost predicate DependenciesFirst(wf: Workflow, order: seq<StepId>) {
    forall k, d :: 0 <= k < |order| && (order[k], d) in Edges(wf) ==> d in order[..k]
  }

  lemma PopKeepsOrder(wf: Workflow, inDegree: map<StepId, nat>, queue: seq<StepId>, order: seq<StepId>)
    requires Progress(wf, inDegree, queue, order) && queue != []
    ensures queue[0] in inDegree && queue[0] !in order && queue[0] !in queue[1..]
    ensures Distinct(queue[1..])
    ensures DependenciesFirst(wf, order + [queue[0]])
  {
    var node := queue[0];
    var all := order + queue;
    assert all[|order|] == node && node in all;
    forall x | x in order ensures x != node {
      var i :| 0 <= i < |order| && order[i] == x;
      assert all[i] == x;
    }
    forall i | 0 <= i < |queue[1..]| ensures queue[1..][i] != node {
      assert all[|order| + 1 + i] == queue[1..][i];
    }
    forall i, j | 0 <= i < j < |queue[1..]| ensures queue[1..][i] != queue[1..][j] {
      assert all[|order| + 1 + i] == queue[1..][i] && all[|order| + 1 + j] == queue[1..][j];
    }
    IncomingZero(Arcs(wf.steps), node, SetOf(order));
    var next := order + [node];
    forall k, d | 0 <= k < |next| && (next[k], d) in Edges(wf) ensures d in next[..k] {
      if k < |order| {
        assert next[..k] == order[..k];
      } else {
        ArcsAreEdges(wf, (d, node));
        assert next[..k] == order;
      }
    }
  }

  /** The queue after relaxing holds exactly the unpopped nodes whose in-degree is now zero. */
  ghost predicate Relaxed(
    inDegree: map<StepId, nat>, neighbors: seq<StepId>, queue: seq<StepId>, degree: map<StepId, nat>, queue': seq<StepId>)
  {
    && degree.Keys == inDegree.Keys
    && (forall v <- degree :: degree[v] + multiset(neighbors)[v] == inDegree[v])
    && Distinct(queue') && queue <= queue'
    && (forall v :: v in queue' <==> v in queue || (v in degree && degree[v] == 0 < inDegree[v]))
  }

  lemma DistinctAppend<T>(s: seq<T>, t: seq<T>)
    requires Distinct(s) && Distinct(t) && forall x <- t :: x !in s
    ensures Distinct(s + t)
  {
    forall i, j | 0 <= i < j < |s + t| ensures (s + t)[i] != (s + t)[j] {
      if i < |s| <= j {
        assert t[j - |s|] in t && s[i] in s;
      }
    }
  }

  lemma DistinctParts<T>(s: seq<T>, t: seq<T>)
    requires Distinct(s + t)
    ensures Distinct(s) && Distinct(t) && forall x <- t :: x !in s
  {
    assert forall i :: 0 <= i < |s| ==> (s + t)[i] == s[i];
    assert forall j {:trigger t[j]} :: 0 <= j < |t| ==> (s + t)[|s| + j] == t[j];
  }

  lemma RelaxKeepsDistinct(
    wf: Workflow, inDegree: map<StepId, nat>, queue: seq<StepId>, order: seq<StepId>, degree: map<StepId, nat>,
    queue': seq<StepId>)
    requires Progress(wf, inDegree, queue, order) && queue != []
    requires Relaxed(inDegree, Targets(Arcs(wf.steps), queue[0]), queue[1..], degree, queue')
    ensures Distinct(order + [queue[0]] + queue')
    ensures forall v <- degree :: v in order + [queue[0]] + queue' <==> degree[v] == 0
    ensures forall v <- order + [queue[0]] + queue' :: v in degree
  {
    var next := order + [queue[0]];
    var old' := order + queue;
    assert old' == next + queue[1..];
    DistinctParts(next, queue[1..]);
    forall v | v in queue' ensures v !in next {
      if v !in queue[1..] {
        assert v !in old';
      }
    }
    DistinctAppend(next, queue');
    forall v | v in degree ensures v in next + queue' <==> degree[v] == 0 {
      assert v in old' <==> v in next || v in queue[1..];
      assert v in next + queue' <==> v in next || v in queue';
    }
    forall v | v in next + queue' ensures v in degree {
      assert v in next ==> v in old';
      assert v in queue[1..] ==> v in old';
    }
  }

  /** One iteration of the outer loop keeps `Progress` for the next pop. */
  lemma RelaxKeepsProgress(
    wf: Workflow, inDegree: map<StepId, nat>, queue: seq<StepId>, order: seq<StepId>, degree: map<StepId, nat>,
    queue': seq<StepId>)
    requires Progress(wf, inDegree, queue, order) && queue != []
    requires Relaxed(inDegree, Targets(Arcs(wf.steps), queue[0]), queue[1..], degree, queue')
    ensures Progress(wf, degree, queue', order + [queue[0]])
  {
    var next := order + [queue[0]];
    PopKeepsOrder(wf, inDegree, queue, order);
    RelaxKeepsDistinct(wf, inDegree, queue, order, degree, queue');
    assert SetOf(next) == SetOf(order) + {queue[0]};
    forall v | v in degree ensures degree[v] == Incoming(Arcs(wf.steps), v, SetOf(next)) {
      IncomingFinish(Arcs(wf.steps), v, SetOf(order), queue[0]);
    }
  }

  /** Pops one node and relaxes its neighbors: the body shared by the two outer loops. */
  method Visit(
    wf: Workflow, inDegree: map<StepId, nat>, adjacency: map<StepId, seq<StepId>>, queue: seq<StepId>,
    ghost order: seq<StepId>)
    returns (node: StepId, degree: map<StepId, nat>, queue': seq<StepId>)
    requires Progress(wf, inDegree, queue, order) && queue != []
    requires forall u :: Targets(Arcs(wf.steps), u) == if u in adjacency then adjacency[u] else []
    ensures node in Ids(wf) && |order| < |Ids(wf)|
    ensures Progress(wf, degree, queue', order + [node])
  {
    node := queue[0];
    degree, queue' := inDegree, queue[1..];
    PopKeepsOrder(wf, inDegree, queue, order);
    DistinctBound(order + queue, Ids(wf));
    if node in adjacency {
      CountFits(wf, inDegree, queue, order);
      degree, queue' := Relax(inDegree, adjacency[node], queue[1..]);
    }
    RelaxKeepsProgress(wf, inDegree, queue, order, degree, queue');
  }

  /** When the queue runs dry, as many nodes as steps were popped exactly for well formed workflows. */
  lemma DryQueueDecides(wf: Workflow, inDegree: map<StepId, nat>, order: seq<StepId>)
    requires Progress(wf, inDegree, [], order)
    ensures |order| <= |wf.steps|
    ensures |order| == |wf.steps| <==> WellFormed(wf)
    ensures |order| == |wf.steps| ==> SetOf(order) == Ids(wf)
  {
    assert order + [] == order;
    IdsCardinality(wf);
    DistinctBound(order, Ids(wf));
    if |order| == |wf.steps| {
      var rank := map v <- order :: Position(order, v);
      forall e | e in Edges(wf) ensures e.0 in order && e.1 in order && rank[e.1] < rank[e.0] {
        assert e.0 in SetOf(order);
        var k := Position(order, e.0);
        assert e.1 in order[..k];
        PositionBound(order, e.1, k);
      }
      RankedHasNoCycle(Edges(wf), rank);
      forall s, d | s in wf.steps && d in s.dependsOn ensures d.stepId in Ids(wf) {
        assert (s.id, d.stepId) in Edges(wf);
      }
    }
    if WellFormed(wf) && |order| < |wf.steps| {
      var left := Ids(wf) - SetOf(order);
      assert order + [] == order;
      assert forall v <- order :: v in inDegree;
      if left == {} {
        forall v | v in Ids(wf) ensures v in SetOf(order) {
          assert v !in left;
        }
        assert SetOf(order) == Ids(wf);
        SetOfBound(order);
      }
      forall v | v in left ensures Continues(Edges(wf), v, left) {
        IncomingZero(Arcs(wf.steps), v, SetOf(order));
        var a :| a in Arcs(wf.steps) && a.1 == v && a.0 !in SetOf(order);
        ArcsAreEdges(wf, a);
        assert (v, a.0) in Edges(wf);
      }
      EndlessSetHasCycle(Edges(wf), left);
    }
  }

  function Position(order: seq<StepId>, v: StepId): (k: nat)
    requires v in order
    ensures k < |order| && order[k] == v && v !in order[..k]
  {
    if order[0] == v then 0
    else
      assert order == [order[0]] + order[1..];
      var k := Position(order[1..], v);
      assert order[..k + 1] == [order[0]] + order[1..][..k];
      k + 1
  }

  lemma PositionBound(order: seq<StepId>, v: StepId, k: nat)
    requires k <= |order| && v in order[..k]
    ensures Position(order, v) < k
  {
    var p := Position(order, v);
    assert forall j :: 0 <= j < p ==> order[..p][j] == order[j];
    var i :| 0 <= i < k && order[..k][i] == v;
  }

  lemma {:induction false} SetOfBound<T>(s: seq<T>)
    ensures |SetOf(s)| <= |s|
  {
    if s != [] {
      var n := |s| - 1;
      SetOfBound(s[..n]);
      assert s == s[..n] + [s[n]];
      assert SetOf(s) == SetOf(s[..n]) + {s[n]};
    }
  }

  lemma DryOrder(wf: Workflow, inDegree: map<StepId, nat>, order: seq<StepId>)
    requires Progress(wf, inDegree, [], order)
    ensures Distinct(order) && DependenciesFirst(wf, order)
  {
    assert order + [] == order;
  }

  lemma StartsWithProgress(wf: Workflow, inDegree: map<StepId, nat>, queue: seq<StepId>)
    requires inDegree.Keys == Ids(wf) && Distinct(queue)
    requires forall v <- inDegree :: inDegree[v] == Incoming(Arcs(wf.steps), v, {})
    requires forall v :: v in queue <==> v in inDegree && inDegree[v] == 0
    ensures Progress(wf, inDegree, queue, [])
  {
    assert SetOf<StepId>([]) == {};
    assert [] + queue == queue;
  }

  /** Cycle detection. For every initial queue order and for any workflow at all, validated or not,
      it accepts exactly when ids are unique, dependencies exist and no dependency cycle does. */
  method CheckNoCycles(wf: Workflow) returns (ok: bool)
    ensures ok <==> WellFormed(wf)
  {
    var inDegree, adjacency := BuildGraph(wf.steps);
    var queue := Roots(inDegree);
    var visited := 0;
    ghost var order := [];
    StartsWithProgress(wf, inDegree, queue);
    while queue != []
      invariant Progress(wf, inDegree, queue, order)
      invariant forall u :: Targets(Arcs(wf.steps), u) == if u in adjacency then adjacency[u] else []
      invariant visited == |order|
      decreases |Ids(wf)| - |order|
    {
      var node, degree, queue' := Visit(wf, inDegree, adjacency, queue, order);
      visited := visited + 1;
      inDegree, queue, order := degree, queue', order + [node];
    }
    DryQueueDecides(wf, inDegree, order);
    ok := visited == |wf.steps|;
  }

  /** No node has more arcs from the popped node than its remaining in-degree. */
  lemma CountFits(wf: Workflow, inDegree: map<StepId, nat>, queue: seq<StepId>, order: seq<StepId>)
    requires Progress(wf, inDegree, queue, order) && queue != []
    ensures forall v <- inDegree :: multiset(Targets(Arcs(wf.steps), queue[0]))[v] <= inDegree[v]
    ensures forall v <- queue[1..] :: v in inDegree && inDegree[v] == 0
  {
    PopKeepsOrder(wf, inDegree, queue, order);
    forall v | v in inDegree ensures multiset(Targets(Arcs(wf.steps), queue[0]))[v] <= inDegree[v] {
      IncomingFinish(Arcs(wf.steps), v, SetOf(order), queue[0]);
    }
    forall v | v in queue[1..] ensures v in inDegree && inDegree[v] == 0 {
      assert v in order + queue;
    }
  }

  /** The order lists every step once, each after all the steps it depends on. */
  ghost predicate IsTopologicalOrder(wf: Workflow, order: seq<Step>) {
    && multiset(order) == multiset(wf.steps)
    && forall k, d :: 0 <= k < |order| && d in order[k].dependsOn ==> exists j :: 0 <= j < k && order[j].id == d.stepId
  }

  /** The step map: a later step with the same id replaces an earlier one. */
  method IndexSteps(steps: seq<Step>) returns (stepMap: map<StepId, Step>)
    ensures stepMap.Keys == Ids(Workflow(steps))
    ensures forall id <- stepMap :: stepMap[id] in steps && stepMap[id].id == id
  {
    stepMap := map[];
    for i := 0 to |steps|
      invariant stepMap.Keys == Ids(Workflow(steps[..i]))
      invariant forall id <- stepMap :: stepMap[id] in steps && stepMap[id].id == id
    {
      IdsSnoc(Workflow(steps[..i]), steps[i]);
      assert steps[..i + 1] == steps[..i] + [steps[i]];
      stepMap := stepMap[steps[i].id := steps[i]];
    }
    assert steps[..|steps|] == steps;
  }

  ghost predicate Names(wf: Workflow, order: seq<StepId>, steps: seq<Step>) {
    |steps| == |order| && forall k :: 0 <= k < |order| ==> steps[k] in wf.steps && steps[k].id == order[k]
  }

  lemma NamesSnoc(wf: Workflow, order: seq<StepId>, steps: seq<Step>, s: Step)
    requires Names(wf, order, steps) && s in wf.steps
    ensures Names(wf, order + [s.id], steps + [s])
  {
  }

  lemma {:induction false} DistinctCounts<T>(s: seq<T>)
    requires Distinct(s)
    ensures forall x :: multiset(s)[x] == if x in s then 1 else 0
  {
    if s != [] {
      var n := |s| - 1;
      DistinctCounts(s[..n]);
      assert s == s[..n] + [s[n]];
    }
  }

  lemma SameMembers<T>(s: seq<T>, t: seq<T>)
    requires Distinct(s) && Distinct(t) && forall x :: x in s <==> x in t
    ensures multiset(s) == multiset(t)
  {
    DistinctCounts(s);
    DistinctCounts(t);
    assert forall x :: multiset(s)[x] == multiset(t)[x];
  }

  lemma NamesEveryStep(wf: Workflow, order: seq<StepId>, result: seq<Step>)
    requires UniqueIds(wf) && Distinct(order) && SetOf(order) == Ids(wf) && |result| == |order| && Names(wf, order, result)
    ensures multiset(result) == multiset(wf.steps)
  {
    forall i, j | 0 <= i < j < |result| ensures result[i] != result[j] {
      assert order[i] != order[j];
    }
    forall i, j | 0 <= i < j < |wf.steps| ensures wf.steps[i] != wf.steps[j] {
      assert wf.steps[i].id != wf.steps[j].id;
    }
    forall s | s in wf.steps ensures s in result {
      assert s.id in SetOf(order);
      var k :| 0 <= k < |order| && order[k] == s.id;
      SameStep(wf, s, result[k]);
    }
    forall s | s in result ensures s in wf.steps {
      var k :| 0 <= k < |result| && result[k] == s;
    }
    SameMembers(result, wf.steps);
  }

  lemma OrderOfStepsIsTopological(wf: Workflow, order: seq<StepId>, result: seq<Step>)
    requires WellFormed(wf) && Distinct(order) && SetOf(order) == Ids(wf) && DependenciesFirst(wf, order)
    requires |order| == |wf.steps| && Names(wf, order, result)
    ensures IsTopologicalOrder(wf, result)
  {
    forall k, d | 0 <= k < |result| && d in result[k].dependsOn
      ensures exists j :: 0 <= j < k && result[j].id == d.stepId
    {
      assert (order[k], d.stepId) in Edges(wf);
      assert d.stepId in order[..k];
      var j :| 0 <= j < k && order[..k][j] == d.stepId;
      assert result[j].id == d.stepId;
    }
    NamesEveryStep(wf, order, result);
  }

  /** Topological ordering succeeds on exactly the workflows that cycle detection accepts, and the
      lookup of a popped node in the step map never fails. */
  method TopologicalOrder(wf: Workflow) returns (result: Option<seq<Step>>)
    ensures result.Some? <==> WellFormed(wf)
    ensures result.Some? ==> IsTopologicalOrder(wf, result.value)
  {
    var stepMap := IndexSteps(wf.steps);
    var inDegree, adjacency := BuildGraph(wf.steps);
    var queue := Roots(inDegree);
    var steps: seq<Step> := [];
    ghost var order := [];
    StartsWithProgress(wf, inDegree, queue);
    while queue != []
      invariant Progress(wf, inDegree, queue, order)
      invariant forall u :: Targets(Arcs(wf.steps), u) == if u in adjacency then adjacency[u] else []
      invariant Names(wf, order, steps)
      decreases |Ids(wf)| - |order|
    {
      var node, degree, queue' := Visit(wf, inDegree, adjacency, queue, order);
      NamesSnoc(wf, order, steps, stepMap[node]);
      steps := steps + [stepMap[node]];
      inDegree, queue, order := degree, queue', order + [node];
    }
    DryQueueDecides(wf, inDegree, order);
    if |steps| == |wf.steps| {
      DryOrder(wf, inDegree, order);
      OrderOfStepsIsTopological(wf, order, steps);
      result := Some(steps);
    } else {
      result := None;
    }
  }

  datatype ValidationError =
    | DuplicateIds
    | DependencyNotFound(step: StepId, dependency: StepId)
    | FallbackNotFound(target: StepId, step: StepId)
    | DagCycle

  /** Every dependency and every literal fallback of the step names a step. */
  predicate Sound(wf: Workflow, s: Step) {
    && (forall d <- s.dependsOn :: d.stepId in Ids(wf))
    && (s.onFailure.Some? && s.onFailure.value.Fallback? ==> s.onFailure.value.target in Ids(wf))
  }

  /** The k-th dependency of the i-th step is the first defect. */
  ghost predicate DependencyDefect(wf: Workflow, i: int, k: int, e: ValidationError) {
    && 0 <= i < |wf.steps| && 0 <= k < |wf.steps[i].dependsOn|
    && (forall s <- wf.steps[..i] :: Sound(wf, s))
    && (forall d <- wf.steps[i].dependsOn[..k] :: d.stepId in Ids(wf))
    && wf.steps[i].dependsOn[k].stepId !in Ids(wf)
    && e == DependencyNotFound(wf.steps[i].id, wf.steps[i].dependsOn[k].stepId)
  }

  /** The literal fallback of the i-th step is the first defect. */
  ghost predicate FallbackDefect(wf: Workflow, i: int, e: ValidationError) {
    && 0 <= i < |wf.steps|
    && (forall s <- wf.steps[..i] :: Sound(wf, s))
    && (forall d <- wf.steps[i].dependsOn :: d.stepId in Ids(wf))
    && wf.steps[i].onFailure.Some? && wf.steps[i].onFailure.value.Fallback?
    && wf.steps[i].onFailure.value.target !in Ids(wf)
    && e == FallbackNotFound(wf.steps[i].onFailure.value.target, wf.steps[i].id)
  }

  /** Validation accepts exactly the well formed workflows whose literal fallbacks exist. Duplicates are
      reported before anything else, then the first missing dependency or fallback in step order, and a
      cycle only when nothing else is wrong. */
  method Validate(wf: Workflow) returns (r: Result<(), ValidationError>)
    ensures r.Ok? <==> WellFormed(wf) && LiteralFallbacksPresent(wf)
    ensures r == Err(DuplicateIds) <==> !UniqueIds(wf)
    ensures r.Err? && r.error.DependencyNotFound? ==> exists i, k :: DependencyDefect(wf, i, k, r.error)
    ensures r.Err? && r.error.FallbackNotFound? ==> exists i :: FallbackDefect(wf, i, r.error)
    ensures r == Err(DagCycle) <==>
      UniqueIds(wf) && DependenciesPresent(wf) && LiteralFallbacksPresent(wf) && !Acyclic(wf)
  {
    var stepIds := Ids(wf);
    IdsCardinality(wf);
    if |stepIds| != |wf.steps| {
      return Err(DuplicateIds);
    }
    for i := 0 to |wf.steps|
      invariant forall s <- wf.steps[..i] :: Sound(wf, s)
    {
      var s := wf.steps[i];
      assert wf.steps[..i + 1] == wf.steps[..i] + [s];
      for k := 0 to |s.dependsOn|
        invariant forall d <- s.dependsOn[..k] :: d.stepId in Ids(wf)
      {
        var dep := s.dependsOn[k];
        assert s.dependsOn[..k + 1] == s.dependsOn[..k] + [dep];
        if dep.stepId !in stepIds {
          assert s in wf.steps && dep in s.dependsOn;
          r := Err(DependencyNotFound(s.id, dep.stepId));
          assert DependencyDefect(wf, i, k, r.error);
          return;
        }
      }
      assert s.dependsOn[..|s.dependsOn|] == s.dependsOn;
      if s.onFailure.Some? && s.onFailure.value.Fallback? && s.onFailure.value.target !in stepIds {
        assert s in wf.steps;
        r := Err(FallbackNotFound(s.onFailure.value.target, s.id));
        assert FallbackDefect(wf, i, r.error);
        return;
      }
    }
    assert wf.steps[..|wf.steps|] == wf.steps;
    SoundMeansPresent(wf);
    var ok := CheckNoCycles(wf);
    r := if ok then Ok(()) else Err(DagCycle);
  }

  lemma SoundMeansPresent(wf: Workflow)
    requires forall s <- wf.steps :: Sound(wf, s)
    ensures DependenciesPresent(wf) && LiteralFallbacksPresent(wf)
  {
  }
}
