/** What every loop head of every fresh run satisfies, whatever the agents answer. */
module EngineSafety {
  import opened Wrappers
  import opened Workflows
  import opened Engine
  import opened EngineBatch

  /** A run without checkpoint, with an empty shared context and no earlier executions. */
  function Fresh(wf: Workflow): RunState {
    Start(wf, None, map[], [])
  }

  /** The n-th loop head of the fresh run. */
  function Head(wf: Workflow, oc: Oracle, n: nat): RunState {
    RunFor(wf, oc, Fresh(wf), n)
  }

  lemma HeadStep(wf: Workflow, oc: Oracle, n: nat)
    ensures Head(wf, oc, 0) == Fresh(wf)
    ensures Head(wf, oc, n + 1) == Round(wf, oc, Head(wf, oc, n))
    ensures Head(wf, oc, n).phase != Looping ==> Head(wf, oc, n + 1) == Head(wf, oc, n)
  {
  }

  lemma FreshIs(wf: Workflow)
    ensures Fresh(wf).phase == Looping && Fresh(wf).vars == Fresh(wf).shared == map[] && Fresh(wf).log == []
    ensures Fresh(wf).metrics == Metrics(|wf.steps|, 0, 0, 0, 0)
    ensures Fresh(wf).states.Keys == Ids(wf)
    ensures forall id <- Fresh(wf).states :: Fresh(wf).states[id].Pending?
  {
  }

  // Step states

  /** Every step has a state, failures record one attempt, a step that retries never fails or is
      skipped, and the two variable stores agree. */
  ghost predicate Sane(wf: Workflow, oc: Oracle, s: RunState) {
    && Ids(wf) <= s.states.Keys
    && (FallbackTargetsExist(wf) || NeverFallsBack(wf, oc) ==> s.states.Keys == Ids(wf))
    && (forall id <- s.states :: s.states[id].Failed? ==> s.states[id].attempts == 1)
    && (forall step <- wf.steps :: step.Retries() && step.id in s.states ==>
      !s.states[step.id].Failed? && !s.states[step.id].Skipped?)
    && s.vars == s.shared
  }

  lemma SaneSpawn(wf: Workflow, oc: Oracle, s: RunState)
    requires Sane(wf, oc, s)
    ensures Sane(wf, oc, SpawnAll(FindReady(wf.steps, s.states), s))
  {
    hide SpawnAll, FindReady, IsReady, NeverFallsBack, FallbackTargetsExist;
    var ready := FindReady(wf.steps, s.states);
    SpawnEffect(ready, s);
    forall id | id in IdsOf(ready) ensures id in Ids(wf) {
      var step :| step in ready && step.id == id;
    }
  }

  lemma SaneCollect(wf: Workflow, oc: Oracle, step: Step, h: Handle, s: RunState)
    requires UniqueIds(wf) && Collectable(wf, oc, step, h, s) && Sane(wf, oc, s)
    ensures Sane(wf, oc, CollectOne(wf, h, s))
  {
    hide CollectOne, ReadAll;
    CollectEffect(wf, step, h, s);
    assert step.FallsBack() && NeverFallsBack(wf, oc) ==> Succeeds(oc, step.id, Executions(s.log, h.id) - 1);
    forall other | other in wf.steps && other.id == step.id ensures other == step {
      SameStep(wf, other, step);
    }
  }

  lemma SaneRound(wf: Workflow, oc: Oracle, s: RunState)
    requires UniqueIds(wf) && NoneRunning(s.states) && Sane(wf, oc, s)
    ensures Sane(wf, oc, Round(wf, oc, s))
  {
    var ready := FindReady(wf.steps, s.states);
    if s.phase == Looping && ready != [] {
      SaneSpawn(wf, oc, s);
      forall step, h, t | Sane(wf, oc, t) && Collectable(wf, oc, step, h, t) ensures Sane(wf, oc, CollectOne(wf, h, t)) {
        SaneCollect(wf, oc, step, h, t);
      }
      RoundKeeps(wf, oc, s, t => Sane(wf, oc, t));
    }
  }

  /** In a fresh run no step is Running at a loop head, so the engine never waits: a pass that does
      not end the run spawns at least one agent. All recorded attempts are 1, retried steps are never
      Failed, and exactly the workflow's steps have states when fallback targets exist. */
  lemma {:induction false} HeadsAreSane(wf: Workflow, oc: Oracle, n: nat)
    requires UniqueIds(wf)
    ensures Sane(wf, oc, Head(wf, oc, n))
    ensures Head(wf, oc, n).phase != Aborted ==> NoneRunning(Head(wf, oc, n).states)
    ensures Head(wf, oc, n).phase == Looping && FindReady(wf.steps, Head(wf, oc, n).states) == [] ==>
      Head(wf, oc, n + 1).phase != Looping
  {
    hide Head, Round;
    if n == 0 {
      HeadStep(wf, oc, 0);
      FreshIs(wf);
    } else {
      HeadStep(wf, oc, n - 1);
      HeadsAreSane(wf, oc, n - 1);
      var before := Head(wf, oc, n - 1);
      if before.phase == Looping {
        SaneRound(wf, oc, before);
        RoundLeavesNoneRunning(wf, oc, before);
      }
    }
    HeadStep(wf, oc, n);
    IdleEnds(wf, oc, Head(wf, oc, n));
  }

  lemma IdleEnds(wf: Workflow, oc: Oracle, s: RunState)
    ensures s.phase == Looping && FindReady(wf.steps, s.states) == [] && NoneRunning(s.states) ==>
      Round(wf, oc, s).phase != Looping
  {
  }

  lemma NothingLogged(wf: Workflow)
    ensures Causal(wf, []) && LinearExtension(wf, []) && Grounded(wf, Fresh(wf))
  {
  }

  // Causality

  /** Each spawn happened in a state that met all of its step's dependency conditions. */
  ghost predicate Causal(wf: Workflow, log: seq<Spawn>) {
    forall e <- log, step <- wf.steps :: step.id == e.id ==> DependenciesMet(step, e.states)
  }

  lemma ReadyUnaffectedByMates(wf: Workflow, s: RunState, i: nat)
    requires i < |FindReady(wf.steps, s.states)|
    ensures
      var ready := FindReady(wf.steps, s.states);
      DependenciesMet(ready[i], SpawnAll(ready[..i], s).states)
  {
    var ready := FindReady(wf.steps, s.states);
    SpawnEffect(ready[..i], s);
    assert IsReady(ready[i], s.states);
    forall d | d in ready[i].dependsOn ensures Meets(d, SpawnAll(ready[..i], s).states) {
      assert Meets(d, s.states);
      forall mate | mate in ready[..i] ensures mate.id != d.stepId {
        assert mate in ready;
        assert IsReady(mate, s.states);
      }
    }
  }

  lemma CausalSpawn(wf: Workflow, s: RunState)
    requires UniqueIds(wf) && Causal(wf, s.log)
    ensures Causal(wf, SpawnAll(FindReady(wf.steps, s.states), s).log)
  {
    hide FindReady, SpawnAll, DependenciesMet, UniqueIds;
    var ready := FindReady(wf.steps, s.states);
    var log := SpawnAll(ready, s).log;
    SpawnLog(ready, s);
    forall e, step | e in log && step in wf.steps && step.id == e.id ensures DependenciesMet(step, e.states) {
      var k :| 0 <= k < |log| && log[k] == e;
      if k < |s.log| {
        assert e == s.log[k] && e in s.log;
      } else {
        SpawnLogAt(ready, s, k - |s.log|);
        assert ready[k - |s.log|] in ready;
        SameStep(wf, ready[k - |s.log|], step);
        ReadyUnaffectedByMates(wf, s, k - |s.log|);
      }
    }
  }

  /** Only spawning writes to the log. */
  lemma RoundLog(wf: Workflow, oc: Oracle, s: RunState)
    ensures Round(wf, oc, s).log ==
      if s.phase == Looping then SpawnAll(FindReady(wf.steps, s.states), s).log else s.log
  {
    hide CollectAll, Handles, FindReady;
    var ready := FindReady(wf.steps, s.states);
    CollectLog(wf, Handles(oc, ready, s), SpawnAll(ready, s));
  }

  /** Whenever a step becomes Running, all of its dependency conditions hold. */
  lemma {:induction false} SpawnsAreCausal(wf: Workflow, oc: Oracle, n: nat)
    requires UniqueIds(wf)
    ensures Causal(wf, Head(wf, oc, n).log)
  {
    hide Head, Round, SpawnAll, FindReady, Causal;
    if n == 0 {
      HeadStep(wf, oc, 0);
      FreshIs(wf);
      NothingLogged(wf);
    } else {
      HeadStep(wf, oc, n - 1);
      SpawnsAreCausal(wf, oc, n - 1);
      HeadsAreSane(wf, oc, n - 1);
      var before := Head(wf, oc, n - 1);
      if before.phase == Looping {
        RoundLog(wf, oc, before);
        CausalSpawn(wf, before);
      }
    }
  }

  /** No two steps of a batch depend on each other. */
  lemma BatchIsIndependent(wf: Workflow, states: States, a: Step, b: Step)
    requires a in FindReady(wf.steps, states) && b in FindReady(wf.steps, states)
    ensures !a.DependsOn(b.id)
  {
    assert IsReady(a, states) && IsReady(b, states);
    forall d | d in a.dependsOn ensures d.stepId != b.id {
      assert Meets(d, states);
    }
  }

  // Absorption, while no fallback is triggered

  /** Every terminal entry of the first map is still there in the second. */
  ghost predicate Keeps(before: States, after: States) {
    forall id <- before :: before[id].IsTerminal() ==> id in after && after[id] == before[id]
  }

  /** Without a triggered fallback a round never changes a terminal state, not even when it aborts. */
  lemma RoundAbsorbs(wf: Workflow, oc: Oracle, s: RunState)
    requires UniqueIds(wf) && NeverFallsBack(wf, oc) && NoneRunning(s.states)
    ensures Keeps(s.states, Round(wf, oc, s).states)
  {
    var ready := FindReady(wf.steps, s.states);
    if s.phase == Looping && ready != [] {
      SpawnEffect(ready, s);
      forall step | step in ready ensures step.id in s.states ==> s.states[step.id].Pending? {
        assert IsReady(step, s.states);
      }
      forall step, h, t: RunState | Keeps(s.states, t.states) && Collectable(wf, oc, step, h, t)
        ensures Keeps(s.states, CollectOne(wf, h, t).states)
      {
        CollectEffect(wf, step, h, t);
        assert step.FallsBack() ==> Succeeds(oc, step.id, Executions(t.log, h.id) - 1);
      }
      RoundKeeps(wf, oc, s, (t: RunState) => Keeps(s.states, t.states));
    }
  }

  /** Terminal states of a fresh run without triggered fallbacks last for ever. */
  lemma {:induction false} TerminalIsForever(wf: Workflow, oc: Oracle, n: nat, m: nat)
    requires UniqueIds(wf) && NeverFallsBack(wf, oc) && n <= m
    ensures Keeps(Head(wf, oc, n).states, Head(wf, oc, m).states)
  {
    hide Head, Round;
    if n < m {
      HeadStep(wf, oc, m - 1);
      TerminalIsForever(wf, oc, n, m - 1);
      HeadsAreSane(wf, oc, m - 1);
      if Head(wf, oc, m - 1).phase == Looping {
        RoundAbsorbs(wf, oc, Head(wf, oc, m - 1));
      }
    }
  }

  // The log is a linear extension of the dependency order

  /** Dependencies of executed steps are terminal, and terminal steps were executed. */
  ghost predicate Grounded(wf: Workflow, s: RunState) {
    && (forall e <- s.log, d :: (e.id, d) in Edges(wf) ==> d in s.states && s.states[d].IsTerminal())
    && (forall id <- s.states :: s.states[id].IsTerminal() ==> Logged(s.log, id))
  }

  ghost predicate Logged(log: seq<Spawn>, id: StepId) {
    exists e <- log :: e.id == id
  }

  /** Every execution of a dependency comes before every execution of a step that needs it, and there is one. */
  ghost predicate LinearExtension(wf: Workflow, log: seq<Spawn>) {
    && (forall i, j :: 0 <= i < |log| && 0 <= j < |log| && (log[i].id, log[j].id) in Edges(wf) ==> j < i)
    && (forall i, d :: 0 <= i < |log| && (log[i].id, d) in Edges(wf) ==> Logged(log[..i], d))
  }

  lemma LoggedExtends(log: seq<Spawn>, longer: seq<Spawn>, id: StepId)
    requires log <= longer && Logged(log, id)
    ensures Logged(longer, id)
  {
    var e :| e in log && e.id == id;
    assert e in longer;
  }

  /** What a batch adds to the log: pending steps whose dependencies are all terminal and logged. */
  lemma SpawnedEntry(wf: Workflow, s: RunState, k: nat)
    requires UniqueIds(wf) && Grounded(wf, s)
    requires |s.log| <= k < |SpawnAll(FindReady(wf.steps, s.states), s).log|
    ensures
      var e := SpawnAll(FindReady(wf.steps, s.states), s).log[k];
      && (e.id in s.states ==> s.states[e.id].Pending?)
      && forall d :: (e.id, d) in Edges(wf) ==> d in s.states && s.states[d].IsTerminal() && Logged(s.log, d)
  {
    hide SpawnAll, FindReady, IsReady, Edges;
    var ready := FindReady(wf.steps, s.states);
    var i := k - |s.log|;
    SpawnLog(ready, s);
    SpawnLogAt(ready, s, i);
    ReadyIsPending(wf, s, i);
    forall d | (ready[i].id, d) in Edges(wf) ensures d in s.states && s.states[d].IsTerminal() {
      ReadyNeedsTerminal(wf, s, i, d);
    }
  }

  lemma ReadyIsPending(wf: Workflow, s: RunState, i: nat)
    requires i < |FindReady(wf.steps, s.states)|
    ensures var id := FindReady(wf.steps, s.states)[i].id; id in s.states ==> s.states[id].Pending?
  {
    var step := FindReady(wf.steps, s.states)[i];
    assert step in FindReady(wf.steps, s.states);
    assert IsReady(step, s.states);
  }

  /** Appending entries that nothing needs, and whose own needs were logged, extends the order. */
  lemma ExtendLinear(wf: Workflow, log: seq<Spawn>, n: nat)
    requires n <= |log| && LinearExtension(wf, log[..n])
    requires forall i, j :: 0 <= i < |log| && n <= j < |log| ==> (log[i].id, log[j].id) !in Edges(wf)
    requires forall i, d :: n <= i < |log| && (log[i].id, d) in Edges(wf) ==> Logged(log[..n], d)
    ensures LinearExtension(wf, log)
  {
    var front := log[..n];
    assert forall k :: 0 <= k < n ==> log[k] == front[k];
    forall i, d | 0 <= i < |log| && (log[i].id, d) in Edges(wf) ensures Logged(log[..i], d) {
      if i < n {
        assert front[..i] == log[..i];
      } else {
        LoggedExtends(front, log[..i], d);
      }
    }
  }

  /** A batch extends the log: its steps need only terminal steps and nothing logged needs them. */
  lemma SpawnExtends(wf: Workflow, s: RunState)
    requires UniqueIds(wf) && Grounded(wf, s) && LinearExtension(wf, s.log)
    ensures LinearExtension(wf, SpawnAll(FindReady(wf.steps, s.states), s).log)
  {
    hide SpawnAll, FindReady, LinearExtension;
    var ready := FindReady(wf.steps, s.states);
    var n, log := |s.log|, SpawnAll(ready, s).log;
    SpawnLog(ready, s);
    assert log[..n] == s.log;
    forall i, j | 0 <= i < |log| && n <= j < |log| ensures (log[i].id, log[j].id) !in Edges(wf) {
      SpawnedEntry(wf, s, j);
      if i < n {
        assert log[i] == s.log[i];
      } else {
        SpawnedEntry(wf, s, i);
      }
    }
    forall i, d | n <= i < |log| && (log[i].id, d) in Edges(wf) ensures Logged(log[..n], d) {
      SpawnedEntry(wf, s, i);
    }
    ExtendLinear(wf, log, n);
  }

  lemma ReadyNeedsTerminal(wf: Workflow, s: RunState, i: nat, d: StepId)
    requires UniqueIds(wf) && i < |FindReady(wf.steps, s.states)|
    requires (FindReady(wf.steps, s.states)[i].id, d) in Edges(wf)
    ensures d in s.states && s.states[d].IsTerminal()
  {
    var step := FindReady(wf.steps, s.states)[i];
    assert IsReady(step, s.states) && step in wf.steps;
    var t, dep :| t in wf.steps && dep in t.dependsOn && (t.id, dep.stepId) == (step.id, d);
    SameStep(wf, t, step);
    assert Meets(dep, s.states);
  }

  lemma TerminalLoggedSpawn(wf: Workflow, s: RunState)
    requires Grounded(wf, s)
    ensures TerminalLogged(SpawnAll(FindReady(wf.steps, s.states), s).log, SpawnAll(FindReady(wf.steps, s.states), s))
  {
    var ready := FindReady(wf.steps, s.states);
    SpawnLog(ready, s);
    SpawnEffect(ready, s);
    forall id | id in s.states && s.states[id].IsTerminal() ensures Logged(SpawnAll(ready, s).log, id) {
      LoggedExtends(s.log, SpawnAll(ready, s).log, id);
    }
  }

  lemma TerminalLoggedCollect(wf: Workflow, oc: Oracle, step: Step, h: Handle, t: RunState, log: seq<Spawn>)
    requires UniqueIds(wf) && TerminalLogged(log, t) && Collectable(wf, oc, step, h, t)
    ensures TerminalLogged(log, CollectOne(wf, h, t))
  {
    CollectEffect(wf, step, h, t);
    ExecutedIsLogged(t.log, h.id);
  }

  lemma TerminalLoggedRound(wf: Workflow, oc: Oracle, s: RunState)
    requires UniqueIds(wf) && NoneRunning(s.states) && Grounded(wf, s) && s.phase == Looping
    requires FindReady(wf.steps, s.states) != []
    ensures TerminalLogged(SpawnAll(FindReady(wf.steps, s.states), s).log, Round(wf, oc, s))
  {
    var log := SpawnAll(FindReady(wf.steps, s.states), s).log;
    TerminalLoggedSpawn(wf, s);
    forall step, h, t | TerminalLogged(log, t) && Collectable(wf, oc, step, h, t) ensures TerminalLogged(log, CollectOne(wf, h, t)) {
      TerminalLoggedCollect(wf, oc, step, h, t, log);
    }
    RoundKeeps(wf, oc, s, t => TerminalLogged(log, t));
  }

  lemma GroundedRound(wf: Workflow, oc: Oracle, s: RunState)
    requires UniqueIds(wf) && NeverFallsBack(wf, oc) && NoneRunning(s.states) && Grounded(wf, s) && s.phase == Looping
    ensures Grounded(wf, Round(wf, oc, s))
  {
    hide FindReady, SpawnAll, Edges, UniqueIds, NeverFallsBack;
    if FindReady(wf.steps, s.states) != [] {
      var log := SpawnAll(FindReady(wf.steps, s.states), s).log;
      TerminalLoggedRound(wf, oc, s);
      RoundAbsorbs(wf, oc, s);
      SpawnLog(FindReady(wf.steps, s.states), s);
      forall e, d | e in log && (e.id, d) in Edges(wf) ensures d in s.states && s.states[d].IsTerminal() {
        var k :| 0 <= k < |log| && log[k] == e;
        if k < |s.log| {
          assert e in s.log;
        } else {
          SpawnedEntry(wf, s, k);
        }
      }
    }
  }

  ghost predicate TerminalLogged(log: seq<Spawn>, t: RunState) {
    t.log == log && forall id <- t.states :: t.states[id].IsTerminal() ==> Logged(log, id)
  }

  lemma {:induction false} ExecutedIsLogged(log: seq<Spawn>, id: StepId)
    requires Executions(log, id) > 0
    ensures Logged(log, id)
  {
    var n := |log| - 1;
    if log[n].id == id {
      assert log[n] in log;
    } else {
      ExecutedIsLogged(log[..n], id);
      LoggedExtends(log[..n], log, id);
    }
  }

  /** Without triggered fallbacks, the execution log of every fresh run is a linear extension of the dependency order. */
  lemma {:induction false} LogIsLinearExtension(wf: Workflow, oc: Oracle, n: nat)
    requires UniqueIds(wf) && NeverFallsBack(wf, oc)
    ensures LinearExtension(wf, Head(wf, oc, n).log)
    ensures Grounded(wf, Head(wf, oc, n))
  {
    hide Head, Round, SpawnAll, FindReady, LinearExtension, Grounded;
    if n == 0 {
      HeadStep(wf, oc, 0);
      FreshIs(wf);
      NothingLogged(wf);
    } else {
      HeadStep(wf, oc, n - 1);
      LogIsLinearExtension(wf, oc, n - 1);
      HeadsAreSane(wf, oc, n - 1);
      var before := Head(wf, oc, n - 1);
      if before.phase == Looping {
        RoundLog(wf, oc, before);
        SpawnExtends(wf, before);
        GroundedRound(wf, oc, before);
      }
    }
  }
}
