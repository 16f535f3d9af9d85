/** Tracked runs: the agents of one run work concurrently, and each of them updates the run's entry in
    the shared map under the lock. */
module AsyncRuns {
  import opened Wrappers
  import opened Graphs

  datatype AgentState = Pending | Running | Paused | Completed | Failed | Killed {
    predicate IsTerminal() {
      Completed? || Failed? || Killed?
    }
  }

  datatype RunStatus = RunRunning | RunCompleted | RunFailed | RunPartiallyCompleted

  datatype AgentRunStatus = AgentRunStatus(state: AgentState, output: Option<string>, error: Option<string>, tokens: nat)

  type Agents = map<string, AgentRunStatus>

  datatype Tracked = Tracked(status: RunStatus, agents: Agents, totalTokens: nat)

  datatype AgentReturn = Returned(output: string, tokens: nat) | Errored(error: string)

  predicate AllDone(agents: Agents) {
    forall name <- agents :: agents[name].state.IsTerminal()
  }

  predicate AnyFailed(agents: Agents) {
    exists name <- agents :: agents[name].state.Failed?
  }

  predicate AllFailed(agents: Agents) {
    forall name <- agents :: agents[name].state.Failed?
  }

  /** The tokens of the named agents, whatever order they are visited in. */
  ghost function TokenSum(agents: Agents, names: set<string>): nat
    requires names <= agents.Keys
  {
    if names == {} then 0
    else
      var name :| name in names;
      agents[name].tokens + TokenSum(agents, names - {name})
  }

  lemma {:induction false} TokenSumMinus(agents: Agents, names: set<string>, name: string)
    requires names <= agents.Keys && name in names
    ensures TokenSum(agents, names) == agents[name].tokens + TokenSum(agents, names - {name})
  {
    var first :| first in names && TokenSum(agents, names) == agents[first].tokens + TokenSum(agents, names - {first});
    if first != name {
      TokenSumMinus(agents, names - {first}, name);
      TokenSumMinus(agents, names - {name}, first);
      assert names - {first} - {name} == names - {name} - {first};
    }
  }

  /** What updating the status of a run does. */
  ghost function Updated(run: Tracked): Tracked {
    if AllDone(run.agents) && run.agents != map[] then
      run.(status := if AllFailed(run.agents) then RunFailed else if AnyFailed(run.agents) then RunPartiallyCompleted else RunCompleted,
           totalTokens := TokenSum(run.agents, run.agents.Keys))
    else run
  }

  /** Whatever the entries are: the update classifies a run whose agents are all completed, failed or
      killed, and leaves any other run, and one without agents, as it is. */
  lemma UpdateClassifies(run: Tracked)
    ensures
      var over := run.agents != map[] && forall name <- run.agents :: run.agents[name].state in {Completed, Failed, Killed};
      var failures := set name <- run.agents | run.agents[name].state == Failed;
      && (!over ==> Updated(run) == run)
      && (over ==>
        && Updated(run).agents == run.agents && Updated(run).totalTokens == TokenSum(run.agents, run.agents.Keys)
        && (Updated(run).status == RunFailed <==> failures == run.agents.Keys)
        && (Updated(run).status == RunCompleted <==> failures == {})
        && (Updated(run).status == RunPartiallyCompleted <==> failures != {} && failures != run.agents.Keys))
  {
    hide TokenSum;
    var failures := set name <- run.agents | run.agents[name].state == Failed;
    assert AllFailed(run.agents) <==> failures == run.agents.Keys;
    assert AnyFailed(run.agents) <==> failures != {} by {
      if name :| name in failures {
        assert run.agents[name].state.Failed?;
      }
      if AnyFailed(run.agents) {
        var name :| name in run.agents && run.agents[name].state.Failed?;
        assert name in failures;
      }
    }
  }

  function Marked(run: Tracked, name: string): Tracked {
    if name in run.agents then run.(agents := run.agents[name := run.agents[name].(state := Running)]) else run
  }

  function Entered(entry: AgentRunStatus, result: AgentReturn): AgentRunStatus {
    match result
    case Returned(output, tokens) => entry.(state := Completed, output := Some(output), tokens := tokens)
    case Errored(error) => entry.(state := Failed, error := Some(error))
  }

  function Written(run: Tracked, name: string, result: AgentReturn): Tracked {
    if name in run.agents then run.(agents := run.agents[name := Entered(run.agents[name], result)]) else run
  }

  const UNSTARTED := AgentRunStatus(Pending, None, None, 0)

  function Launched(names: seq<string>): Tracked {
    Tracked(RunRunning, map name <- names :: UNSTARTED, 0)
  }

  /** The entry of one run; every method is one critical section of a task. */
  class RunState {
    var status: RunStatus
    var agents: Agents
    var totalTokens: nat

    function View(): Tracked
      reads this
    {
      Tracked(status, agents, totalTokens)
    }

    constructor (names: seq<string>)
      ensures View() == Launched(names)
    {
      status, agents, totalTokens := RunRunning, map[], 0;
      new;
      for i := 0 to |names|
        invariant View() == Launched(names[..i])
      {
        agents := agents[names[i] := UNSTARTED];
      }
      assert names[..|names|] == names;
    }

    method MarkRunning(name: string)
      modifies this
      ensures View() == Marked(old(View()), name)
    {
      if name in agents {
        agents := agents[name := agents[name].(state := Running)];
      }
    }

    method Finish(name: string, result: AgentReturn)
      modifies this
      ensures View() == Updated(Written(old(View()), name, result))
    {
      if name in agents {
        agents := agents[name := Entered(agents[name], result)];
      }
      UpdateStatus();
    }

    method UpdateStatus()
      modifies this
      ensures View() == Updated(old(View()))
    {
      if AllDone(agents) && agents != map[] {
        status := if AllFailed(agents) then RunFailed else if AnyFailed(agents) then RunPartiallyCompleted else RunCompleted;
        totalTokens := 0;
        var rest := agents.Keys;
        while rest != {}
          invariant rest <= agents.Keys && agents == old(agents)
          invariant status == Updated(old(View())).status
          invariant totalTokens + TokenSum(agents, rest) == TokenSum(agents, agents.Keys)
        {
          var name :| name in rest;
          TokenSumMinus(agents, rest, name);
          totalTokens := totalTokens + agents[name].tokens;
          rest := rest - {name};
        }
      }
    }
  }

  // Interleavings

  /** A task: spawned, marked as running, with a permit, its result written, finished. */
  datatype Pc = Spawned | Waiting | Working | Reported | Done

  /** `tasks` holds the tasks spawned so far; `closed` says that the last update has been made. */
  datatype World = World(run: Tracked, tasks: seq<Pc>, permits: nat, closed: bool)

  datatype Action = Spawn | Mark(i: nat) | Take(i: nat) | Write(i: nat) | Release(i: nat) | Close

  datatype Job = Job(names: seq<string>, results: seq<AgentReturn>, maxConcurrency: nat) {
    predicate Valid() {
      |results| == |names|
    }
  }

  function Begin(job: Job): World {
    World(Launched(job.names), [], job.maxConcurrency, false)
  }

  predicate Enabled(job: Job, w: World, a: Action) {
    match a
    case Spawn => |w.tasks| < |job.names|
    case Mark(i) => i < |w.tasks| && w.tasks[i].Spawned?
    case Take(i) => i < |w.tasks| && w.tasks[i].Waiting? && w.permits > 0
    case Write(i) => i < |w.tasks| && w.tasks[i].Working?
    case Release(i) => i < |w.tasks| && w.tasks[i].Reported?
    case Close => !w.closed && |w.tasks| == |job.names| && forall pc <- w.tasks :: pc.Done?
  }

  /** An action that is not enabled changes nothing. */
  ghost function Perform(job: Job, w: World, a: Action): World
    requires job.Valid() && |w.tasks| <= |job.names|
  {
    if !Enabled(job, w, a) then w
    else
      match a
      case Spawn => w.(tasks := w.tasks + [Spawned])
      case Mark(i) => w.(run := Marked(w.run, job.names[i]), tasks := w.tasks[i := Waiting])
      case Take(i) => w.(permits := w.permits - 1, tasks := w.tasks[i := Working])
      case Write(i) => w.(run := Updated(Written(w.run, job.names[i], job.results[i])), tasks := w.tasks[i := Reported])
      case Release(i) => w.(permits := w.permits + 1, tasks := w.tasks[i := Done])
      case Close => w.(run := Updated(w.run), closed := true)
  }

  ghost function Play(job: Job, w: World, actions: seq<Action>): (w': World)
    requires job.Valid() && |w.tasks| <= |job.names|
    ensures |w'.tasks| <= |job.names|
  {
    if actions == [] then w else Perform(job, Play(job, w, actions[..|actions| - 1]), actions[|actions| - 1])
  }

  ghost function Reached(job: Job, actions: seq<Action>): (w: World)
    requires job.Valid()
    ensures |w.tasks| <= |job.names|
  {
    Play(job, Begin(job), actions)
  }

  // What a run's status says

  /** How the returned results classify the run. */
  function Verdict(results: seq<AgentReturn>): RunStatus {
    if forall r <- results :: r.Errored? then RunFailed
    else if exists r <- results :: r.Errored? then RunPartiallyCompleted
    else RunCompleted
  }

  function TotalTokens(results: seq<AgentReturn>): nat {
    if results == [] then 0
    else
      var last := results[|results| - 1];
      TotalTokens(results[..|results| - 1]) + if last.Returned? then last.tokens else 0
  }

  predicate HasReported(w: World, i: nat) {
    i < |w.tasks| && (w.tasks[i].Reported? || w.tasks[i].Done?)
  }

  predicate AllReported(job: Job, w: World) {
    forall i: nat :: i < |job.names| ==> HasReported(w, i)
  }

  /** The entry of the i-th agent. */
  function EntryAt(job: Job, w: World, i: nat): AgentRunStatus
    requires job.Valid() && i < |job.names|
  {
    if HasReported(w, i) then Entered(UNSTARTED, job.results[i])
    else UNSTARTED.(state := if i < |w.tasks| && !w.tasks[i].Spawned? then Running else Pending)
  }

  ghost predicate EntriesTrack(job: Job, w: World)
    requires job.Valid()
  {
    && w.run.agents.Keys == SetOf(job.names)
    && forall i: nat :: i < |job.names| ==> w.run.agents[job.names[i]] == EntryAt(job, w, i)
  }

  ghost predicate StatusTracks(job: Job, w: World)
    requires job.Valid()
  {
    && w.run.status == (if AllReported(job, w) then Verdict(job.results) else RunRunning)
    && w.run.totalTokens == (if AllReported(job, w) then TotalTokens(job.results) else 0)
  }

  ghost predicate Named(job: Job) {
    job.Valid() && job.names != [] && Distinct(job.names)
  }

  lemma {:induction false} TokensAddUp(agents: Agents, names: seq<string>, results: seq<AgentReturn>)
    requires |names| == |results| && Distinct(names) && SetOf(names) <= agents.Keys
    requires forall i :: 0 <= i < |names| ==> agents[names[i]] == Entered(UNSTARTED, results[i])
    ensures TokenSum(agents, SetOf(names)) == TotalTokens(results)
  {
    if names != [] {
      var n := |names| - 1;
      assert names == names[..n] + [names[n]];
      assert SetOf(names[..n]) == SetOf(names) - {names[n]};
      TokensAddUp(agents, names[..n], results[..n]);
      TokenSumMinus(agents, SetOf(names), names[n]);
    }
  }

  lemma EntriesDone(job: Job, w: World)
    requires Named(job) && EntriesTrack(job, w)
    ensures w.run.agents != map[]
    ensures AllDone(w.run.agents) <==> AllReported(job, w)
  {
    var names, agents := job.names, w.run.agents;
    assert names[0] in agents;
    assert forall i: nat :: i < |names| ==> names[i] in agents && (HasReported(w, i) <==> agents[names[i]].state.IsTerminal());
  }

  lemma EntriesFailed(job: Job, w: World)
    requires Named(job) && EntriesTrack(job, w) && AllReported(job, w)
    ensures AllFailed(w.run.agents) <==> forall r <- job.results :: r.Errored?
    ensures AnyFailed(w.run.agents) <==> exists r <- job.results :: r.Errored?
  {
    var names, agents, results := job.names, w.run.agents, job.results;
    assert forall i: nat :: i < |names| ==> names[i] in agents && (results[i].Errored? <==> agents[names[i]].state.Failed?);
    if r :| r in results && r.Errored? {
      var i: nat :| i < |results| && results[i] == r;
      assert agents[names[i]].state.Failed?;
    }
  }

  /** Looking at all entries tells whether all tasks have reported, and what. */
  lemma EntriesTell(job: Job, w: World)
    requires Named(job) && EntriesTrack(job, w)
    ensures AllDone(w.run.agents) <==> AllReported(job, w)
    ensures
      Updated(w.run) ==
      if AllReported(job, w) then w.run.(status := Verdict(job.results), totalTokens := TotalTokens(job.results)) else w.run
  {
    hide AllDone, AllReported, AllFailed, AnyFailed, TokenSum, TotalTokens;
    EntriesDone(job, w);
    if AllReported(job, w) {
      EntriesFailed(job, w);
      assert forall i :: 0 <= i < |job.names| ==> w.run.agents[job.names[i]] == Entered(UNSTARTED, job.results[i]) by {
        AllEntered(job, w);
      }
      TokensAddUp(w.run.agents, job.names, job.results);
    }
  }

  lemma AllEntered(job: Job, w: World)
    requires Named(job) && EntriesTrack(job, w) && AllReported(job, w)
    ensures forall i :: 0 <= i < |job.names| ==> w.run.agents[job.names[i]] == Entered(UNSTARTED, job.results[i])
  {
  }

  lemma ReportedStep(job: Job, w: World, a: Action)
    requires job.Valid() && |w.tasks| <= |job.names|
    ensures forall i: nat :: HasReported(w, i) ==> HasReported(Perform(job, w, a), i)
    ensures !a.Write? ==> forall i: nat :: HasReported(Perform(job, w, a), i) ==> HasReported(w, i)
    ensures !a.Write? && !a.Close? ==>
      Perform(job, w, a).run.status == w.run.status && Perform(job, w, a).run.totalTokens == w.run.totalTokens
    ensures a.Close? && Enabled(job, w, a) ==> AllReported(job, w)
  {
    hide Updated, Written, Entered;
  }

  lemma DifferentNames(names: seq<string>, i: nat, j: nat)
    requires Distinct(names) && i < |names| && j < |names| && i != j
    ensures names[i] != names[j]
  {
  }

  /** What a step makes of one entry. */
  function EntryAfter(job: Job, w: World, a: Action, i: nat, entry: AgentRunStatus): AgentRunStatus
    requires job.Valid() && i < |job.names|
  {
    if !Enabled(job, w, a) then entry
    else if a == Mark(i) then entry.(state := Running)
    else if a == Write(i) then Entered(entry, job.results[i])
    else entry
  }

  lemma EntryMoves(job: Job, w: World, a: Action, i: nat)
    requires job.Valid() && |w.tasks| <= |job.names| && i < |job.names|
    ensures EntryAt(job, Perform(job, w, a), i) == EntryAfter(job, w, a, i, EntryAt(job, w, i))
  {
    hide Updated, Written, Marked;
  }

  lemma EntryStep(job: Job, w: World, a: Action, i: nat)
    requires Named(job) && |w.tasks| <= |job.names| && EntriesTrack(job, w) && i < |job.names|
    ensures Perform(job, w, a).run.agents.Keys == SetOf(job.names)
    ensures Perform(job, w, a).run.agents[job.names[i]] == EntryAt(job, Perform(job, w, a), i)
  {
    EntryMoves(job, w, a, i);
    hide Updated, Distinct, EntryAt, Entered;
    UpdatedKeepsAgents();
    assert w.run.agents[job.names[i]] == EntryAt(job, w, i);
    if (a.Mark? || a.Write?) && Enabled(job, w, a) && i != a.i {
      DifferentNames(job.names, i, a.i);
    }
  }

  lemma EntriesStep(job: Job, w: World, a: Action)
    requires Named(job) && |w.tasks| <= |job.names| && EntriesTrack(job, w)
    ensures EntriesTrack(job, Perform(job, w, a))
  {
    hide Perform, EntryAt, Distinct;
    var w' := Perform(job, w, a);
    EntryStep(job, w, a, 0);
    forall i: nat | i < |job.names| ensures w'.run.agents[job.names[i]] == EntryAt(job, w', i) {
      EntryStep(job, w, a, i);
    }
  }

  lemma UpdatedKeepsAgents()
    ensures forall run :: Updated(run).agents == run.agents
  {
  }

  lemma UpdateTracks(job: Job, w: World, w': World, updated: Tracked)
    requires Named(job) && StatusTracks(job, w) && EntriesTrack(job, w') && w'.run == Updated(updated)
    requires updated.status == w.run.status && updated.totalTokens == w.run.totalTokens
    requires AllReported(job, w) ==> AllReported(job, w')
    ensures StatusTracks(job, w')
  {
    hide TotalTokens, Verdict, AllReported, Updated;
    UpdatedKeepsAgents();
    var mid := w'.(run := updated);
    assert AllReported(job, mid) <==> AllReported(job, w') by {
      SameReports(job, mid, w');
    }
    EntriesTell(job, mid);
  }

  lemma SameReports(job: Job, w: World, w': World)
    requires w.tasks == w'.tasks
    ensures AllReported(job, w) <==> AllReported(job, w')
  {
    assert forall i: nat :: HasReported(w, i) <==> HasReported(w', i);
  }

  lemma StatusStep(job: Job, w: World, a: Action)
    requires Named(job) && |w.tasks| <= |job.names| && EntriesTrack(job, w) && StatusTracks(job, w)
    ensures StatusTracks(job, Perform(job, w, a))
  {
    hide TotalTokens, Verdict, EntriesTrack, Updated, HasReported;
    var w' := Perform(job, w, a);
    ReportedStep(job, w, a);
    EntriesStep(job, w, a);
    if a.Write? && Enabled(job, w, a) {
      UpdateTracks(job, w, w', Written(w.run, job.names[a.i], job.results[a.i]));
    } else if a.Close? && Enabled(job, w, a) {
      UpdateTracks(job, w, w', w.run);
    }
  }

  lemma {:induction false} RunTracks(job: Job, actions: seq<Action>)
    requires Named(job)
    ensures EntriesTrack(job, Reached(job, actions)) && StatusTracks(job, Reached(job, actions))
  {
    if actions == [] {
      assert !HasReported(Begin(job), 0);
    } else {
      hide Perform;
      var w := Reached(job, actions[..|actions| - 1]);
      RunTracks(job, actions[..|actions| - 1]);
      EntriesStep(job, w, actions[|actions| - 1]);
      StatusStep(job, w, actions[|actions| - 1]);
    }
  }

  /** The status is running exactly while some agent is not terminal. */
  ghost predicate Trusted(run: Tracked) {
    run.status == RunRunning <==> !AllDone(run.agents)
  }

  /** In every interleaving of distinctly named agents the status is running exactly while some agent is
      not terminal, and then it is the verdict on all returned results, with their exact token sum. */
  lemma StatusFollowsAgents(job: Job, actions: seq<Action>)
    requires Named(job)
    ensures
      var run := Reached(job, actions).run;
      && Trusted(run)
      && (run.status != RunRunning ==> run.status == Verdict(job.results) && run.totalTokens == TotalTokens(job.results))
  {
    RunTracks(job, actions);
    EntriesTell(job, Reached(job, actions));
  }

  lemma {:induction false} PlayAppends(job: Job, first: seq<Action>, second: seq<Action>)
    requires job.Valid()
    ensures Reached(job, first + second) == Play(job, Reached(job, first), second)
  {
    if second == [] {
      assert first + second == first;
    } else {
      PlayAppends(job, first, second[..|second| - 1]);
      assert (first + second)[..|first + second| - 1] == first + second[..|second| - 1];
    }
  }

  lemma {:induction false} ReportsStay(job: Job, w: World, more: seq<Action>)
    requires job.Valid() && |w.tasks| <= |job.names| && AllReported(job, w)
    ensures AllReported(job, Play(job, w, more))
  {
    if more != [] {
      ReportsStay(job, w, more[..|more| - 1]);
      ReportedStep(job, Play(job, w, more[..|more| - 1]), more[|more| - 1]);
    }
  }

  lemma SettledRunsAgree(job: Job, w: World, w': World)
    requires Named(job) && EntriesTrack(job, w) && EntriesTrack(job, w') && StatusTracks(job, w) && StatusTracks(job, w')
    requires AllReported(job, w) && AllReported(job, w')
    ensures w.run == w'.run
  {
    hide Verdict, TotalTokens, Distinct;
    AllEntered(job, w);
    AllEntered(job, w');
    forall name | name in w.run.agents ensures w.run.agents[name] == w'.run.agents[name] {
      var i :| 0 <= i < |job.names| && job.names[i] == name;
    }
    assert w.run.agents == w'.run.agents;
  }

  /** Once the status leaves running, nothing about the run changes any more. */
  lemma VerdictIsForever(job: Job, actions: seq<Action>, more: seq<Action>)
    requires Named(job) && Reached(job, actions).run.status != RunRunning
    ensures Reached(job, actions + more).run == Reached(job, actions).run
  {
    hide AllReported, EntriesTrack, Verdict, TotalTokens;
    var w := Reached(job, actions);
    RunTracks(job, actions);
    RunTracks(job, actions + more);
    PlayAppends(job, actions, more);
    ReportsStay(job, w, more);
    SettledRunsAgree(job, w, Reached(job, actions + more));
  }

  // Progress

  /** How many steps a task still has to take. */
  function Left(pc: Pc): nat {
    match pc
    case Spawned => 4
    case Waiting => 3
    case Working => 2
    case Reported => 1
    case Done => 0
  }

  function LeftOf(tasks: seq<Pc>): nat {
    if tasks == [] then 0 else LeftOf(tasks[..|tasks| - 1]) + Left(tasks[|tasks| - 1])
  }

  function Remaining(job: Job, w: World): nat
    requires |w.tasks| <= |job.names|
  {
    5 * (|job.names| - |w.tasks|) + LeftOf(w.tasks) + if w.closed then 0 else 1
  }

  /** The tasks that hold a permit. */
  function Held(tasks: seq<Pc>): nat {
    if tasks == [] then 0
    else Held(tasks[..|tasks| - 1]) + if tasks[|tasks| - 1].Working? || tasks[|tasks| - 1].Reported? then 1 else 0
  }

  lemma {:induction false} TaskMoves(tasks: seq<Pc>, i: nat, pc: Pc)
    requires i < |tasks|
    ensures LeftOf(tasks[i := pc]) == LeftOf(tasks) - Left(tasks[i]) + Left(pc)
    ensures
      Held(tasks[i := pc]) + (if tasks[i].Working? || tasks[i].Reported? then 1 else 0) ==
      Held(tasks) + if pc.Working? || pc.Reported? then 1 else 0
  {
    var n := |tasks| - 1;
    if i < n {
      TaskMoves(tasks[..n], i, pc);
      assert tasks[i := pc][..n] == tasks[..n][i := pc];
    } else {
      assert tasks[i := pc][..n] == tasks[..n];
    }
  }

  /** Every step that is taken brings the run closer to its end, and permits are conserved. */
  lemma StepCounts(job: Job, w: World, a: Action)
    requires job.Valid() && |w.tasks| <= |job.names| && Enabled(job, w, a)
    ensures Remaining(job, Perform(job, w, a)) < Remaining(job, w)
    ensures w.permits + Held(w.tasks) == job.maxConcurrency ==>
      Perform(job, w, a).permits + Held(Perform(job, w, a).tasks) == job.maxConcurrency
  {
    hide Updated, Written, Marked;
    match a
    case Spawn => assert (w.tasks + [Spawned])[..|w.tasks|] == w.tasks;
    case Mark(i) => TaskMoves(w.tasks, i, Waiting);
    case Take(i) => TaskMoves(w.tasks, i, Working);
    case Write(i) => TaskMoves(w.tasks, i, Reported);
    case Release(i) => TaskMoves(w.tasks, i, Done);
    case Close =>
  }

  lemma {:induction false} PermitsAreConserved(job: Job, actions: seq<Action>)
    requires job.Valid()
    ensures Reached(job, actions).permits + Held(Reached(job, actions).tasks) == job.maxConcurrency
  {
    hide Perform;
    if actions != [] {
      var w, a := Reached(job, actions[..|actions| - 1]), actions[|actions| - 1];
      PermitsAreConserved(job, actions[..|actions| - 1]);
      if Enabled(job, w, a) {
        StepCounts(job, w, a);
      } else {
        DisabledStays(job, w, a);
      }
    }
  }

  lemma DisabledStays(job: Job, w: World, a: Action)
    requires job.Valid() && |w.tasks| <= |job.names| && !Enabled(job, w, a)
    ensures Perform(job, w, a) == w
  {
  }

  lemma {:induction false} HolderExists(tasks: seq<Pc>) returns (i: nat)
    requires Held(tasks) > 0
    ensures i < |tasks| && (tasks[i].Working? || tasks[i].Reported?)
  {
    var n := |tasks| - 1;
    if tasks[n].Working? || tasks[n].Reported? {
      i := n;
    } else {
      i := HolderExists(tasks[..n]);
    }
  }

  /** Until the last update has been made, somebody can take a step. */
  lemma NeverStuck(job: Job, w: World) returns (a: Action)
    requires job.Valid() && |w.tasks| <= |job.names| && w.permits + Held(w.tasks) == job.maxConcurrency >= 1
    requires !w.closed
    ensures Enabled(job, w, a)
  {
    if |w.tasks| < |job.names| {
      a := Spawn;
    } else if i: nat :| i < |w.tasks| && !w.tasks[i].Done? {
      if w.permits == 0 && w.tasks[i].Waiting? {
        var j := HolderExists(w.tasks);
        a := if w.tasks[j].Working? then Write(j) else Release(j);
      } else {
        a := match w.tasks[i] case Spawned => Mark(i) case Waiting => Take(i) case Working => Write(i) case _ => Release(i);
      }
    } else {
      a := Close;
    }
  }

  /** Closed runs are those whose tasks are all done. */
  lemma {:induction false} ClosedMeansDone(job: Job, actions: seq<Action>)
    requires job.Valid() && Reached(job, actions).closed
    ensures AllReported(job, Reached(job, actions))
  {
    if actions != [] {
      var w, a := Reached(job, actions[..|actions| - 1]), actions[|actions| - 1];
      if w.closed {
        ClosedMeansDone(job, actions[..|actions| - 1]);
      }
      ReportedStep(job, w, a);
      if !Enabled(job, w, a) {
        DisabledStays(job, w, a);
      }
    }
  }

  lemma {:induction false} CanClose(job: Job, actions: seq<Action>) returns (more: seq<Action>)
    requires job.Valid() && job.maxConcurrency >= 1
    decreases Remaining(job, Reached(job, actions))
    ensures Reached(job, actions + more).closed
  {
    var w := Reached(job, actions);
    if w.closed {
      more := [];
      assert actions + [] == actions;
    } else {
      hide Perform, Remaining;
      PermitsAreConserved(job, actions);
      var a := NeverStuck(job, w);
      StepCounts(job, w, a);
      assert (actions + [a])[..|actions|] == actions;
      var rest := CanClose(job, actions + [a]);
      assert actions + [a] + rest == actions + ([a] + rest);
      more := [a] + rest;
    }
  }

  /** With at least one permit and agents that return, every interleaving can be continued to the end,
      and the status then is the verdict. Nor can it go on for ever: every step shortens what remains. */
  lemma EveryRunCanFinish(job: Job, actions: seq<Action>) returns (more: seq<Action>)
    requires Named(job) && job.maxConcurrency >= 1
    ensures
      var w := Reached(job, actions + more);
      w.closed && w.run.status == Verdict(job.results) && w.run.totalTokens == TotalTokens(job.results)
  {
    hide Verdict, TotalTokens;
    more := CanClose(job, actions);
    ClosedMeansDone(job, actions + more);
    RunTracks(job, actions + more);
  }

  // What the entries say

  /** The entry of the i-th agent in a run. */
  ghost function EntryIn(job: Job, w: World, i: nat): Option<AgentRunStatus>
    requires job.Valid() && i < |job.names|
  {
    if job.names[i] in w.run.agents then Some(w.run.agents[job.names[i]]) else None
  }

  /** In every interleaving of distinctly named agents, an agent that has reported is listed with just
      what it returned, and one that has not with nothing but where it stands. */
  lemma EntriesSayWhatWasReturned(job: Job, actions: seq<Action>, i: nat)
    requires Named(job) && i < |job.names|
    ensures
      var w := Reached(job, actions);
      EntryIn(job, w, i) == Some(
        if HasReported(w, i) then
          match job.results[i]
          case Returned(output, tokens) => AgentRunStatus(Completed, Some(output), None, tokens)
          case Errored(error) => AgentRunStatus(Failed, None, Some(error), 0)
        else if i < |w.tasks| && !w.tasks[i].Spawned? then AgentRunStatus(Running, None, None, 0)
        else AgentRunStatus(Pending, None, None, 0))
  {
    RunTracks(job, actions);
    assert job.names[i] in job.names;
  }

  // Exactly which runs can be trusted

  /** When all entries are terminal the status has left running, whatever the names are. */
  ghost predicate Noticed(job: Job, w: World) {
    w.run.agents.Keys == SetOf(job.names) && (AllDone(w.run.agents) && w.run.agents != map[] ==> w.run.status != RunRunning)
  }

  lemma NoticedStep(job: Job, w: World, a: Action)
    requires job.Valid() && |w.tasks| <= |job.names| && Noticed(job, w)
    ensures Noticed(job, Perform(job, w, a))
  {
    hide TokenSum, Entered;
    UpdatedKeepsAgents();
    if a.Mark? && Enabled(job, w, a) {
      assert job.names[a.i] in w.run.agents;
      assert !Perform(job, w, a).run.agents[job.names[a.i]].state.IsTerminal();
    }
  }

  lemma {:induction false} RunNotices(job: Job, actions: seq<Action>)
    requires job.Valid()
    ensures Noticed(job, Reached(job, actions))
  {
    if actions == [] {
      if name :| name in Begin(job).run.agents {
        assert !Begin(job).run.agents[name].state.IsTerminal();
      }
    } else {
      hide Perform, Noticed;
      RunNotices(job, actions[..|actions| - 1]);
      NoticedStep(job, Reached(job, actions[..|actions| - 1]), actions[|actions| - 1]);
    }
  }

  /** Without permits nobody ever reports. */
  ghost predicate Stalled(job: Job, w: World) {
    && w.run.status == RunRunning && w.run.agents.Keys == SetOf(job.names) && w.permits == 0
    && (forall name <- w.run.agents :: !w.run.agents[name].state.IsTerminal())
    && (forall pc <- w.tasks :: pc.Spawned? || pc.Waiting?)
  }

  lemma StalledStep(job: Job, w: World, a: Action)
    requires job.Valid() && job.names != [] && |w.tasks| <= |job.names| && Stalled(job, w)
    ensures Stalled(job, Perform(job, w, a))
  {
    hide Updated, TokenSum;
    assert forall i: nat :: i < |w.tasks| ==> w.tasks[i] in w.tasks;
    assert |w.tasks| == |job.names| ==> w.tasks[0] in w.tasks && !w.tasks[0].Done?;
    if Enabled(job, w, a) {
      assert a.Spawn? || a.Mark?;
    }
  }

  lemma {:induction false} StaysStalled(job: Job, actions: seq<Action>)
    requires job.Valid() && job.names != [] && job.maxConcurrency == 0
    ensures Stalled(job, Reached(job, actions))
  {
    if actions != [] {
      var w, a := Reached(job, actions[..|actions| - 1]), actions[|actions| - 1];
      StaysStalled(job, actions[..|actions| - 1]);
      StalledStep(job, w, a);
    }
  }

  lemma PlayOne(job: Job, actions: seq<Action>, a: Action)
    requires job.Valid()
    ensures Reached(job, actions + [a]) == Perform(job, Reached(job, actions), a)
  {
    assert (actions + [a])[..|actions|] == actions;
  }

  lemma {:induction false} SpawnAll(job: Job, n: nat) returns (actions: seq<Action>)
    requires job.Valid() && n <= |job.names|
    ensures
      var w := Reached(job, actions);
      w.tasks == seq(n, _ => Spawned) && w.permits == job.maxConcurrency
  {
    if n == 0 {
      actions := [];
    } else {
      var before := SpawnAll(job, n - 1);
      actions := before + [Spawn];
      PlayOne(job, before, Spawn);
    }
  }

  /** One task runs from start to end. */
  lemma RunTask(job: Job, before: seq<Action>, i: nat) returns (actions: seq<Action>)
    requires job.Valid() && i < |Reached(job, before).tasks|
    requires Reached(job, before).tasks[i].Spawned? && Reached(job, before).permits > 0
    ensures
      var w, w' := Reached(job, before), Reached(job, actions);
      && w'.tasks == w.tasks[i := Done] && w'.permits == w.permits
      && w'.run.agents.Keys == w.run.agents.Keys
      && (forall name <- w.run.agents :: name == job.names[i] || w'.run.agents[name] == w.run.agents[name])
      && (job.names[i] in w.run.agents ==> w'.run.agents[job.names[i]].state.IsTerminal())
  {
    hide Updated;
    UpdatedKeepsAgents();
    PlayOne(job, before, Mark(i));
    PlayOne(job, before + [Mark(i)], Take(i));
    PlayOne(job, before + [Mark(i)] + [Take(i)], Write(i));
    PlayOne(job, before + [Mark(i)] + [Take(i)] + [Write(i)], Release(i));
    actions := before + [Mark(i)] + [Take(i)] + [Write(i)] + [Release(i)];
  }

  /** All of the first k tasks but one run, the others have yet to start. */
  ghost predicate RanAllBut(job: Job, w: World, j: nat, k: nat) {
    && |w.tasks| == |job.names| && w.permits == job.maxConcurrency
    && (forall i: nat :: i < |job.names| && (k <= i || i == j) ==> w.tasks[i].Spawned?)
    && (forall i: nat :: i < k && i < |job.names| && i != j && job.names[i] in w.run.agents ==> w.run.agents[job.names[i]].state.IsTerminal())
  }

  lemma {:induction false} RunAllBut(job: Job, j: nat, k: nat) returns (actions: seq<Action>)
    requires job.Valid() && job.maxConcurrency > 0 && k <= |job.names|
    ensures RanAllBut(job, Reached(job, actions), j, k)
  {
    hide Reached;
    if k == 0 {
      actions := SpawnAll(job, |job.names|);
    } else {
      var before := RunAllBut(job, j, k - 1);
      if k - 1 == j {
        actions := before;
      } else {
        actions := RunTask(job, before, k - 1);
      }
    }
  }

  /** Two agents of the same name share one entry: it can be terminal while one of them has yet to
      start, and then goes back to running under a status that says the run is over. */
  lemma SharedNameMisleads(job: Job, i: nat, j: nat) returns (actions: seq<Action>)
    requires job.Valid() && job.maxConcurrency > 0
    requires i < j < |job.names| && job.names[i] == job.names[j]
    ensures !Trusted(Reached(job, actions).run)
  {
    var before := RunAllBut(job, j, |job.names|);
    var w := Reached(job, before);
    RunNotices(job, before);
    assert job.names[j] in w.run.agents;
    forall name | name in w.run.agents ensures w.run.agents[name].state.IsTerminal() {
      var k: nat :| k < |job.names| && job.names[k] == name;
      assert k == j ==> job.names[i] == name;
    }
    assert AllDone(w.run.agents) && w.run.status != RunRunning;
    PlayOne(job, before, Mark(j));
    actions := before + [Mark(j)];
    assert !Reached(job, actions).run.agents[job.names[j]].state.IsTerminal();
  }

  /** The status can be trusted in every interleaving exactly if there are agents and their names are
      distinct (or nobody ever gets a permit). */
  lemma TrustedIff(job: Job)
    requires job.Valid()
    ensures
      (forall actions :: Trusted(Reached(job, actions).run)) <==>
      job.names != [] && (Distinct(job.names) || job.maxConcurrency == 0)
  {
    if job.names == [] {
      assert !Trusted(Reached(job, []).run);
    } else if Distinct(job.names) {
      forall actions ensures Trusted(Reached(job, actions).run) {
        StatusFollowsAgents(job, actions);
      }
    } else if job.maxConcurrency == 0 {
      forall actions ensures Trusted(Reached(job, actions).run) {
        StaysStalled(job, actions);
        assert job.names[0] in Reached(job, actions).run.agents;
      }
    } else {
      var i, j :| 0 <= i < j < |job.names| && job.names[i] == job.names[j];
      var actions := SharedNameMisleads(job, i, j);
    }
  }
}
