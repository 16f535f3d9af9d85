/** The workflow engine: a round-based loop over step states. The agents are an oracle that gives,
    for the n-th execution of a step, the finite sequence of events its channel delivers. */
module Engine {
  import opened Wrappers
  import opened Workflows
  import opened Substitution

  datatype StepState =
    | Pending
    | Running
    | Completed(output: string)
    | Failed(error: string, attempts: nat)
    | Skipped
  {
    predicate IsTerminal() {
      Completed? || Failed? || Skipped?
    }
  }

  type States = map<StepId, StepState>

  datatype WorkflowState = WorkflowCompleted | WorkflowFailed | WorkflowAborted

  datatype Metrics = Metrics(
    totalAgents: nat, completedAgents: nat, failedAgents: nat, inputTokens: nat, outputTokens: nat)

  // Reading one agent's events

  datatype Usage = Usage(inputTokens: nat, outputTokens: nat)

  datatype AgentEvent =
    | ResultLine(result: string, isError: bool, usage: Option<Usage>)
    | ProcessExited(exitCode: int)
    | AgentError(error: string)
    | OtherEvent

  datatype AgentResult = AgentResult(exitCode: int, inputTokens: nat, outputTokens: nat)

  datatype Reading = Reading(output: string, result: Option<AgentResult>) {
    predicate Success() {
      result.Some? && result.value.exitCode == 0
    }
  }

  function ReadEvent(r: Reading, e: AgentEvent): Reading {
    match e
    case ResultLine(result, isError, usage) =>
      var u := usage.GetOr(Usage(0, 0));
      Reading(
        if isError then r.output else result,
        Some(AgentResult(if isError then 1 else 0, u.inputTokens, u.outputTokens)))
    case ProcessExited(_) =>
      if e.exitCode != 0 && r.result.None? then r.(output := ExitMessage(e.exitCode)) else r
    case AgentError(error) => r.(output := error)
    case OtherEvent => r
  }

  function Digits(n: nat): string {
    (if n < 10 then "" else Digits(n / 10)) + [('0' as int + n % 10) as char]
  }

  function ExitMessage(code: int): string {
    "Process exited with code " + if code < 0 then "-" + Digits(-code) else Digits(code)
  }

  function ReadAll(events: seq<AgentEvent>): Reading {
    if events == [] then Reading("", None)
    else ReadEvent(ReadAll(events[..|events| - 1]), events[|events| - 1])
  }

  type Oracle = (StepId, nat) -> seq<AgentEvent>

  // Finding ready steps

  predicate Meets(d: Dependency, states: States) {
    d.stepId in states &&
    match d.condition
    case OnSuccess => states[d.stepId].Completed?
    case OnFailure => states[d.stepId].Failed?
    case Always => states[d.stepId].IsTerminal()
  }

  predicate DependenciesMet(s: Step, states: States) {
    forall d <- s.dependsOn :: Meets(d, states)
  }

  predicate IsReady(s: Step, states: States) {
    (s.id in states ==> states[s.id].Pending?) && DependenciesMet(s, states)
  }

  function FindReady(steps: seq<Step>, states: States): (ready: seq<Step>)
    ensures forall s :: s in ready <==> s in steps && IsReady(s, states)
  {
    if steps == [] then []
    else
      var last := steps[|steps| - 1];
      assert steps == steps[..|steps| - 1] + [last];
      FindReady(steps[..|steps| - 1], states) + if IsReady(last, states) then [last] else []
  }

  // One round

  /** One spawned agent: its step, the step states just before it was marked as running, and the
      variables its prompt is resolved with. */
  datatype Spawn = Spawn(id: StepId, states: States, env: Vars)

  datatype Phase = Looping | Finished | Deadlocked | Aborted

  datatype RunState = RunState(
    states: States, vars: Vars, shared: Vars, metrics: Metrics, log: seq<Spawn>, phase: Phase)

  datatype Handle = Handle(id: StepId, outputVar: Option<string>, events: seq<AgentEvent>)

  /** How often a step has been executed so far. */
  function Executions(log: seq<Spawn>, id: StepId): nat {
    if log == [] then 0
    else Executions(log[..|log| - 1], id) + if log[|log| - 1].id == id then 1 else 0
  }

  function SpawnOne(step: Step, s: RunState): RunState {
    s.(states := s.states[step.id := Running], log := s.log + [Spawn(step.id, s.states, s.vars + s.shared)])
  }

  function SpawnAll(ready: seq<Step>, s: RunState): RunState {
    if ready == [] then s else SpawnOne(ready[|ready| - 1], SpawnAll(ready[..|ready| - 1], s))
  }

  function Handles(oc: Oracle, ready: seq<Step>, s: RunState): seq<Handle> {
    if ready == [] then []
    else
      var step, front := ready[|ready| - 1], ready[..|ready| - 1];
      Handles(oc, front, s) + [Handle(step.id, step.outputVar, oc(step.id, Executions(SpawnAll(front, s).log, step.id)))]
  }

  function StepWithId(steps: seq<Step>, id: StepId): (r: Option<Step>)
    ensures r.Some? <==> exists s <- steps :: s.id == id
    ensures r.Some? ==> r.value in steps && r.value.id == id
  {
    if steps == [] then None
    else if steps[0].id == id then Some(steps[0])
    else
      assert steps == [steps[0]] + steps[1..];
      StepWithId(steps[1..], id)
  }

  function PolicyOf(wf: Workflow, id: StepId): Option<FailureAction> {
    var step := StepWithId(wf.steps, id);
    if step.Some? then step.value.Policy() else None
  }

  function CurrentAttempts(states: States, id: StepId): nat {
    if id in states && states[id].Failed? then states[id].attempts else 0
  }

  function CollectSuccess(h: Handle, r: Reading, s: RunState): RunState
    requires r.Success()
  {
    var m := s.metrics;
    s.(vars := if h.outputVar.Some? then s.vars[h.outputVar.value := r.output] else s.vars,
       shared := if h.outputVar.Some? then s.shared[h.outputVar.value := r.output] else s.shared,
       states := s.states[h.id := Completed(r.output)],
       metrics := m.(completedAgents := m.completedAgents + 1,
                     inputTokens := m.inputTokens + r.result.value.inputTokens,
                     outputTokens := m.outputTokens + r.result.value.outputTokens))
  }

  function CollectFailure(wf: Workflow, h: Handle, r: Reading, s: RunState): RunState {
    var attempts := CurrentAttempts(s.states, h.id);
    var failed := Failed(r.output, attempts + 1);
    var counted := s.metrics.(failedAgents := s.metrics.failedAgents + 1);
    match PolicyOf(wf, h.id)
    case Some(Skip) => s.(states := s.states[h.id := Skipped], metrics := counted)
    case Some(Abort) => s.(states := s.states[h.id := failed], metrics := counted, phase := Aborted)
    case Some(Fallback(target)) => s.(states := s.states[target := Pending][h.id := failed], metrics := counted)
    case Some(Retry(max)) =>
      if attempts < max then s.(states := s.states[h.id := Pending])
      else s.(states := s.states[h.id := failed], metrics := counted)
    case _ => s.(states := s.states[h.id := failed], metrics := counted)
  }

  function CollectOne(wf: Workflow, h: Handle, s: RunState): RunState {
    if s.phase != Looping then s
    else
      var r := ReadAll(h.events);
      if r.Success() then CollectSuccess(h, r, s) else CollectFailure(wf, h, r, s)
  }

  function CollectAll(wf: Workflow, hs: seq<Handle>, s: RunState): RunState {
    if hs == [] then s else CollectOne(wf, hs[|hs| - 1], CollectAll(wf, hs[..|hs| - 1], s))
  }

  predicate AllTerminal(states: States) {
    forall id <- states :: states[id].IsTerminal()
  }

  predicate AnyRunning(states: States) {
    exists id <- states :: states[id].Running?
  }

  /** With nothing ready the loop ends, reports a deadlock, or waits for running steps. */
  function Idle(states: States): Phase {
    if AllTerminal(states) then Finished else if !AnyRunning(states) then Deadlocked else Looping
  }

  function Round(wf: Workflow, oc: Oracle, s: RunState): RunState {
    var ready := FindReady(wf.steps, s.states);
    if s.phase != Looping then s
    else if ready == [] then s.(phase := Idle(s.states))
    else CollectAll(wf, Handles(oc, ready, s), SpawnAll(ready, s))
  }

  /** The state after n passes through the loop. */
  function RunFor(wf: Workflow, oc: Oracle, s: RunState, n: nat): RunState {
    if n == 0 then s else Round(wf, oc, RunFor(wf, oc, s, n - 1))
  }

  function FinalState(states: States): WorkflowState {
    if forall id <- states :: states[id].Completed? then WorkflowCompleted
    else if exists id <- states :: states[id].Failed? then WorkflowFailed
    else WorkflowCompleted
  }

  // Entering and leaving the loop

  datatype Checkpoint = Checkpoint(
    workflowState: WorkflowState, stepStates: States, agentOutputs: Vars, variables: Vars, metrics: Metrics)

  datatype WorkflowResult = WorkflowResult(
    state: WorkflowState, stepOutputs: Vars, metrics: Metrics, checkpoint: Checkpoint)

  function FreshStates(steps: seq<Step>): States {
    map s <- steps :: s.id := Pending
  }

  /** The state at the first loop head. The shared context and the agents' history belong to the caller. */
  function Start(wf: Workflow, initial: Option<Checkpoint>, shared: Vars, log: seq<Spawn>): RunState {
    match initial
    case Some(cp) => RunState(cp.stepStates, cp.variables, shared, cp.metrics, log, Looping)
    case None => RunState(FreshStates(wf.steps), map[], shared, Metrics(|wf.steps|, 0, 0, 0, 0), log, Looping)
  }

  datatype Outcome = Returned(result: WorkflowResult) | Deadlock | OutOfRounds

  function Report(s: RunState): Outcome {
    match s.phase
    case Looping => OutOfRounds
    case Deadlocked => Deadlock
    case Aborted => Returned(ResultIn(WorkflowAborted, s))
    case Finished => Returned(ResultIn(FinalState(s.states), s))
  }

  function ResultIn(state: WorkflowState, s: RunState): WorkflowResult {
    WorkflowResult(state, s.vars, s.metrics, Checkpoint(state, s.states, s.vars, s.vars, s.metrics))
  }

  /** A key-value store shared between agents. */
  class SharedContext {
    var data: Vars

    constructor ()
      ensures data == map[]
    {
      data := map[];
    }

    method Set(key: string, value: string)
      modifies this
      ensures data == old(data)[key := value]
    {
      data := data[key := value];
    }

    method Snapshot() returns (entries: Vars)
      ensures entries == data
    {
      entries := data;
    }
  }

  /** The agents: every spawn is recorded, and answered by the oracle. */
  class AgentManager {
    const answers: Oracle
    var log: seq<Spawn>
    var prompts: seq<string>

    constructor (answers: Oracle)
      ensures this.answers == answers && log == [] && prompts == []
    {
      this.answers := answers;
      log, prompts := [], [];
    }

    ghost predicate Valid()
      reads this
    {
      |prompts| == |log|
    }

    /** From the given spawn on, the agents work for this workflow: each has the variables recorded with
        its spawn substituted in its step's prompt. */
    ghost predicate Serves(wf: Workflow, from: nat)
      reads this
    {
      Valid() && from <= |log| && forall i :: from <= i < |log| ==> PromptIsFor(wf, log[i], prompts[i])
    }

    method SpawnAgent(id: StepId, states: States, env: Vars, prompt: string) returns (events: seq<AgentEvent>)
      modifies this
      ensures log == old(log) + [Spawn(id, states, env)] && prompts == old(prompts) + [prompt]
      ensures events == answers(id, Executions(old(log), id))
    {
      events := answers(id, Executions(log, id));
      log, prompts := log + [Spawn(id, states, env)], prompts + [prompt];
    }
  }

  ghost predicate PromptIsFor(wf: Workflow, spawn: Spawn, prompt: string) {
    exists s <- wf.steps :: s.id == spawn.id && IsResolution(s.prompt, spawn.env, prompt)
  }

  /** Folds the events of one channel. */
  method ReadEvents(events: seq<AgentEvent>) returns (r: Reading)
    ensures r == ReadAll(events)
  {
    r := Reading("", None);
    for i := 0 to |events|
      invariant r == ReadAll(events[..i])
    {
      assert events[..i + 1][..i] == events[..i];
      r := ReadEvent(r, events[i]);
    }
    assert events[..|events|] == events;
  }

  /** The variables of `execute`, together with the two objects it works on. */
  function Pack(states: States, vars: Vars, metrics: Metrics, context: SharedContext, agents: AgentManager, phase: Phase): RunState
    reads context, agents
  {
    RunState(states, vars, context.data, metrics, agents.log, phase)
  }

  /** Spawns every ready step, in order. */
  method SpawnReady(
    wf: Workflow, agents: AgentManager, context: SharedContext, ready: seq<Step>, states: States, vars: Vars,
    metrics: Metrics, ghost from: nat)
    returns (states': States, handles: seq<Handle>)
    requires agents.Serves(wf, from) && forall s <- ready :: s in wf.steps
    modifies agents
    ensures agents.Serves(wf, from)
    ensures Pack(states', vars, metrics, context, agents, Looping) ==
      SpawnAll(ready, old(Pack(states, vars, metrics, context, agents, Looping)))
    ensures handles == Handles(agents.answers, ready, old(Pack(states, vars, metrics, context, agents, Looping)))
  {
    hide Executions, IsResolution;
    states', handles := states, [];
    ghost var s0 := Pack(states, vars, metrics, context, agents, Looping);
    for i := 0 to |ready|
      invariant agents.Serves(wf, from)
      invariant Pack(states', vars, metrics, context, agents, Looping) == SpawnAll(ready[..i], s0)
      invariant handles == Handles(agents.answers, ready[..i], s0)
    {
      var step := ready[i];
      assert ready[..i + 1][..i] == ready[..i];
      var shared := context.Snapshot();
      var prompt := ResolveVariables(step.prompt, vars + shared);
      assert PromptIsFor(wf, Spawn(step.id, states', vars + shared), prompt);
      var events := agents.SpawnAgent(step.id, states', vars + shared, prompt);
      states' := states'[step.id := Running];
      handles := handles + [Handle(step.id, step.outputVar, events)];
    }
    assert ready[..|ready|] == ready;
  }

  /** Reads one agent's events to the end and applies the step's outcome or failure policy. */
  method CollectResult(
    wf: Workflow, ghost agents: AgentManager, context: SharedContext, h: Handle, states: States, vars: Vars,
    metrics: Metrics)
    returns (states': States, vars': Vars, metrics': Metrics, phase: Phase)
    modifies context
    ensures Pack(states', vars', metrics', context, agents, phase) ==
      CollectOne(wf, h, old(Pack(states, vars, metrics, context, agents, Looping)))
  {
    states', vars', metrics', phase := states, vars, metrics, Looping;
    var r := ReadEvents(h.events);
    if r.Success() {
      if h.outputVar.Some? {
        vars' := vars'[h.outputVar.value := r.output];
        context.Set(h.outputVar.value, r.output);
      }
      states' := states'[h.id := Completed(r.output)];
      metrics' := metrics'.(completedAgents := metrics'.completedAgents + 1,
                            inputTokens := metrics'.inputTokens + r.result.value.inputTokens,
                            outputTokens := metrics'.outputTokens + r.result.value.outputTokens);
    } else {
      var attempts := CurrentAttempts(states', h.id);
      var policy := PolicyOf(wf, h.id);
      if policy.Some? && policy.value.Retry? && attempts < policy.value.maxAttempts {
        states' := states'[h.id := Pending];
      } else {
        metrics' := metrics'.(failedAgents := metrics'.failedAgents + 1);
        if policy == Some(Skip) {
          states' := states'[h.id := Skipped];
        } else {
          if policy.Some? && policy.value.Fallback? {
            states' := states'[policy.value.target := Pending];
          }
          states' := states'[h.id := Failed(r.output, attempts + 1)];
          phase := if policy == Some(Abort) then Aborted else Looping;
        }
      }
    }
  }

  /** Collects the results in spawn order; an aborting failure ends the collection at once. */
  method CollectResults(
    wf: Workflow, ghost agents: AgentManager, context: SharedContext, handles: seq<Handle>, states: States, vars: Vars,
    metrics: Metrics)
    returns (states': States, vars': Vars, metrics': Metrics, phase: Phase)
    modifies context
    ensures Pack(states', vars', metrics', context, agents, phase) ==
      CollectAll(wf, handles, old(Pack(states, vars, metrics, context, agents, Looping)))
  {
    states', vars', metrics', phase := states, vars, metrics, Looping;
    ghost var s0 := Pack(states, vars, metrics, context, agents, Looping);
    for i := 0 to |handles|
      invariant phase == Looping
      invariant Pack(states', vars', metrics', context, agents, phase) == CollectAll(wf, handles[..i], s0)
    {
      assert handles[..i + 1][..i] == handles[..i];
      states', vars', metrics', phase := CollectResult(wf, agents, context, handles[i], states', vars', metrics');
      if phase != Looping {
        AbortedCollectionStops(wf, handles, s0, i + 1);
        return;
      }
    }
    assert handles[..|handles|] == handles;
  }

  lemma {:induction false} AbortedCollectionStops(wf: Workflow, hs: seq<Handle>, s: RunState, n: nat)
    requires n <= |hs| && CollectAll(wf, hs[..n], s).phase != Looping
    ensures CollectAll(wf, hs, s) == CollectAll(wf, hs[..n], s)
  {
    if n == |hs| {
      assert hs[..n] == hs;
    } else {
      var front := hs[..|hs| - 1];
      assert front[..n] == hs[..n];
      AbortedCollectionStops(wf, front, s, n);
    }
  }

  lemma {:induction false} EndedStays(wf: Workflow, oc: Oracle, s: RunState, n: nat, m: nat)
    requires n <= m && RunFor(wf, oc, s, n).phase != Looping
    ensures RunFor(wf, oc, s, m) == RunFor(wf, oc, s, n)
  {
    if n < m {
      EndedStays(wf, oc, s, n, m - 1);
    }
  }

  /** One pass through the loop. */
  method Pass(
    wf: Workflow, agents: AgentManager, context: SharedContext, states: States, vars: Vars, metrics: Metrics,
    ghost from: nat)
    returns (states': States, vars': Vars, metrics': Metrics, phase: Phase)
    requires agents.Serves(wf, from)
    modifies agents, context
    ensures agents.Serves(wf, from)
    ensures Pack(states', vars', metrics', context, agents, phase) ==
      Round(wf, agents.answers, old(Pack(states, vars, metrics, context, agents, Looping)))
  {
    states', vars', metrics', phase := states, vars, metrics, Looping;
    var ready := FindReady(wf.steps, states);
    if ready == [] {
      if AllTerminal(states) {
        phase := Finished;
      } else if !AnyRunning(states) {
        phase := Deadlocked;
      }
    } else {
      var spawned, handles := SpawnReady(wf, agents, context, ready, states, vars, metrics, from);
      states', vars', metrics', phase := CollectResults(wf, agents, context, handles, spawned, vars, metrics);
    }
  }

  method Loop(
    wf: Workflow, agents: AgentManager, context: SharedContext, states: States, vars: Vars, metrics: Metrics, rounds: nat,
    ghost from: nat)
    returns (states': States, vars': Vars, metrics': Metrics, phase: Phase)
    requires agents.Serves(wf, from)
    modifies agents, context
    ensures agents.Serves(wf, from)
    ensures Pack(states', vars', metrics', context, agents, phase) ==
      RunFor(wf, agents.answers, old(Pack(states, vars, metrics, context, agents, Looping)), rounds)
  {
    states', vars', metrics', phase := states, vars, metrics, Looping;
    ghost var s0 := Pack(states, vars, metrics, context, agents, Looping);
    for round := 0 to rounds
      invariant phase == Looping && agents.Serves(wf, from)
      invariant Pack(states', vars', metrics', context, agents, phase) == RunFor(wf, agents.answers, s0, round)
    {
      states', vars', metrics', phase := Pass(wf, agents, context, states', vars', metrics', from);
      if phase != Looping {
        EndedStays(wf, agents.answers, s0, round + 1, rounds);
        return;
      }
    }
  }

  /** Runs the loop for at most the given number of rounds. Every pass is one `Round`, whatever order
      the variables of a prompt are visited in. */
  method Execute(wf: Workflow, agents: AgentManager, context: SharedContext, initial: Option<Checkpoint>, rounds: nat)
    returns (outcome: Outcome)
    requires agents.Valid()
    modifies agents, context
    ensures agents.Serves(wf, |old(agents.log)|)
    ensures
      var end := RunFor(wf, agents.answers, Start(wf, initial, old(context.data), old(agents.log)), rounds);
      outcome == Report(end) && agents.log == end.log && context.data == end.shared
  {
    var start := Start(wf, initial, context.data, agents.log);
    var states, vars, metrics, phase := Loop(wf, agents, context, start.states, start.vars, start.metrics, rounds, |agents.log|);
    outcome := Report(RunState(states, vars, context.data, metrics, agents.log, phase));
  }
}
