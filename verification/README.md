# A verified model of the workflow orchestrator

The orchestrator runs workflows of agent steps: it validates a dependency graph, executes the steps in
rounds under failure policies, substitutes outputs into prompts, throttles requests, tracks
asynchronous runs and broadcasts events. This project models that logic in Dafny and proves what it
guarantees over whole runs. `dafny verify dfyconfig.toml` checks everything.

## How the project is laid out

| modules | what they model |
|---|---|
| `Workflows`, `Graphs`, `Kahn` | workflow definitions, cycle detection, topological order and validation |
| `Substitution`, `SubstitutionOrder`, `Templates`, `Placeholders` | text replacement, its simultaneous meaning, templates, the placeholder scan |
| `Engine` | the step states, the reading of an agent's events, one round, the loop, `execute` as methods over objects |
| `EngineEvents`, `EngineBatch`, `EngineRounds` | what reading events, spawning and collecting one batch, and one round amount to |
| `EngineSafety`, `EngineProgress`, `EngineFate`, `EngineLiveness`, `EngineLevels` | causality, termination and retries, the denotation of a workflow, what becomes of every step in runs that may never end, level-synchronous progress |
| `EngineFallbacks`, `EngineTermination`, `EngineForward`, `EngineFailures` | when fallbacks fire and which states they leave, when runs with fallbacks end, fallbacks that change nothing, aborts and what is counted |
| `EngineAccounts`, `EngineReports`, `EngineDataflow`, `EngineResume` | metrics against step states, what states record and runs return, outputs reaching their readers, checkpoints |
| `Scheduler`, `SchedulerWaits`, `SchedulerAcquire`, `SchedulerTight` | the lock regions of all acquirers and notifiers interleaved, how long they wait, one caller as an object, a run that attains the bound |
| `AsyncRuns` | the tasks of an asynchronous run interleaved over the shared run entry |
| `Broadcaster` | the client list of the event broadcaster |

Agents are an oracle: for each step and each execution of it, the finite sequence of events its channel
delivers. The engine's imperative methods (`Engine.Execute` and below) are proved equal to a round
function over a value, and the theorems are proved about that function: `Head(wf, oc, n)` is the n-th
loop head of a fresh run, for any workflow `wf`, oracle `oc` and `n`. Hash-map iteration is an
arbitrary order, chosen anew each time.

The scheduler and the asynchronous runs are state machines. An action is one critical section of one
task, a tick of the clock, or a drop; an action that is not possible changes nothing, so that every
sequence of actions is an interleaving, and theorems range over all sequences.

A fallback (an abort) is *triggered* when a step with that policy fails; "without a triggered fallback"
means that no step has that policy or that such steps never fail (`NeverFallsBack`, `NeverAborts`).

## Where the code does not do what it seems to

The model follows the code. Each entry names an input that shows the difference and the theorem that
says exactly when there is none.

- The original's README (lines 250-252) presents `max_attempts` as a limit. The engine sets a step to
  Running before it collects it and resets a retried step to a bare Pending
  (`crates/ra-engine/src/dag.rs:121` and `229`), so no attempt is ever accumulated.
  `EngineLiveness.RetryLimitIgnored` is a one-step run past its limit;
  `EngineLiveness.RetryLimitKeptIff` says that the limit is kept exactly when the step is never
  executed or succeeds in time anyway.
- Validation looks at literal fallbacks only (`crates/ra-core/src/workflow.rs:172`): a wrapped one may
  name a step that does not exist. `EngineFallbacks.ValidatedFallbackDeadlocks` is such a run;
  `EngineFallbacks.KeysAreStepsIff` says that the states are those of the steps exactly when every
  triggered fallback was to a step, and `EngineFallbacks.MissingFallbackNeverFinishes` what happens
  otherwise.
- Metrics need not agree with the step states: `EngineFailures.FallbackCountsTwice` finishes two steps
  with three agents counted. `EngineAccounts.MetricsAgreeIff` says that they agree exactly when no
  fallback was triggered to a step that was settled at that moment; `EngineForward.ForwardMetricsAgree`
  gives a condition on the workflow alone.
- With a request limit of n, up to n - 1 plus the number of acquirers caught between check and record
  can be recorded in one window: `Scheduler.SlidingWindowBound`, attained in
  `SchedulerTight.BoundIsAttained`. `SchedulerTight.LimitKeptIff` says that the limit is kept exactly
  while at most one is caught there.
- Agents of an asynchronous run that share a name share an entry (the name defaults to "unnamed"), and
  the run's status is then not to be trusted: `AsyncRuns.SharedNameMisleads`, `AsyncRuns.TrustedIff`.

## Model

| member | source | states |
|---|---|---|
| Workflows.FailureAction.Normalize | crates/ra-core/src/workflow.rs:128-145 | a wrapper prefers its retry over its fallback and is a skip without either; every other policy is kept |
| Workflows.IdsCardinality | crates/ra-core/src/workflow.rs:151-158 | comparing the number of distinct ids with the number of steps detects exactly the duplicates |
| Graphs.NoCycleIffRanked | crates/ra-core/src/workflow.rs:188-235 | a finite relation has no cycle if and only if its nodes can be ranked so that every edge goes down |
| Graphs.EndlessSetHasCycle | crates/ra-core/src/workflow.rs:230-232 | a non-empty finite set in which every node has an edge into the set contains a cycle: why leftover nodes mean a cycle |
| Kahn.IncomingFinish | crates/ra-core/src/workflow.rs:216-228 | popping a node lowers the remaining in-degree of each node by exactly the number of arcs between them, repeated dependencies included |
| Kahn.BuildGraph | crates/ra-core/src/workflow.rs:193-206 | the two maps hold every node's in-degree and successors, one entry per declared dependency |
| Kahn.Roots | crates/ra-core/src/workflow.rs:208-212 | the initial queue holds exactly the nodes of in-degree zero, once each, in any order |
| Kahn.Relax | crates/ra-core/src/workflow.rs:218-227 | lowering the in-degrees never goes below zero, and enqueues exactly the nodes that reach zero, once each |
| Kahn.Visit | crates/ra-core/src/workflow.rs:216-228 | a popped node was never popped before, and the loop invariant holds for the next pop |
| Kahn.DryQueueDecides | crates/ra-core/src/workflow.rs:230-232 | when the queue is empty, as many nodes as steps were popped if and only if the workflow is well formed |
| Kahn.CheckNoCycles | crates/ra-core/src/workflow.rs:189-235 | for every queue order and every workflow, accepts if and only if ids are unique, dependencies exist and the dependency relation has no cycle |
| Kahn.TopologicalOrder | crates/ra-core/src/workflow.rs:238-286 | succeeds on exactly the workflows cycle detection accepts; the result is a permutation of the steps with every step after all it depends on; the lookup never fails |
| Kahn.Validate | crates/ra-core/src/workflow.rs:150-186 | accepts exactly the well-formed workflows with existing literal fallbacks; says for each error which first defect it stands for, duplicates before missing names before cycles |
| Substitution.ResolveVariables | crates/ra-engine/src/dag.rs:352-358 | the result is what replacing the placeholders one after the other gives for some order of the map |
| Substitution.ReplaceNothing | crates/ra-engine/src/dag.rs:355 | on any text, a pattern that does not occur leaves the text as it is |
| Substitution.ReplaceFirst | crates/ra-engine/src/dag.rs:355 | on any text, replacement keeps what comes before the first occurrence, replaces that, and goes on behind it |
| Substitution.OneVariableOnAnyText | crates/ra-engine/src/dag.rs:352-358 | on any prompt, whatever braces it holds, a single variable takes the place of its placeholders from left to right, and nothing else changes |
| Substitution.ReplaceIsSubstOne | crates/ra-engine/src/dag.rs:355 | on tokenised text one pass of string replacement hits exactly the placeholders of that name |
| Substitution.InTurnIsAtOnce | crates/ra-engine/src/dag.rs:352-358 | substituting a list of bindings in turn is one simultaneous substitution when used values mention no bound name |
| SubstitutionOrder.ResolutionIsSimultaneous | crates/ra-engine/src/dag.rs:352-358 | for values in which no placeholder can begin, among them all brace-free ones, every iteration order gives the one simultaneous substitution |
| SubstitutionOrder.NothingLeftOver | crates/ra-engine/src/dag.rs:352-358 | when every placeholder has such a value, the result contains no two adjacent opening braces |
| SubstitutionOrder.OrderIrrelevantIff | crates/ra-engine/src/dag.rs:352-358 | for arbitrary tokenised values: all iteration orders give the simultaneous substitution if and only if whatever other bound name a used value mentions is bound to its own placeholder |
| SubstitutionOrder.ChainBreaksOrder | crates/ra-engine/src/dag.rs:354-356 | a used value that mentions a properly bound name makes some iteration order differ |
| Templates.Resolve | crates/ra-core/src/template.rs:41-69 | succeeds if and only if every required parameter has a given value or a default; otherwise names the first declaration that has neither |
| Templates.ParameterMapKeys | crates/ra-core/src/template.rs:58-66 | exactly the declared parameters are substituted, so that other placeholders stay verbatim |
| Templates.ParameterMapGives | crates/ra-core/src/template.rs:58-63 | each declared name gets the given value, or else the default of its first declaration, or else the empty text |
| Templates.TemplateGivesValues | crates/ra-core/src/template.rs:57-68 | in the text returned for a tokenised template, each placeholder of a declared name has become the given value, or else the first default, or else nothing |
| Templates.TemplateIsSimultaneous | crates/ra-core/src/template.rs:57-68 | on tokenised text with calm values the parameter loop is one simultaneous substitution |
| Templates.TemplateThenVariables | crates/ra-core/src/template.rs:41-69 | resolving a template and then the variables is one substitution in which the template's parameters win |
| Placeholders.ScanPrompt | crates/ra-mcp/src/handler.rs:847-865 | warns about exactly the scanned names that no step produces |
| Placeholders.WarnUnproduced | crates/ra-mcp/src/handler.rs:844-866 | the warnings of a workflow are exactly those of its prompts against all output variables |
| Placeholders.FindCloseIsFirst | crates/ra-mcp/src/handler.rs:855 | on any text, the first closing braces are found if and only if there are any |
| Placeholders.SplitFirst | crates/ra-mcp/src/handler.rs:854 | on any text, the first part ends at the first opening braces, and the rest is split in the same way |
| Placeholders.SplitNothing | crates/ra-mcp/src/handler.rs:854 | a text without opening braces is its only part |
| Placeholders.SplitRendered | crates/ra-mcp/src/handler.rs:854-856 | splitting tokenised text gives the leading text and then the placeholder names in order |
| Placeholders.ScanIsExactIff | crates/ra-mcp/src/handler.rs:847-856 | the scan yields exactly the placeholder names if and only if no closing braces stand before the first placeholder |
| EngineEvents.SuccessIffLastResultOk | crates/ra-engine/src/dag.rs:134-188 | an execution succeeds if and only if there is a result event and the last one reports no error |
| EngineEvents.OutputIsLastWrite | crates/ra-engine/src/dag.rs:130-182 | the output is what the last successful result, error or unheralded failing exit wrote, and empty without one |
| EngineEvents.ExitMessageNamesCode | crates/ra-engine/src/dag.rs:174 | the message denotes the exit code in base ten, with a sign if and only if the code is negative |
| EngineEvents.SuccessfulOutput | crates/ra-engine/src/dag.rs:149-205 | a successful step records its last result's text, or that of the last error reported after it |
| Engine.FindReady | crates/ra-engine/src/dag.rs:323-349 | the ready steps are exactly the steps that are pending or unknown and whose dependency conditions all hold |
| Engine.AgentManager.SpawnAgent | crates/ra-engine/src/dag.rs:120-125 | each spawn is recorded with its prompt and answered by the step's next execution |
| Engine.ReadEvents | crates/ra-engine/src/dag.rs:130-182 | reads the channel to its end, event by event |
| Engine.SpawnReady | crates/ra-engine/src/dag.rs:86-126 | spawns the ready steps in order, each prompt resolved over both variable stores, and marks them running |
| Engine.CollectResult | crates/ra-engine/src/dag.rs:129-290 | applies one step's outcome or failure policy to states, variables, shared context and metrics |
| Engine.CollectResults | crates/ra-engine/src/dag.rs:129-290 | collects in spawn order and stops at an aborting failure, leaving later steps as they are |
| Engine.Pass | crates/ra-engine/src/dag.rs:60-291 | one pass ends, reports the deadlock, waits, or executes one batch |
| Engine.Execute | crates/ra-engine/src/dag.rs:28-320 | the outcome, the recorded executions and the shared context are those of that many rounds from the start or from the checkpoint, in every map order; every agent spawned on the way was given its step's prompt with the recorded variables substituted |
| Engine.EndedStays | crates/ra-engine/src/dag.rs:60-83 | more rounds do not change a run that has ended |
| Engine.SharedContext.Set | crates/ra-engine/src/context.rs:35-37 | stores the value under the key and leaves the others |
| Engine.SharedContext.Snapshot | crates/ra-engine/src/context.rs:45-47 | returns all entries |
| EngineBatch.ReadyInStepOrder | crates/ra-engine/src/dag.rs:327-348 | ready steps are found in the order of the steps, each exactly as often as it stands there |
| EngineBatch.SpawnLogAt | crates/ra-engine/src/dag.rs:88-126 | the spawns of a batch come in that order, each with the states that the earlier ones left and the variables of both stores |
| EngineBatch.CollectEffect | crates/ra-engine/src/dag.rs:184-289 | the effect of each outcome and policy on a step that has not failed before: next state, abort, fallback reset, variables and metrics |
| EngineBatch.HandlesAre | crates/ra-engine/src/dag.rs:88-126 | each handle of a batch carries the events of its step's next execution |
| EngineBatch.RoundKeeps | crates/ra-engine/src/dag.rs:85-290 | what holds after spawning and survives every collected result holds after the round, aborted or not |
| EngineRounds.RoundEffect | crates/ra-engine/src/dag.rs:61-290 | without a triggered fallback, a round aborts if and only if a ready step with that policy fails; otherwise exactly the ready steps are executed once and settled |
| EngineSafety.HeadsAreSane | crates/ra-engine/src/dag.rs:60-83 | in a fresh run nothing is running at a loop head that has not aborted, so the wait branch is unreachable; all attempts are 1, retried steps never fail, every step has a state and, if fallback targets exist or no fallback is triggered, nothing else has; both variable stores agree |
| EngineSafety.SpawnsAreCausal | crates/ra-engine/src/dag.rs:85-126 | whenever a step becomes running, all its dependency conditions hold |
| EngineSafety.BatchIsIndependent | crates/ra-engine/src/dag.rs:323-349 | no two steps of a batch depend on each other |
| EngineSafety.TerminalIsForever | crates/ra-engine/src/dag.rs:184-290 | without a triggered fallback a terminal state never changes again |
| EngineSafety.LogIsLinearExtension | crates/ra-engine/src/dag.rs:60-132 | without a triggered fallback the executions are a linear extension of the dependency order |
| EngineReports.StatesRecordLastExecutions | crates/ra-engine/src/dag.rs:184-289 | at every head, whatever the policies: completed and failed steps record the output of their last execution, which succeeded or failed accordingly, and failed, skipped and retried steps are told apart by their policy |
| EngineReports.ResultHoldsRun | crates/ra-engine/src/dag.rs:245-320 | whatever run has ended, result and checkpoint hold its variables, metrics and step states and agree on the state: aborted if and only if it aborted, otherwise failed if and only if some entry is failed, and completed if and only if none is |
| EngineReports.ReturnedStateIff | crates/ra-engine/src/dag.rs:293-300 | a returned fresh run is aborted if and only if a step with that policy failed, otherwise failed if and only if some step did, and completed if and only if every step is completed or skipped |
| EngineProgress.WorkShrinks | crates/ra-engine/src/dag.rs:214-230 | without a triggered fallback, and while every retried step that gets its turn succeeds some day, pending steps plus outstanding failures of retried steps go down in every round |
| EngineProgress.RunEnds | crates/ra-engine/src/dag.rs:60-83 | without a triggered fallback, the run ends within its initial work plus one rounds if each retried step that gets its turn fails finitely often |
| EngineProgress.RetryNeverGivesUp | crates/ra-engine/src/dag.rs:214-230 | without a triggered fallback or abort, a ready retried step that always fails is executed in every later round and the run never ends, whatever its limit |
| EngineFate.EndedRunShowsFates | crates/ra-engine/src/dag.rs:60-83 | without a triggered fallback or abort, a run that has ended shows the fate of every step, defined along the dependency order, and has deadlocked if and only if some step is blocked |
| EngineFate.RunEndsIff | crates/ra-engine/src/dag.rs:60-83 | without a triggered fallback or abort, the run ends if and only if no step is retried for ever |
| EngineFate.LoopRefinesFate | crates/ra-engine/src/dag.rs:60-349 | without a triggered fallback or abort, and with no step retried for ever, the loop returns with exactly the fates as step states if no step is blocked, and reports the deadlock if and only if some step is |
| EngineLiveness.GetsItsTurn | crates/ra-engine/src/dag.rs:60-132 | without a triggered fallback or abort, every step that is not blocked is settled or gets its turn, even while others are retried for ever |
| EngineLiveness.EveryStepMeetsItsFate | crates/ra-engine/src/dag.rs:60-349 | without a triggered fallback or abort, in every run, ended or not: a fated state is reached and kept, a blocked step stays pending and is never executed, any other step is never settled and executed any number of times |
| EngineLiveness.RetryLimitKeptIff | crates/ra-engine/src/dag.rs:214-230 | without a triggered fallback or abort, a step with retry limit n is executed at most n + 1 times in the whole run if and only if it is blocked or one of its first n + 1 executions succeeds |
| EngineLiveness.RetryLimitIgnored | crates/ra-engine/src/dag.rs:214-230 | a validated workflow of one step with limit 1 that is at its n-th execution after n rounds, for every n |
| EngineLevels.LevelIsLongestChain | crates/ra-engine/src/dag.rs:337-346 | a step's level is the number of edges of its longest dependency chain |
| EngineLevels.RoundsAreLevels | crates/ra-engine/src/dag.rs:60-132 | with all agents succeeding and no failure conditions, round k spawns exactly the steps of level k |
| EngineLevels.LevelRunCompletes | crates/ra-engine/src/dag.rs:293-320 | such a run never deadlocks, executes every step once and returns completed with all agents counted |
| EngineFallbacks.KeysAre | crates/ra-engine/src/dag.rs:263-267 | for all policies, the step states are those of the steps and of the targets of all fallbacks triggered so far |
| EngineFallbacks.KeysAreStepsIff | crates/ra-engine/src/dag.rs:263-267 | exactly the steps have states if and only if every fallback triggered so far was to a step |
| EngineFallbacks.MissingFallbackNeverFinishes | crates/ra-engine/src/dag.rs:263-276 | once a fallback to a missing step has been triggered, its target is pending for ever and the run cannot finish |
| EngineFallbacks.FinishedRunsFellBackToSteps | crates/ra-engine/src/dag.rs:66-69 | a run that finishes has states for exactly its steps |
| EngineFallbacks.ValidatedFallbackDeadlocks | crates/ra-core/src/workflow.rs:171-180 | a workflow of one step that validation accepts and whose run falls back to a missing step and has ended in the deadlock error from its second head on |
| EngineTermination.CollectShrinks | crates/ra-engine/src/dag.rs:184-289 | when fallbacks do not lead in a circle and nothing is retried, every collected result lowers the weight of the open steps |
| EngineTermination.FallbackRunsEnd | crates/ra-engine/src/dag.rs:60-83 | such a run ends, whatever the agents answer |
| EngineTermination.CircularFallbacksNeverEnd | crates/ra-engine/src/dag.rs:263-276 | when every step is free to start, falls back to another step and always fails, the run never ends |
| EngineTermination.MutualFallbackNeverEnds | crates/ra-engine/src/dag.rs:263-276 | a validated workflow of two steps without any retry whose run never ends |
| EngineForward.ForwardFallbacksOnlyFail | crates/ra-engine/src/dag.rs:263-276 | when every fallback is to the step itself or to one that depends on it, directly or not, every loop head is that of the workflow without fallbacks, so that all results for runs without them hold |
| EngineForward.ForwardMetricsAgree | crates/ra-engine/src/dag.rs:263-276 | for such workflows the metrics agree with the step states at every head |
| EngineAccounts.BooksBalance | crates/ra-engine/src/dag.rs:200-288 | for all policies and after an abort too, agents and tokens counted are those the step states account for plus those erased by fallbacks to settled steps |
| EngineAccounts.MetricsAgreeIff | crates/ra-engine/src/dag.rs:263-276 | completed and failed agents agree with the step states if and only if no fallback was triggered to a step that was settled at that moment |
| EngineAccounts.MetricsAreConserved | crates/ra-engine/src/dag.rs:200-288 | when no fallback was triggered to a settled step, completed is the number of completed steps, failed that of failed and skipped ones, these and the pending ones make the total unless the run was aborted, and tokens are those of winning results alone |
| EngineFailures.AbortIff | crates/ra-engine/src/dag.rs:235-262 | a run has aborted if and only if some step with the abort policy is failed |
| EngineFailures.AbortLeavesTheRest | crates/ra-engine/src/dag.rs:235-262 | when a round aborts, the batch mates after the failed step are not collected: they stay running, or pending where an earlier fallback reset them |
| EngineFailures.MetricsCountExecutions | crates/ra-engine/src/dag.rs:200-288 | for all policies, unless aborted: completed agents and tokens are those of all successful executions, failed agents those of all failed ones that are not retried |
| EngineFailures.FallbackCountsTwice | crates/ra-engine/src/dag.rs:263-276 | a validated workflow of two steps whose run finishes with two completed agents and one failed one |
| EngineDataflow.OutputsReachTheirReaders | crates/ra-engine/src/dag.rs:92-96 | through retries and fallbacks, a completed step that alone writes its variable has its recorded output in both stores, and every prompt that needs its success saw that output |
| EngineDataflow.SharedContextWins | crates/ra-engine/src/dag.rs:92-96 | from any state, prompts are resolved with the entries of both stores, and where both have a name with that of the shared context |
| EngineDataflow.PromptCarriesOutputs | crates/ra-engine/src/dag.rs:92-96 | when the variables are calm, the prompt an agent gets is its template with all placeholders replaced at once, a needed step's variable by that step's output |
| EngineDataflow.NoWarningNothingLeftOver | crates/ra-mcp/src/handler.rs:846-866 | at a head where every producing step has completed with calm output, resolving the prompt of a step without warning leaves no placeholder |
| EngineDataflow.SpawnedPromptsAreFilled | crates/ra-engine/src/dag.rs:92-96 | no placeholder is left in the prompt an agent was given if every name in its template is written by a step whose success it needs and the variables were calm |
| EngineResume.ResumeEquivalence | crates/ra-engine/src/dag.rs:36-57 | restarting with an empty shared context from any checkpoint that holds the step states, variables and metrics of a loop head of a fresh run gives the same executions, prompts, states, variables, metrics and outcome as the uninterrupted run |
| EngineResume.ResumeFinishedRunsNothing | crates/ra-engine/src/dag.rs:36-69 | resuming an all-terminal checkpoint runs no agent, and returns what the finished run had returned |
| EngineResume.UnknownStepsArePending | crates/ra-engine/src/dag.rs:331-335 | a checkpoint that lacks steps is resumed as if they were pending |
| EngineResume.ResumeWithRunningNeverFinishes | crates/ra-engine/src/dag.rs:71-82 | in a workflow without fallbacks, resuming a checkpoint that holds a running step never finishes and never reports a deadlock |
| Scheduler.PermitsAreConserved | crates/ra-engine/src/scheduler.rs:53-67 | in every interleaving, free and held permits add up to the concurrency limit |
| Scheduler.LiveDeadlineIsKept | crates/ra-engine/src/scheduler.rs:86-108 | in every interleaving, the latest deadline is stored or over, and nobody gets past the wait while the deadline it looked at is live |
| Scheduler.BackpressureIsRespected | crates/ra-engine/src/scheduler.rs:70-108 | an acquirer that looks only after the last notification does not get past the wait before that delay is over |
| Scheduler.WindowsAreBounded | crates/ra-engine/src/scheduler.rs:118-136 | if every request found its own window within the bound when recorded, every window of the history is |
| SchedulerWaits.RecentKeepsTheRest | crates/ra-engine/src/scheduler.rs:117-120 | what is kept are exactly the requests less than a window old, as often as recorded and in order |
| SchedulerWaits.WaitIsLeast | crates/ra-engine/src/scheduler.rs:122-137 | a request waits if and only if the limit is reached and something is kept; the wait ends exactly when the oldest kept request is 60 seconds old, and checking again any earlier would make it wait on |
| SchedulerWaits.AcquirersWaitLeast | crates/ra-engine/src/scheduler.rs:110-147 | the same for every acquirer that is made to wait in any interleaving |
| Scheduler.SlidingWindowBound | crates/ra-engine/src/scheduler.rs:46-67 | in every interleaving, any half-open 60 seconds of the full history hold at most max(1, limit) - 1 + K requests, K being the most acquirers ever between check and record |
| SchedulerTight.BoundIsAttained | crates/ra-engine/src/scheduler.rs:46-67 | for every limit and every K > 0 some interleaving attains that bound |
| SchedulerTight.LimitKeptIff | crates/ra-engine/src/scheduler.rs:46-67 | all interleavings with at most K acquirers between check and record keep every window within max(1, limit) if and only if K is at most 1 |
| SchedulerAcquire.RateState.CheckRate | crates/ra-engine/src/scheduler.rs:112-137 | forgets what left the window; waits if and only if the limit is reached and something is kept, and then until the oldest kept request is exactly 60 seconds old |
| SchedulerAcquire.RateState.ClearBackoff | crates/ra-engine/src/scheduler.rs:101-107 | clears the deadline only if it is over |
| SchedulerAcquire.RateState.Record | crates/ra-engine/src/scheduler.rs:60-64 | appends the request |
| SchedulerAcquire.RateState.NotifyRateLimited | crates/ra-engine/src/scheduler.rs:70-73 | replaces the deadline |
| SchedulerAcquire.RoomAfterSleep | crates/ra-engine/src/scheduler.rs:110-147 | a lone acquirer that has slept until the oldest request left the window is admitted |
| SchedulerAcquire.PriorityScheduler.WaitBackpressure | crates/ra-engine/src/scheduler.rs:86-108 | a lone caller sleeps at most once and no longer than until the stored deadline, and leaves when that is over and cleared |
| SchedulerAcquire.PriorityScheduler.WaitRateLimit | crates/ra-engine/src/scheduler.rs:110-147 | a lone caller sleeps at most once, and from its check on exactly until the oldest kept request is 60 seconds old |
| SchedulerAcquire.PriorityScheduler.Acquire | crates/ra-engine/src/scheduler.rs:46-67 | for callers one at a time, a run of the interleaving model: sleeps at most once in each wait, and in all no longer than until the stored deadline and 60 seconds more, or not beyond the deadline below the limit; records exactly when granted, and no window ever holds more than max(1, limit) requests |
| SchedulerAcquire.PriorityScheduler.Release | crates/ra-engine/src/scheduler.rs:26-29 | gives the permit back, whatever else is going on |
| SchedulerAcquire.PriorityScheduler.NotifyRateLimited | crates/ra-engine/src/scheduler.rs:69-79 | the new deadline is the stored and the latest one, wherever acquirers stand |
| AsyncRuns.RunState.UpdateStatus | crates/ra-core/src/run.rs:83-102 | classifies the run and sums its tokens, in any map order, if all agents are terminal and there are any; otherwise changes nothing |
| AsyncRuns.UpdateClassifies | crates/ra-core/src/run.rs:83-102 | whatever the entries are: a run whose agents are all completed, failed or killed is failed if all, partially completed if some, and completed if none of them failed; any other run stays as it is |
| AsyncRuns.RunState.MarkRunning | crates/ra-mcp/src/handler.rs:223-232 | marks the named agent, if there is one |
| AsyncRuns.RunState.Finish | crates/ra-mcp/src/handler.rs:248-269 | writes the result to the named agent's entry and updates the status in the same critical section |
| AsyncRuns.RunState.constructor | crates/ra-mcp/src/handler.rs:184-202 | one pending entry per name |
| AsyncRuns.EntriesTell | crates/ra-core/src/run.rs:83-102 | with distinct names, looking at the entries tells whether all tasks have reported, and the update computes their verdict and token sum |
| AsyncRuns.EntriesSayWhatWasReturned | crates/ra-mcp/src/handler.rs:222-269 | in every interleaving of distinctly named agents, an agent that has reported is listed with exactly the output and tokens, or the error, that it returned, and one that has not with neither |
| AsyncRuns.StatusFollowsAgents | crates/ra-mcp/src/handler.rs:187-285 | in every interleaving of distinctly named agents the status is running exactly while some agent is not terminal, and then it is the verdict on all results with their exact token sum |
| AsyncRuns.VerdictIsForever | crates/ra-mcp/src/handler.rs:248-285 | once the status leaves running, nothing about the run changes any more |
| AsyncRuns.PermitsAreConserved | crates/ra-mcp/src/handler.rs:209-234 | free permits and working tasks add up to the concurrency limit |
| AsyncRuns.StepCounts | crates/ra-mcp/src/handler.rs:212-285 | every step of every interleaving shortens what remains, so that none goes on for ever |
| AsyncRuns.NeverStuck | crates/ra-mcp/src/handler.rs:212-285 | until the last update somebody can take a step |
| AsyncRuns.EveryRunCanFinish | crates/ra-mcp/src/handler.rs:212-285 | with a permit and agents that return, every interleaving can be continued to the end with the right verdict |
| AsyncRuns.SharedNameMisleads | crates/ra-mcp/src/handler.rs:187-202 | two agents of one name: some interleaving shows a finished run with an agent running |
| AsyncRuns.TrustedIff | crates/ra-mcp/src/handler.rs:187-285 | the status can be trusted in every interleaving if and only if there are agents and their names are distinct (or there are no permits at all) |
| Broadcaster.ListedIff | crates/ra-mcp/src/ipc_broadcaster.rs:50-87 | a client is listed if and only if it joined, has taken every write since, and has received precisely the events since, in order |
| Broadcaster.RemoveLast | crates/ra-mcp/src/ipc_broadcaster.rs:82-86 | removing the largest index first leaves the other indices valid and gives the order-preserving filter |
| Broadcaster.ServedAreKept | crates/ra-mcp/src/ipc_broadcaster.rs:73-86 | taking out the failed indices leaves exactly the clients that took the write |
| Broadcaster.ListedForward | crates/ra-mcp/src/ipc_broadcaster.rs:66-87 | who is listed after one more event |
| Broadcaster.ListedAccept | crates/ra-mcp/src/ipc_broadcaster.rs:50-56 | who is listed after one more accept |
| Broadcaster.Broadcaster.Accept | crates/ra-mcp/src/ipc_broadcaster.rs:50-56 | the list stays what the whole history of accepts and events says it is |
| Broadcaster.Broadcaster.Remove | crates/ra-mcp/src/ipc_broadcaster.rs:82-86 | never indexes out of bounds and gives the order-preserving filter |
| Broadcaster.Broadcaster.Forward | crates/ra-mcp/src/ipc_broadcaster.rs:66-87 | the list stays what the whole history of accepts and events says it is |

## Left out

- Engine.Execute: runs for a given number of rounds, because a run need not end (see `EngineProgress.RetryNeverGivesUp`); the theorems range over every number of rounds.
- SchedulerAcquire.PriorityScheduler.Acquire: is for one caller at a time; a call that finds no free permit would stay queued and here leaves as a cancelled one does. Concurrent callers are in `Scheduler`.
- AsyncRuns.EveryRunCanFinish: assumes that every agent that gets a permit returns, which is up to the agent.
- Broadcaster.Broadcaster.Forward: a receiver that lags behind the event channel ends the loop in the original; the model has no lag. Streams are values owned by the list, and a failed write leaves the dropped client's stream as it was.
- The scheduler call inside the engine's spawn loop (`crates/ra-engine/src/dag.rs:90`): the model has no permit there, and states no bound on the agents at work.
- `inject_context` (`crates/ra-core/src/workflow.rs:68-70`): the field is not modelled; the engine does not look at it.
- The shared context's `merge` and `clear` (`crates/ra-engine/src/context.rs:50-58`): the engine does not use them.
- Failing spawns, which end the original with an error, and everything about agent processes: spawning, arguments, reading standard output, cancellation.
- Real time: sleeping and waking are ticks of a nondecreasing integer clock in milliseconds; fairness of the semaphore's queue is not modelled.
- Costs as floating-point numbers, token budgets, and overflow of the 32-bit and 64-bit counters: token sums and counts are naturals.
- Step names, agent configuration, agent ids, run ids and timestamps: opaque and without influence on the logic.
- Text that is not tokenised, such as prompts with three adjacent opening braces: what one replacement pass does is proved for any text (`Substitution.ReplaceFirst`), the simultaneous meaning of all passes only for tokenised text.
- The counting functions of a tracked run (`crates/ra-core/src/run.rs:61-80`): filters that only feed a report.
- SQLite stores, history, YAML and JSON parsing, the terminal dashboard, the command line, tool dispatch, exports and template discovery on disk: input, output and presentation.
