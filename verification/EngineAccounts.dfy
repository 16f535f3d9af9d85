/** The run's metrics are determined by its step states: nothing is counted twice or lost. */
module EngineAccounts {
  import opened Wrappers
  import opened Workflows
  import opened Engine
  import opened EngineBatch
  import opened EngineRounds
  import opened EngineSafety
  import opened EngineFallbacks

  datatype Kind = IsPending | IsRunning | IsCompleted | IsFailedOrSkipped

  function KindOf(state: StepState): Kind {
    match state
    case Pending => IsPending
    case Running => IsRunning
    case Completed(_) => IsCompleted
    case Failed(_, _) => IsFailedOrSkipped
    case Skipped => IsFailedOrSkipped
  }

  function One(states: States, kind: Kind, step: Step): nat {
    if step.id in states && KindOf(states[step.id]) == kind then 1 else 0
  }

  /** The number of steps of a kind. */
  ghost function Tally(wf: Workflow, states: States, kind: Kind): nat {
    Sum(wf.steps, step => One(states, kind, step))
  }

  /** The tokens of the winning result of a completed step, and none for any other step. */
  function Tokens(oc: Oracle, s: RunState, step: Step): Usage {
    if step.id in s.states && s.states[step.id].Completed? && Executions(s.log, step.id) > 0
      && ReadAll(oc(step.id, Executions(s.log, step.id) - 1)).result.Some?
    then
      var r := ReadAll(oc(step.id, Executions(s.log, step.id) - 1)).result.value;
      Usage(r.inputTokens, r.outputTokens)
    else Usage(0, 0)
  }

  /** What is booked: completed and failed agents, and the tokens of both kinds. */
  datatype Books = Books(completed: nat, failed: nat, input: nat, output: nat)

  function Add(a: Books, b: Books): Books {
    Books(a.completed + b.completed, a.failed + b.failed, a.input + b.input, a.output + b.output)
  }

  function Nothing(): Books {
    Books(0, 0, 0, 0)
  }

  function Booked(m: Metrics): Books {
    Books(m.completedAgents, m.failedAgents, m.inputTokens, m.outputTokens)
  }

  /** What a step's state accounts for. */
  function StepBooks(oc: Oracle, s: RunState, step: Step): Books {
    Books(One(s.states, IsCompleted, step), One(s.states, IsFailedOrSkipped, step),
          Tokens(oc, s, step).inputTokens, Tokens(oc, s, step).outputTokens)
  }

  /** What the step states account for. */
  ghost function BooksOf(wf: Workflow, oc: Oracle, s: RunState): Books {
    Books(Sum(wf.steps, x => StepBooks(oc, s, x).completed), Sum(wf.steps, x => StepBooks(oc, s, x).failed),
          Sum(wf.steps, x => StepBooks(oc, s, x).input), Sum(wf.steps, x => StepBooks(oc, s, x).output))
  }

  /** What the fallback triggered by collecting the result erases from the states. */
  function Erased(wf: Workflow, oc: Oracle, h: Handle, t: RunState): Books {
    var target := Fallen(wf, h, t);
    var step := if target.Some? then StepWithId(wf.steps, target.value) else None;
    if step.Some? then StepBooks(oc, t, step.value) else Nothing()
  }

  function ErasedIn(wf: Workflow, oc: Oracle, hs: seq<Handle>, t: RunState): Books {
    if hs == [] then Nothing()
    else
      var n := |hs| - 1;
      Add(ErasedIn(wf, oc, hs[..n], t), Erased(wf, oc, hs[n], CollectAll(wf, hs[..n], t)))
  }

  function ErasedBefore(wf: Workflow, oc: Oracle, n: nat): Books {
    if n == 0 then Nothing()
    else
      var s := Head(wf, oc, n - 1);
      Add(ErasedBefore(wf, oc, n - 1), ErasedIn(wf, oc, RoundHandles(wf, oc, s), SpawnAll(FindReady(wf.steps, s.states), s)))
  }

  ghost predicate Balanced(wf: Workflow, oc: Oracle, s: RunState, erased: Books) {
    Booked(s.metrics) == Add(BooksOf(wf, oc, s), erased) && s.metrics.totalAgents == |wf.steps|
  }

  /** Settling one step and reopening its fallback changes the books by just these two entries. */
  lemma BooksChange(wf: Workflow, oc: Oracle, s: RunState, t: RunState, step: Step, reopened: Option<Step>)
    requires UniqueIds(wf) && step in wf.steps && StepBooks(oc, s, step) == Nothing()
    requires reopened.Some? ==>
      reopened.value in wf.steps && reopened.value.id != step.id && StepBooks(oc, t, reopened.value) == Nothing()
    requires forall x <- wf.steps :: x.id != step.id && (reopened.Some? ==> x.id != reopened.value.id) ==>
      StepBooks(oc, t, x) == StepBooks(oc, s, x)
    ensures Add(BooksOf(wf, oc, t), if reopened.Some? then StepBooks(oc, s, reopened.value) else Nothing()) ==
      Add(BooksOf(wf, oc, s), StepBooks(oc, t, step))
  {
    hide StepBooks;
    SumTwoChanges(wf.steps, x => StepBooks(oc, s, x).completed, x => StepBooks(oc, t, x).completed, reopened, step);
    SumTwoChanges(wf.steps, x => StepBooks(oc, s, x).failed, x => StepBooks(oc, t, x).failed, reopened, step);
    SumTwoChanges(wf.steps, x => StepBooks(oc, s, x).input, x => StepBooks(oc, t, x).input, reopened, step);
    SumTwoChanges(wf.steps, x => StepBooks(oc, s, x).output, x => StepBooks(oc, t, x).output, reopened, step);
  }

  lemma OpenBooksNothing(oc: Oracle, s: RunState, step: Step)
    requires step.id in s.states ==> !s.states[step.id].IsTerminal()
    ensures StepBooks(oc, s, step) == Nothing()
  {
  }

  /** What a settled step is booked for is what its metrics were raised by. */
  lemma SettledBooks(wf: Workflow, oc: Oracle, step: Step, h: Handle, t: RunState)
    requires UniqueIds(wf) && Collectable(wf, oc, step, h, t)
    ensures Booked(CollectOne(wf, h, t).metrics) == Add(Booked(t.metrics), StepBooks(oc, CollectOne(wf, h, t), step))
    ensures CollectOne(wf, h, t).metrics.totalAgents == t.metrics.totalAgents
  {
    hide CollectOne, ReadAll;
    CollectEffect(wf, step, h, t);
  }

  lemma ReopenedBooks(wf: Workflow, oc: Oracle, step: Step, h: Handle, t: RunState)
    requires UniqueIds(wf) && Collectable(wf, oc, step, h, t)
    ensures
      var t', target := CollectOne(wf, h, t), Fallen(wf, h, t);
      var reopened := if target.Some? then FallbackStep(wf, step) else None;
      && (target.Some? ==> step.FallsBack() && step.Policy().value.target == target.value)
      && Erased(wf, oc, h, t) == (if reopened.Some? then StepBooks(oc, t, reopened.value) else Nothing())
      && (reopened.Some? ==> StepBooks(oc, t', reopened.value) == Nothing())
      && forall x <- wf.steps :: x.id != step.id && (reopened.Some? ==> x.id != reopened.value.id) ==>
        StepBooks(oc, t', x) == StepBooks(oc, t, x)
  {
    hide CollectOne, ReadAll, Settled;
    CollectEffect(wf, step, h, t);
    PolicyIsOwn(wf, step);
    OpenBooksNothing(oc, t, step);
    var target := Fallen(wf, h, t);
    if target == Some(step.id) {
      SameStep(wf, step, StepWithId(wf.steps, step.id).value);
    }
  }

  lemma BalancedCollect(wf: Workflow, oc: Oracle, step: Step, h: Handle, t: RunState, erased: Books)
    requires UniqueIds(wf) && Collectable(wf, oc, step, h, t) && Balanced(wf, oc, t, erased)
    ensures Balanced(wf, oc, CollectOne(wf, h, t), Add(erased, Erased(wf, oc, h, t)))
  {
    hide CollectOne, ReadAll, StepBooks, BooksOf, Erased, Fallen;
    OpenBooksNothing(oc, t, step);
    SettledBooks(wf, oc, step, h, t);
    ReopenedBooks(wf, oc, step, h, t);
    var reopened := if Fallen(wf, h, t).Some? then FallbackStep(wf, step) else None;
    BooksChange(wf, oc, t, CollectOne(wf, h, t), step, reopened);
  }

  lemma {:induction false} BalancedCollects(
    wf: Workflow, oc: Oracle, s: RunState, ready: seq<Step>, hs: seq<Handle>, j: nat, erased: Books)
    requires UniqueIds(wf) && Batch(wf, ready, hs) && hs == Handles(oc, ready, s) && j <= |ready|
    requires var spawned := SpawnAll(ready, s);
      spawned.phase == Looping && MidBatch(ready, 0, spawned.states) && Balanced(wf, oc, spawned, erased)
    ensures Balanced(wf, oc, CollectAll(wf, hs[..j], SpawnAll(ready, s)), Add(erased, ErasedIn(wf, oc, hs[..j], SpawnAll(ready, s))))
  {
    hide CollectOne, SpawnAll, Handles, Balanced, Erased, ErasedIn, Add, Nothing;
    var spawned := SpawnAll(ready, s);
    AddsNothing(erased, erased);
    if j == 0 {
      assert hs[..0] == [];
      NothingErasedYet(wf, oc, spawned);
    } else {
      var before := CollectAll(wf, hs[..j - 1], spawned);
      assert hs[..j][..j - 1] == hs[..j - 1];
      ErasedNext(wf, oc, hs, spawned, j - 1);
      AddAssociates(erased, ErasedIn(wf, oc, hs[..j - 1], spawned), Erased(wf, oc, hs[j - 1], before));
      AddsNothing(Add(erased, ErasedIn(wf, oc, hs[..j - 1], spawned)), erased);
      BalancedCollects(wf, oc, s, ready, hs, j - 1, erased);
      CollectKeepsLog(wf, hs[j - 1], before);
      if before.phase == Looping {
        MidBatchHolds(wf, ready, hs, j - 1, spawned);
        HandleIsCollectable(wf, oc, s, ready, hs, j - 1, before);
        BalancedCollect(wf, oc, ready[j - 1], hs[j - 1], before, Add(erased, ErasedIn(wf, oc, hs[..j - 1], spawned)));
      } else {
        NothingErased(wf, oc, hs[j - 1], before);
      }
    }
  }

  lemma NothingErased(wf: Workflow, oc: Oracle, h: Handle, t: RunState)
    requires t.phase != Looping
    ensures Erased(wf, oc, h, t) == Nothing()
  {
  }

  lemma TokensSpawn(wf: Workflow, oc: Oracle, s: RunState, step: Step)
    requires UniqueIds(wf) && step in wf.steps && step.id in s.states
    ensures Tokens(oc, SpawnAll(FindReady(wf.steps, s.states), s), step) == Tokens(oc, s, step)
  {
    hide FindReady, SpawnAll, ReadAll;
    var ready := FindReady(wf.steps, s.states);
    ReadyIdsDistinct(wf.steps, s.states);
    SpawnEffect(ready, s);
    SpawnCounts(ready, s, step.id);
    forall other | other in ready ensures other.id in s.states ==> s.states[other.id].Pending? {
      assert IsReady(other, s.states);
    }
  }

  lemma BooksSpawn(wf: Workflow, oc: Oracle, s: RunState)
    requires UniqueIds(wf) && Ids(wf) <= s.states.Keys
    ensures BooksOf(wf, oc, SpawnAll(FindReady(wf.steps, s.states), s)) == BooksOf(wf, oc, s)
  {
    hide FindReady, SpawnAll, Tokens;
    var ready := FindReady(wf.steps, s.states);
    var t := SpawnAll(ready, s);
    SpawnEffect(ready, s);
    forall other | other in ready ensures other.id in s.states ==> s.states[other.id].Pending? {
      assert IsReady(other, s.states);
    }
    forall step | step in wf.steps ensures StepBooks(oc, t, step) == StepBooks(oc, s, step) {
      assert step.id in Ids(wf);
      TokensSpawn(wf, oc, s, step);
    }
    SameBooks(wf, oc, s, t);
  }

  lemma SameBooks(wf: Workflow, oc: Oracle, s: RunState, t: RunState)
    requires forall step <- wf.steps :: StepBooks(oc, t, step) == StepBooks(oc, s, step)
    ensures BooksOf(wf, oc, t) == BooksOf(wf, oc, s)
  {
    hide StepBooks;
    SumSame(wf.steps, x => StepBooks(oc, s, x).completed, x => StepBooks(oc, t, x).completed);
    SumSame(wf.steps, x => StepBooks(oc, s, x).failed, x => StepBooks(oc, t, x).failed);
    SumSame(wf.steps, x => StepBooks(oc, s, x).input, x => StepBooks(oc, t, x).input);
    SumSame(wf.steps, x => StepBooks(oc, s, x).output, x => StepBooks(oc, t, x).output);
  }

  lemma BalancedRound(wf: Workflow, oc: Oracle, s: RunState, erased: Books)
    requires UniqueIds(wf) && Ids(wf) <= s.states.Keys && Balanced(wf, oc, s, erased)
    requires s.phase == Looping ==> NoneRunning(s.states)
    ensures Balanced(wf, oc, Round(wf, oc, s),
      Add(erased, ErasedIn(wf, oc, RoundHandles(wf, oc, s), SpawnAll(FindReady(wf.steps, s.states), s))))
  {
    hide FindReady, SpawnAll, Round, Handles, CollectAll, BooksOf;
    if s.phase != Looping {
      RoundEnded(wf, oc, s);
    } else {
      var ready, hs := RoundBatch(wf, oc, s);
      if ready == [] {
        EmptyRound(wf, oc, s);
        SameBooks(wf, oc, s, Round(wf, oc, s));
      } else {
        BooksSpawn(wf, oc, s);
        SpawnEffect(ready, s);
        BalancedCollects(wf, oc, s, ready, hs, |ready|, erased);
        assert hs[..|ready|] == hs;
      }
    }
  }

  lemma EmptyRound(wf: Workflow, oc: Oracle, s: RunState)
    requires FindReady(wf.steps, s.states) == [] && s.phase == Looping
    ensures Round(wf, oc, s) == s.(phase := Round(wf, oc, s).phase)
  {
  }

  lemma {:induction false} SumZero(steps: seq<Step>, weight: Step -> nat)
    requires forall s <- steps :: weight(s) == 0
    ensures Sum(steps, weight) == 0
  {
    if steps != [] {
      var n := |steps| - 1;
      assert steps == steps[..n] + [steps[n]];
      SumZero(steps[..n], weight);
    }
  }

  lemma NoBooks(wf: Workflow, oc: Oracle, s: RunState)
    requires forall step <- wf.steps :: StepBooks(oc, s, step) == Nothing()
    ensures BooksOf(wf, oc, s) == Nothing()
  {
    hide StepBooks;
    SumZero(wf.steps, x => StepBooks(oc, s, x).completed);
    SumZero(wf.steps, x => StepBooks(oc, s, x).failed);
    SumZero(wf.steps, x => StepBooks(oc, s, x).input);
    SumZero(wf.steps, x => StepBooks(oc, s, x).output);
  }

  lemma BalancedStart(wf: Workflow, oc: Oracle)
    ensures Balanced(wf, oc, Fresh(wf), Nothing())
  {
    hide StepBooks, BooksOf, Fresh;
    FreshIs(wf);
    forall step | step in wf.steps ensures StepBooks(oc, Fresh(wf), step) == Nothing() {
      OpenBooksNothing(oc, Fresh(wf), step);
    }
    NoBooks(wf, oc, Fresh(wf));
  }

  /** The books balance at every head of every fresh run, whatever the policies and even after an abort:
      the metrics are what the step states account for, and what fallbacks have erased from them. */
  lemma {:induction false} BooksBalance(wf: Workflow, oc: Oracle, n: nat)
    requires UniqueIds(wf)
    ensures Balanced(wf, oc, Head(wf, oc, n), ErasedBefore(wf, oc, n))
  {
    hide Balanced, Head, Round, FindReady, SpawnAll, ErasedIn, RoundHandles;
    HeadStep(wf, oc, 0);
    if n == 0 {
      BalancedStart(wf, oc);
    } else {
      BooksBalance(wf, oc, n - 1);
      HeadStep(wf, oc, n - 1);
      HeadsAreSane(wf, oc, n - 1);
      BalancedRound(wf, oc, Head(wf, oc, n - 1), ErasedBefore(wf, oc, n - 1));
    }
  }

  // When the metrics agree with the step states

  /** The fallback triggered by collecting this result is to a step that was settled already. */
  ghost predicate Unsettles(wf: Workflow, h: Handle, t: RunState) {
    var target := Fallen(wf, h, t);
    target.Some? && target.value in Ids(wf) && target.value in t.states && t.states[target.value].IsTerminal()
  }

  lemma IdOfSome(wf: Workflow, id: StepId)
    ensures id in Ids(wf) <==> StepWithId(wf.steps, id).Some?
  {
  }

  predicate IsNothing(b: Books) {
    b.completed == b.failed == 0
  }

  lemma AddAssociates(a: Books, b: Books, c: Books)
    ensures Add(Add(a, b), c) == Add(a, Add(b, c))
  {
  }

  lemma AddsNothing(a: Books, b: Books)
    ensures IsNothing(Add(a, b)) <==> IsNothing(a) && IsNothing(b)
    ensures Add(a, Nothing()) == a && IsNothing(Nothing())
  {
  }

  lemma NothingErasedYet(wf: Workflow, oc: Oracle, t: RunState)
    ensures ErasedIn(wf, oc, [], t) == Nothing()
  {
  }

  lemma ErasedNext(wf: Workflow, oc: Oracle, hs: seq<Handle>, t: RunState, j: nat)
    requires j < |hs|
    ensures ErasedIn(wf, oc, hs[..j + 1], t) == Add(ErasedIn(wf, oc, hs[..j], t), Erased(wf, oc, hs[j], CollectAll(wf, hs[..j], t)))
  {
    hide Erased, CollectAll;
    assert hs[..j + 1][..j] == hs[..j];
  }

  lemma ErasedIff(wf: Workflow, oc: Oracle, h: Handle, t: RunState)
    ensures Unsettles(wf, h, t) <==> !IsNothing(Erased(wf, oc, h, t))
    ensures !Unsettles(wf, h, t) ==> Erased(wf, oc, h, t) == Nothing()
  {
    hide Fallen, ReadAll;
    var target := Fallen(wf, h, t);
    if target.Some? {
      IdOfSome(wf, target.value);
    }
  }

  ghost predicate UnsettlesIn(wf: Workflow, oc: Oracle, s: RunState, j: int) {
    0 <= j < |RoundHandles(wf, oc, s)| && Unsettles(wf, RoundHandles(wf, oc, s)[j], MidRound(wf, oc, s, j))
  }

  /** One of the first j results of the round unsettles a step. */
  ghost predicate UnsettlesWithin(wf: Workflow, oc: Oracle, s: RunState, j: int) {
    exists i :: i < j && UnsettlesIn(wf, oc, s, i)
  }

  /** Before the n-th head, some fallback was triggered to a step that was settled at that moment. */
  ghost predicate UnsettledBefore(wf: Workflow, oc: Oracle, n: nat) {
    exists k: nat, j :: k < n && UnsettlesIn(wf, oc, Head(wf, oc, k), j)
  }

  lemma UnsettlesNext(wf: Workflow, oc: Oracle, s: RunState, j: nat)
    ensures !UnsettlesWithin(wf, oc, s, 0)
    ensures UnsettlesWithin(wf, oc, s, j + 1) <==> UnsettlesWithin(wf, oc, s, j) || UnsettlesIn(wf, oc, s, j)
  {
    hide Unsettles, RoundHandles, MidRound;
    if i :| i < j + 1 && UnsettlesIn(wf, oc, s, i) {
      assert i < j ==> UnsettlesWithin(wf, oc, s, j);
    }
  }

  lemma {:induction false} ErasedInIff(wf: Workflow, oc: Oracle, s: RunState, j: nat)
    requires j <= |RoundHandles(wf, oc, s)|
    ensures
      var erased := ErasedIn(wf, oc, RoundHandles(wf, oc, s)[..j], SpawnAll(FindReady(wf.steps, s.states), s));
      && (UnsettlesWithin(wf, oc, s, j) <==> !IsNothing(erased))
      && (IsNothing(erased) ==> erased == Nothing())
  {
    hide Erased, ErasedIn, Unsettles, CollectAll, SpawnAll, FindReady, RoundHandles, UnsettlesWithin, IsNothing, Add, Nothing;
    var hs, spawned := RoundHandles(wf, oc, s), SpawnAll(FindReady(wf.steps, s.states), s);
    AddsNothing(Nothing(), Nothing());
    if j == 0 {
      UnsettlesNext(wf, oc, s, 0);
      assert hs[..0] == [];
      assert ErasedIn(wf, oc, [], spawned) == Nothing() by {
        NothingErasedYet(wf, oc, spawned);
      }
    } else {
      ErasedInIff(wf, oc, s, j - 1);
      ErasedNext(wf, oc, hs, spawned, j - 1);
      ErasedIff(wf, oc, hs[j - 1], MidRound(wf, oc, s, j - 1));
      AddsNothing(ErasedIn(wf, oc, hs[..j - 1], spawned), Erased(wf, oc, hs[j - 1], MidRound(wf, oc, s, j - 1)));
      UnsettlesNext(wf, oc, s, j - 1);
    }
  }

  lemma UnsettledNext(wf: Workflow, oc: Oracle, n: nat)
    ensures !UnsettledBefore(wf, oc, 0)
    ensures UnsettledBefore(wf, oc, n + 1) <==>
      UnsettledBefore(wf, oc, n) || UnsettlesWithin(wf, oc, Head(wf, oc, n), |RoundHandles(wf, oc, Head(wf, oc, n))|)
  {
    hide Head, Unsettles, RoundHandles, MidRound;
    if k: nat, j :| k < n + 1 && UnsettlesIn(wf, oc, Head(wf, oc, k), j) {
      assert k < n ==> UnsettledBefore(wf, oc, n);
    }
  }

  lemma {:induction false} ErasedBeforeIff(wf: Workflow, oc: Oracle, n: nat)
    ensures UnsettledBefore(wf, oc, n) <==> !IsNothing(ErasedBefore(wf, oc, n))
    ensures IsNothing(ErasedBefore(wf, oc, n)) ==> ErasedBefore(wf, oc, n) == Nothing()
  {
    hide Head, ErasedIn, UnsettlesWithin, RoundHandles, SpawnAll, FindReady, UnsettledBefore, IsNothing, UnsettlesIn, Add, Nothing;
    AddsNothing(Nothing(), Nothing());
    if n == 0 {
      UnsettledNext(wf, oc, 0);
    } else {
      var s := Head(wf, oc, n - 1);
      var hs := RoundHandles(wf, oc, s);
      ErasedBeforeIff(wf, oc, n - 1);
      UnsettledNext(wf, oc, n - 1);
      ErasedInIff(wf, oc, s, |hs|);
      assert hs[..|hs|] == hs;
      AddsNothing(ErasedBefore(wf, oc, n - 1), ErasedIn(wf, oc, hs, SpawnAll(FindReady(wf.steps, s.states), s)));
    }
  }

  ghost predicate CountsAgree(wf: Workflow, s: RunState) {
    && s.metrics.completedAgents == Tally(wf, s.states, IsCompleted)
    && s.metrics.failedAgents == Tally(wf, s.states, IsFailedOrSkipped)
  }

  /** At every head, after an abort too, the metrics agree with the step states exactly if no fallback
      was triggered to a step that was settled at that moment. */
  lemma MetricsAgreeIff(wf: Workflow, oc: Oracle, n: nat)
    requires UniqueIds(wf)
    ensures CountsAgree(wf, Head(wf, oc, n)) <==> !UnsettledBefore(wf, oc, n)
  {
    hide Head, ErasedBefore, UnsettledBefore, Tokens, BooksOf, Tally;
    BooksBalance(wf, oc, n);
    ErasedBeforeIff(wf, oc, n);
    BooksTally(wf, oc, Head(wf, oc, n));
  }

  lemma BooksTally(wf: Workflow, oc: Oracle, s: RunState)
    ensures BooksOf(wf, oc, s).completed == Tally(wf, s.states, IsCompleted)
    ensures BooksOf(wf, oc, s).failed == Tally(wf, s.states, IsFailedOrSkipped)
    ensures BooksOf(wf, oc, s).input == Sum(wf.steps, step => Tokens(oc, s, step).inputTokens)
    ensures BooksOf(wf, oc, s).output == Sum(wf.steps, step => Tokens(oc, s, step).outputTokens)
  {
    hide Tokens, One;
    SumSame(wf.steps, x => StepBooks(oc, s, x).completed, x => One(s.states, IsCompleted, x));
    SumSame(wf.steps, x => StepBooks(oc, s, x).failed, x => One(s.states, IsFailedOrSkipped, x));
    SumSame(wf.steps, x => StepBooks(oc, s, x).input, x => Tokens(oc, s, x).inputTokens);
    SumSame(wf.steps, x => StepBooks(oc, s, x).output, x => Tokens(oc, s, x).outputTokens);
  }

  lemma {:induction false} KindsPartition(steps: seq<Step>, states: States)
    requires forall s <- steps :: s.id in states && !states[s.id].Running?
    ensures Sum(steps, x => One(states, IsCompleted, x)) + Sum(steps, x => One(states, IsFailedOrSkipped, x))
      + Sum(steps, x => One(states, IsPending, x)) == |steps|
  {
    if steps != [] {
      var n := |steps| - 1;
      assert steps == steps[..n] + [steps[n]];
      KindsPartition(steps[..n], states);
    }
  }

  /** Conservation, as long as no fallback was triggered to a settled step: the completed count is the
      number of Completed steps, the failed count that of Failed and Skipped ones, these and the pending
      steps add up to the total unless the run was aborted, and token totals are those of the winning
      results alone. */
  lemma MetricsAreConserved(wf: Workflow, oc: Oracle, n: nat)
    requires UniqueIds(wf) && !UnsettledBefore(wf, oc, n)
    ensures
      var s := Head(wf, oc, n);
      && s.metrics.totalAgents == |wf.steps|
      && s.metrics.completedAgents == Tally(wf, s.states, IsCompleted)
      && s.metrics.failedAgents == Tally(wf, s.states, IsFailedOrSkipped)
      && (s.phase != Aborted ==>
        s.metrics.completedAgents + s.metrics.failedAgents + Tally(wf, s.states, IsPending) == s.metrics.totalAgents)
      && s.metrics.inputTokens == Sum(wf.steps, step => Tokens(oc, s, step).inputTokens)
      && s.metrics.outputTokens == Sum(wf.steps, step => Tokens(oc, s, step).outputTokens)
  {
    hide Head, ErasedBefore, UnsettledBefore, Tokens, BooksOf, Tally;
    var s := Head(wf, oc, n);
    BooksBalance(wf, oc, n);
    ErasedBeforeIff(wf, oc, n);
    BooksTally(wf, oc, s);
    HeadsAreSane(wf, oc, n);
    if s.phase != Aborted {
      forall step | step in wf.steps ensures step.id in s.states && !s.states[step.id].Running? {
        assert step.id in Ids(wf);
      }
      TotalsAddUp(wf, s.states);
    }
  }

  lemma TotalsAddUp(wf: Workflow, states: States)
    requires forall step <- wf.steps :: step.id in states && !states[step.id].Running?
    ensures Tally(wf, states, IsCompleted) + Tally(wf, states, IsFailedOrSkipped) + Tally(wf, states, IsPending) == |wf.steps|
  {
    KindsPartition(wf.steps, states);
  }

  lemma NeverUnsettled(wf: Workflow, oc: Oracle, n: nat)
    requires UniqueIds(wf) && NeverFallsBack(wf, oc)
    ensures !UnsettledBefore(wf, oc, n)
  {
    hide Head, RoundHandles, MidRound, Fallen;
    forall k: nat, j | k < n ensures !UnsettlesIn(wf, oc, Head(wf, oc, k), j) {
      if UnsettlesIn(wf, oc, Head(wf, oc, k), j) {
        NeverFires(wf, oc, Head(wf, oc, k), j,
          Fallen(wf, RoundHandles(wf, oc, Head(wf, oc, k))[j], MidRound(wf, oc, Head(wf, oc, k), j)).value);
      }
    }
  }
}
