/** The sliding-window bound is exact: it is attained for every limit and every number of acquirers
    caught between their check and their record. */
module SchedulerTight {
  import opened Wrappers
  import opened Scheduler

  function Zeros(n: nat): seq<Instant> {
    seq(n, _ => 0)
  }

  function Crowd(n: nat): Tasks {
    if n == 0 then map[] else Crowd(n - 1)[n - 1 := Acquirer(Passed, None)]
  }

  /** At time zero: n requests recorded, and acquirers 0 to p - 1 past the check. */
  function Scene(limit: nat, permits: nat, n: nat, p: nat, peak: nat): World {
    World(0, Rate(None, Zeros(n), limit), permits, Crowd(p), Zeros(n), None, peak)
  }

  lemma {:induction false} ZerosAreRecent(n: nat)
    ensures Recent(Zeros(n), 0) == Zeros(n)
    ensures Zeros(n + 1) == Zeros(n) + [0]
    ensures Within(Zeros(n), 0) == n
  {
    if n > 0 {
      ZerosAreRecent(n - 1);
      assert Zeros(n)[..n - 1] == Zeros(n - 1);
    }
  }

  lemma {:induction false} CrowdInFlight(n: nat)
    ensures InFlight(Crowd(n)) == Crowd(n).Keys && |InFlight(Crowd(n))| == n
    ensures forall id :: id in Crowd(n) ==> id < n
    ensures Holders(Crowd(n)) == {}
  {
    hide InFlight, Holders;
    if n > 0 {
      CrowdInFlight(n - 1);
      TaskMoves(Crowd(n - 1), n - 1, Acquirer(Passed, None));
    } else {
      NobodyThere();
    }
  }

  lemma NobodyThere()
    ensures InFlight(map[]) == {} && Holders(map[]) == {}
  {
  }

  /** One more acquirer passes the check. */
  function Pass(p: nat): seq<Action> {
    [Arrive(p), Advance(p), Advance(p), Advance(p), Advance(p)]
  }

  /** The acquirer that passed last gets its permit, records and leaves. */
  function Finish(p: nat): seq<Action> {
    [Advance(p), Advance(p), Leave(p)]
  }

  lemma PlayOne(w: World, actions: seq<Action>)
    requires actions != []
    ensures Play(w, actions) == Play(Perform(w, actions[0]), actions[1..])
  {
    PlayAppends(w, [actions[0]], actions[1..]);
    assert actions == [actions[0]] + actions[1..];
    assert Play(w, [actions[0]]) == Perform(w, actions[0]);
  }

  function With(w: World, id: TaskId, pc: Pc): World {
    w.(tasks := w.tasks[id := Acquirer(pc, None)])
  }

  lemma Again(tasks: Tasks, id: TaskId, pc: Pc, next: Pc)
    ensures
      var moved: Tasks := tasks[id := Acquirer(pc, None)];
      moved[id := Acquirer(next, None)] == tasks[id := Acquirer(next, None)]
  {
  }

  /** Up to the check, an acquirer with nothing to wait for moves on and changes nothing else. */
  lemma MovesOn(w: World, p: nat, pc: Pc, next: Pc)
    requires w.rate.backoffUntil == w.latest == None && p !in w.tasks && |InFlight(w.tasks)| <= w.peak
    requires (pc == Reading && next == Deciding(None)) || (pc == Deciding(None) && next == Clearing) || (pc == Clearing && next == Checking)
    ensures Perform(With(w, p, pc), Advance(p)) == With(w, p, next)
  {
    hide InFlight, Holders, Recent, RateWait;
    TaskMoves(w.tasks, p, Acquirer(next, None));
    Again(w.tasks, p, pc, next);
  }

  lemma PassesCheck(limit: nat, permits: nat, n: nat, p: nat, peak: nat)
    requires p <= peak && (n < limit || n == 0)
    ensures
      Perform(With(Scene(limit, permits, n, p, peak), p, Checking), Advance(p)) ==
      Scene(limit, permits, n, p + 1, Max(peak, p + 1))
  {
    hide InFlight, Holders, Recent;
    ZerosAreRecent(n);
    CrowdInFlight(p + 1);
    Again(Crowd(p), p, Checking, Passed);
  }

  lemma OneMorePasses(limit: nat, permits: nat, n: nat, p: nat, peak: nat)
    requires p <= peak && (n < limit || n == 0)
    ensures Play(Scene(limit, permits, n, p, peak), Pass(p)) == Scene(limit, permits, n, p + 1, Max(peak, p + 1))
  {
    hide InFlight, Holders, Recent, RateWait, Play, AdvanceTask;
    var w := Scene(limit, permits, n, p, peak);
    var a := Advance(p);
    CrowdInFlight(p);
    TaskMoves(w.tasks, p, Acquirer(Reading, None));
    PlayOne(w, Pass(p));
    assert Perform(w, Arrive(p)) == With(w, p, Reading);
    PlayOne(With(w, p, Reading), [a, a, a, a]);
    MovesOn(w, p, Reading, Deciding(None));
    PlayOne(With(w, p, Deciding(None)), [a, a, a]);
    MovesOn(w, p, Deciding(None), Clearing);
    PlayOne(With(w, p, Clearing), [a, a]);
    MovesOn(w, p, Clearing, Checking);
    PlayOne(With(w, p, Checking), [a]);
    PassesCheck(limit, permits, n, p, peak);
    PlayNone(Scene(limit, permits, n, p + 1, Max(peak, p + 1)));
  }

  lemma PlayNone(w: World)
    ensures Play(w, []) == w
  {
  }

  lemma TakesPermit(w: World, p: nat)
    requires p !in w.tasks && w.permits > 0 && |InFlight(w.tasks)| < w.peak
    ensures Perform(With(w, p, Passed), Advance(p)) == With(w.(permits := w.permits - 1), p, Permitted)
  {
    hide InFlight, Holders, Recent;
    TaskMoves(w.tasks, p, Acquirer(Permitted, None));
    Again(w.tasks, p, Passed, Permitted);
  }

  lemma Records(w: World, p: nat)
    requires p !in w.tasks && |InFlight(w.tasks)| <= w.peak
    ensures
      Perform(With(w, p, Permitted), Advance(p)) ==
      With(w.(history := w.history + [w.now],
              rate := w.rate.(recentRequests := w.rate.recentRequests + [w.now])), p, Holding)
  {
    hide InFlight, Holders, Recent;
    TaskMoves(w.tasks, p, Acquirer(Holding, None));
    Again(w.tasks, p, Permitted, Holding);
  }

  lemma Leaves(w: World, p: nat)
    requires p !in w.tasks && |InFlight(w.tasks)| <= w.peak
    ensures Perform(With(w, p, Holding), Leave(p)) == w.(permits := w.permits + 1)
  {
    hide InFlight, Holders, Recent;
    TaskMoves(w.tasks, p, Acquirer(Holding, None));
    assert w.tasks[p := Acquirer(Holding, None)] - {p} == w.tasks;
  }

  lemma OneMoreRecords(limit: nat, permits: nat, n: nat, p: nat, peak: nat)
    requires p < peak && permits > 0
    ensures Play(Scene(limit, permits, n, p + 1, peak), Finish(p)) == Scene(limit, permits, n + 1, p, peak)
  {
    hide InFlight, Holders, Recent, Play, Perform;
    var w := Scene(limit, permits, n, p, peak);
    var recorded := Scene(limit, permits - 1, n + 1, p, peak);
    CrowdInFlight(p);
    ZerosAreRecent(n);
    PlayOne(With(w, p, Passed), Finish(p));
    TakesPermit(w, p);
    var w1 := w.(permits := permits - 1);
    PlayOne(With(w1, p, Permitted), [Advance(p), Leave(p)]);
    Records(w1, p);
    PlayOne(With(recorded, p, Holding), [Leave(p)]);
    Leaves(recorded, p);
    assert Finish(p)[1..] == [Advance(p), Leave(p)] && [Advance(p), Leave(p)][1..] == [Leave(p)] && [Leave(p)][1..] == [];
    assert Scene(limit, permits, n, p + 1, peak) == With(w, p, Passed);
    assert With(w1.(history := Zeros(n) + [0], rate := w1.rate.(recentRequests := Zeros(n) + [0])), p, Holding) == With(recorded, p, Holding);
    PlayNone(recorded.(permits := permits));
  }

  /** Acquirers can record one after the other up to one below the limit. */
  lemma {:induction false} OneByOne(limit: nat, permits: nat, n: nat) returns (actions: seq<Action>)
    requires permits > 0 && n <= Max(1, limit) - 1
    ensures Play(Opened(limit, permits), actions) == Scene(limit, permits, n, 0, if n == 0 then 0 else 1)
  {
    hide Play, InFlight, Holders, Recent, Pass, Finish;
    if n == 0 {
      actions := [];
      assert Opened(limit, permits) == Scene(limit, permits, 0, 0, 0);
      PlayNone(Opened(limit, permits));
    } else {
      var before := OneByOne(limit, permits, n - 1);
      var peak := if n == 1 then 0 else 1;
      OneMorePasses(limit, permits, n - 1, 0, peak);
      OneMoreRecords(limit, permits, n - 1, 0, 1);
      PlayAppends(Opened(limit, permits), before, Pass(0));
      PlayAppends(Opened(limit, permits), before + Pass(0), Finish(0));
      actions := before + Pass(0) + Finish(0);
    }
  }

  /** Acquirers can pass the check together while one request is still allowed. */
  lemma {:induction false} Together(limit: nat, permits: nat, n: nat, k: nat) returns (actions: seq<Action>)
    requires n == Max(1, limit) - 1
    ensures
      var peak := if n == 0 then 0 else 1;
      Play(Scene(limit, permits, n, 0, peak), actions) == Scene(limit, permits, n, k, Max(peak, k))
  {
    hide Play, InFlight, Holders, Recent, Pass, Scene;
    var peak := if n == 0 then 0 else 1;
    if k == 0 {
      actions := [];
      PlayNone(Scene(limit, permits, n, 0, peak));
    } else {
      var before := Together(limit, permits, n, k - 1);
      OneMorePasses(limit, permits, n, k - 1, Max(peak, k - 1));
      PlayAppends(Scene(limit, permits, n, 0, peak), before, Pass(k - 1));
      actions := before + Pass(k - 1);
    }
  }

  lemma {:induction false} AllRecord(limit: nat, permits: nat, n: nat, k: nat, peak: nat) returns (actions: seq<Action>)
    requires k <= peak && permits > 0
    decreases k
    ensures Play(Scene(limit, permits, n, k, peak), actions) == Scene(limit, permits, n + k, 0, peak)
  {
    hide Play, InFlight, Holders, Recent, Finish, Scene;
    if k == 0 {
      actions := [];
      PlayNone(Scene(limit, permits, n, k, peak));
    } else {
      OneMoreRecords(limit, permits, n, k - 1, peak);
      var after := AllRecord(limit, permits, n + 1, k - 1, peak);
      PlayAppends(Scene(limit, permits, n, k, peak), Finish(k - 1), after);
      actions := Finish(k - 1) + after;
    }
  }

  /** For every limit and every k, some interleaving with at most k acquirers between check and record
      puts as many requests into one window as the bound allows. */
  lemma BoundIsAttained(limit: nat, permits: nat, k: nat) returns (actions: seq<Action>)
    requires permits > 0 && k > 0
    ensures
      var w := Play(Opened(limit, permits), actions);
      w.peak == k && Within(w.history, 0) == Max(1, limit) - 1 + k
  {
    hide Play, Recent, Pass, Finish;
    var n := Max(1, limit) - 1;
    var first := OneByOne(limit, permits, n);
    var second := Together(limit, permits, n, k);
    var third := AllRecord(limit, permits, n, k, k);
    PlayAppends(Opened(limit, permits), first, second);
    PlayAppends(Opened(limit, permits), first + second, third);
    ZerosAreRecent(n + k);
    actions := first + second + third;
  }

  ghost predicate KeepsLimit(limit: nat, permits: nat, k: nat, actions: seq<Action>) {
    var w := Play(Opened(limit, permits), actions);
    w.peak <= k ==> forall from :: Within(w.history, from) <= Max(1, limit)
  }

  /** Interleavings with at most k acquirers between check and record all keep every window within the
      limit exactly if k is at most one. */
  lemma LimitKeptIff(limit: nat, permits: nat, k: nat)
    requires permits > 0
    ensures (forall actions :: KeepsLimit(limit, permits, k, actions)) <==> k <= 1
  {
    hide Play, Within;
    if k <= 1 {
      forall actions ensures KeepsLimit(limit, permits, k, actions) {
        forall from {
          SlidingWindowBound(limit, permits, actions, from);
        }
      }
    } else {
      var actions := BoundIsAttained(limit, permits, k);
      assert !KeepsLimit(limit, permits, k, actions);
    }
  }
}
