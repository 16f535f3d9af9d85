/** The scheduler as an object, used by one caller at a time: every acquisition is a run of the
    interleaving model in which one acquirer moves while nobody else does. */
module SchedulerAcquire {
  import opened Wrappers
  import opened Scheduler
  import opened SchedulerWaits

  /** A clock that may advance before every reading. */
  class Clock {
    var now: Instant

    constructor ()
      ensures now == 0
    {
      now := 0;
    }

    method Now() returns (t: Instant)
      modifies this
      ensures old(now) <= now == t
    {
      t :| now <= t;
      now := t;
    }

    method Sleep(duration: nat)
      modifies this
      ensures old(now) + duration <= now
    {
      var t :| now + duration <= t;
      now := t;
    }
  }

  /** The state under the lock; every method is one critical section. */
  class RateState {
    var backoffUntil: Option<Instant>
    var recentRequests: seq<Instant>
    const rpmLimit: nat

    function View(): Rate
      reads this
    {
      Rate(backoffUntil, recentRequests, rpmLimit)
    }

    constructor (limit: nat)
      ensures View() == Rate(None, [], limit)
    {
      backoffUntil, recentRequests, rpmLimit := None, [], limit;
    }

    method NotifyRateLimited(retryAfter: nat, now: Instant)
      modifies this
      ensures View() == old(View()).(backoffUntil := Some(now + retryAfter))
    {
      backoffUntil := Some(now + retryAfter);
    }

    method ClearBackoff(now: Instant)
      modifies this
      ensures View() == Cleared(old(View()), now)
    {
      if backoffUntil.Some? && backoffUntil.value <= now {
        backoffUntil := None;
      }
    }

    /** Forgets what has left the window. At the limit, the wait ends exactly when the oldest request that
        is left (and does not lie ahead) will be 60 seconds old. */
    method CheckRate(now: Instant) returns (wait: Option<nat>)
      modifies this
      ensures View() == old(View()).(recentRequests := Recent(old(recentRequests), now))
      ensures wait == RateWait(recentRequests, rpmLimit, now)
      ensures wait.Some? <==> |recentRequests| >= rpmLimit && recentRequests != []
      ensures wait.Some? && recentRequests[0] <= now ==> recentRequests[0] + 60_000 == now + wait.value
    {
      RecentAreRecent(recentRequests, now);
      recentRequests := Recent(recentRequests, now);
      wait := None;
      if |recentRequests| >= rpmLimit && recentRequests != [] {
        var elapsed := Since(now, recentRequests[0]);
        if elapsed < WINDOW {
          wait := Some(WINDOW - elapsed);
        }
      }
    }

    method Record(now: Instant)
      modifies this
      ensures View() == old(View()).(recentRequests := old(recentRequests) + [now])
    {
      recentRequests := recentRequests + [now];
    }
  }

  lemma {:induction false} RecentIsShorter(times: seq<Instant>, now: Instant)
    ensures |Recent(times, now)| <= |times|
    ensures times != [] && Since(now, times[0]) >= WINDOW ==> |Recent(times, now)| < |times|
  {
    if times != [] {
      RecentIsShorter(times[..|times| - 1], now);
    }
  }

  lemma {:induction false} UnusedId(ids: set<TaskId>) returns (id: TaskId)
    ensures forall other <- ids :: other < id
  {
    if ids == {} {
      id := 0;
    } else {
      var some :| some in ids;
      var bound := UnusedId(ids - {some});
      id := if bound > some then bound else some + 1;
      assert forall other <- ids :: other == some || other in ids - {some};
    }
  }

  /** Nobody is between a passed check and the record, and no two acquirers ever were. */
  ghost predicate Quiet(w: World) {
    InFlight(w.tasks) == {} && w.peak <= 1
  }

  /** At most this acquirer is between a passed check and the record. */
  ghost predicate Alone(w: World, id: TaskId) {
    InFlight(w.tasks) <= {id} && w.peak <= 1
  }

  lemma AloneStep(w: World, a: Action, id: TaskId)
    requires Alone(w, id) && a in {Arrive(id), Advance(id), Leave(id)}
    ensures Alone(Perform(w, a), id)
    ensures a.Advance? && id in w.tasks ==> Perform(w, a) == AdvanceTask(w, id).(peak := Perform(w, a).peak)
  {
    hide InFlight, AdvanceTask, Holders;
    TaskMoves(w.tasks, id, Acquirer(Reading, None));
    if id in w.tasks && a.Advance? {
      AdvanceShape(w, id);
      TaskMoves(w.tasks, id, AdvanceTask(w, id).tasks[id]);
    }
    AtMostOne(InFlight(Perform(w, a).tasks), id);
  }

  lemma AtMostOne(ids: set<TaskId>, id: TaskId)
    requires ids <= {id}
    ensures |ids| <= 1
  {
    assert ids == {} || ids == {id};
  }

  lemma AloneIsQuiet(w: World, id: TaskId)
    requires Alone(w, id) && (id in w.tasks ==> !w.tasks[id].pc.Unrecorded())
    ensures Quiet(w)
  {
  }

  /** A lone acquirer that has waited for the oldest request to leave the window is admitted. */
  lemma RoomAfterSleep(w: World, limit: nat, later: Instant)
    requires RateKept(w, limit) && Quiet(w)
    requires
      var wait := RateWait(Recent(w.rate.recentRequests, w.now), limit, w.now);
      wait.Some? && w.now + wait.value <= later
    ensures RateWait(Recent(Recent(w.rate.recentRequests, w.now), later), limit, later).None?
  {
    var recent := Recent(w.rate.recentRequests, w.now);
    hide Recent;
    RecentAreRecent(w.history, w.now);
    RecentIsShorter(recent, later);
  }

  /** At the limit, the wait from the check on ends exactly when the oldest request kept is 60 seconds
      old; below the limit there is none. */
  predicate WaitsFor(kept: seq<Instant>, limit: nat, checked: Instant, wait: nat) {
    if |kept| >= limit && kept != []
    then (forall t <- kept :: kept[0] <= t) && checked + wait == kept[0] + 60_000
    else wait == 0
  }

  lemma CheckWaitsFor(w: World, limit: nat)
    requires RateKept(w, limit) && RequestsKept(w)
    ensures
      var kept := Recent(w.rate.recentRequests, w.now);
      var wait := RateWait(kept, limit, w.now).GetOr(0);
      WaitsFor(kept, limit, w.now, wait) && wait <= 60_000
  {
    var kept := Recent(w.rate.recentRequests, w.now);
    RecentKeepsTheRest(w.rate.recentRequests, w.now);
    RecentAreRecent(w.rate.recentRequests, w.now);
    hide Recent;
    WaitIsLeast(kept, limit, w.now);
  }

  /** Nothing but the place of one acquirer, the clock and the lock's own state has changed. */
  predicate OnlyMoved(w: World, w': World, id: TaskId, pc: Pc) {
    && id in w'.tasks && w'.tasks[id].pc == pc
    && w'.history == w.history && w'.permits == w.permits && w'.latest == w.latest && w'.now >= w.now
  }

  class PriorityScheduler {
    var permits: nat
    const rate: RateState
    const clock: Clock
    const maxConcurrency: nat
    ghost var trace: seq<Action>
    ghost var world: World

    /** The object is where its trace leads in the interleaving model. */
    ghost predicate Valid()
      reads this, rate, clock
    {
      && world == Play(Opened(rate.rpmLimit, maxConcurrency), trace)
      && world.rate == rate.View() && world.permits == permits && world.now == clock.now
    }

    constructor (maxConcurrency: nat, requestsPerMinute: nat)
      ensures Valid() && Quiet(world) && permits == maxConcurrency && fresh(rate) && fresh(clock)
    {
      this.permits, this.maxConcurrency := maxConcurrency, maxConcurrency;
      rate := new RateState(requestsPerMinute);
      clock := new Clock();
      trace, world := [], Opened(requestsPerMinute, maxConcurrency);
    }

    ghost method Act(a: Action, id: TaskId)
      requires world == Play(Opened(rate.rpmLimit, maxConcurrency), trace)
      requires Alone(world, id) && a in {Arrive(id), Advance(id), Leave(id)}
      modifies this`trace, this`world
      ensures world == Play(Opened(rate.rpmLimit, maxConcurrency), trace)
      ensures world == Perform(old(world), a) && Alone(world, id)
    {
      hide Perform, Alone;
      AloneStep(world, a, id);
      trace := trace + [a];
      world := Perform(world, a);
    }

    /** One step of an acquirer. */
    ghost method Step(id: TaskId)
      requires world == Play(Opened(rate.rpmLimit, maxConcurrency), trace)
      requires Alone(world, id) && id in world.tasks
      modifies this`trace, this`world
      ensures world == Play(Opened(rate.rpmLimit, maxConcurrency), trace)
      ensures world == AdvanceTask(old(world), id).(peak := world.peak) && Alone(world, id)
    {
      hide Perform, Alone, AdvanceTask;
      AloneStep(world, Advance(id), id);
      Act(Advance(id), id);
    }

    /** An action that brings nobody between a passed check and the record. */
    ghost method Observe(a: Action)
      requires world == Play(Opened(rate.rpmLimit, maxConcurrency), trace)
      requires InFlight(Effect(world, a).tasks) == InFlight(world.tasks)
      modifies this`trace, this`world
      ensures world == Play(Opened(rate.rpmLimit, maxConcurrency), trace)
      ensures world == Effect(old(world), a)
    {
      RunKeeps(rate.rpmLimit, maxConcurrency, trace);
      RateFacts(world, rate.rpmLimit);
      hide InFlight, Kept;
      trace := trace + [a];
      world := Perform(world, a);
    }

    method Now() returns (t: Instant)
      requires Valid()
      modifies this`trace, this`world, clock
      ensures Valid() && t == clock.now && t >= old(clock.now) && world == old(world).(now := t)
    {
      t := clock.Now();
      Observe(Tick(t - old(clock.now)));
    }

    method Sleep(duration: nat)
      requires Valid()
      modifies this`trace, this`world, clock
      ensures Valid() && clock.now >= old(clock.now) + duration && world == old(world).(now := clock.now)
    {
      clock.Sleep(duration);
      Observe(Tick(clock.now - old(clock.now)));
    }

    /** Waits until the stored deadline is over, sleeping at most once and for no longer than that, and
        clears it. */
    method WaitBackpressure(ghost id: TaskId) returns (sleeps: nat, slept: nat)
      requires Valid() && Alone(world, id) && id in world.tasks && world.tasks[id].pc.Reading?
      modifies this`trace, this`world, rate, clock
      ensures Valid() && Alone(world, id) && OnlyMoved(old(world), world, id, Checking)
      ensures rate.recentRequests == old(rate.recentRequests) && rate.backoffUntil == None && sleeps <= 1
      ensures old(rate.backoffUntil).Some? ==> old(rate.backoffUntil).value <= clock.now
      ensures slept > 0 ==> old(rate.backoffUntil).Some? && old(clock.now) + slept <= old(rate.backoffUntil).value
    {
      hide InFlight, Play, Recent, RateWait;
      sleeps, slept := 0, 0;
      var until := rate.backoffUntil;
      Step(id);
      var now := Now();
      while until.Some? && until.value > now
        invariant Valid() && Alone(world, id) && OnlyMoved(old(world), world, id, Deciding(until))
        invariant rate.View() == old(rate.View()) && until == rate.backoffUntil && now == clock.now >= old(clock.now)
        invariant sleeps == 0 || (sleeps == 1 && until.Some? && until.value <= now)
        invariant if sleeps == 0 then slept == 0 else slept > 0 ==> old(clock.now) + slept <= until.value
        decreases 1 - sleeps
      {
        Step(id);
        now := Now();
        var wait := Since(until.value, now);
        Sleep(wait);
        sleeps, slept := sleeps + 1, slept + wait;
        Step(id);
        until := rate.backoffUntil;
        Step(id);
        now := Now();
      }
      Step(id);
      now := Now();
      rate.ClearBackoff(now);
      Step(id);
    }

    /** Waits until the rate limit admits the request, sleeping at most once: from the check on, until the
        oldest request that the check has kept is exactly 60 seconds old. */
    method WaitRateLimit(ghost id: TaskId) returns (sleeps: nat, slept: nat, ghost checked: Instant)
      requires Valid() && Alone(world, id) && id in world.tasks && world.tasks[id].pc.Checking?
      modifies this`trace, this`world, rate, clock
      ensures Valid() && Alone(world, id) && OnlyMoved(old(world), world, id, Passed)
      ensures rate.backoffUntil == old(rate.backoffUntil) && sleeps <= 1 && slept <= 60_000
      ensures old(clock.now) <= checked <= clock.now
      ensures WaitsFor(Recent(old(rate.recentRequests), checked), rate.rpmLimit, checked, slept)
    {
      hide InFlight, Play, Recent, RateWait, Perform, WaitsFor;
      sleeps, slept := 0, 0;
      var now := Now();
      checked := now;
      ghost var before := world;
      RunKeeps(rate.rpmLimit, maxConcurrency, trace);
      RunKeepsRequests(rate.rpmLimit, maxConcurrency, trace);
      CheckWaitsFor(world, rate.rpmLimit);
      AloneIsQuiet(world, id);
      var wait := rate.CheckRate(now);
      ghost var asked := wait.GetOr(0);
      Step(id);
      while wait.Some?
        invariant Valid() && Alone(world, id) && rate.backoffUntil == old(rate.backoffUntil) && sleeps <= 1
        invariant wait.Some? ==> OnlyMoved(old(world), world, id, Waiting(now + wait.value))
        invariant wait.Some? ==> sleeps == 0 && now == clock.now == before.now && wait == RateWait(rate.recentRequests, rate.rpmLimit, now)
        invariant wait.Some? ==> rate.recentRequests == Recent(before.rate.recentRequests, now)
        invariant wait.None? ==> OnlyMoved(old(world), world, id, Passed)
        invariant checked <= clock.now && if sleeps == 0 then slept == 0 && asked == wait.GetOr(0) else slept == asked && wait.None?
        decreases 1 - sleeps
      {
        Sleep(wait.value);
        sleeps, slept := sleeps + 1, slept + wait.value;
        Step(id);
        now := Now();
        RoomAfterSleep(before, rate.rpmLimit, now);
        wait := rate.CheckRate(now);
        Step(id);
      }
    }

    /** Takes a free permit and records the request. */
    method TakeSlot(ghost id: TaskId)
      requires Valid() && Alone(world, id) && id in world.tasks && world.tasks[id].pc.Passed? && permits > 0
      modifies this`permits, this`trace, this`world, rate, clock
      ensures Valid() && Alone(world, id) && id in world.tasks && world.tasks[id].pc.Holding?
      ensures permits == old(permits) - 1 && world.history == old(world).history + [clock.now]
      ensures clock.now >= old(clock.now)
    {
      hide InFlight, Play, Recent, RateWait;
      permits := permits - 1;
      Step(id);
      var now := Now();
      rate.Record(now);
      Step(id);
    }

    /** Takes a slot: waits for backpressure and rate limit, takes a permit and records the request.
        Without a free permit the caller stays in the queue; here it gives up instead. */
    method Acquire() returns (granted: bool, backoffSleeps: nat, rateSleeps: nat, slept: nat, ghost id: TaskId)
      requires Valid() && Quiet(world)
      modifies this`permits, this`trace, this`world, rate, clock
      ensures Valid() && Quiet(world)
      ensures granted <==> old(permits) > 0
      ensures granted ==> id in world.tasks && world.tasks[id].pc.Holding?
      ensures permits == old(permits) - if granted then 1 else 0
      ensures world.history == old(world.history) + if granted then [clock.now] else []
      ensures backoffSleeps <= 1 && rateSleeps <= 1
      ensures slept <= Since(old(rate.backoffUntil).GetOr(old(clock.now)), old(clock.now)) + 60_000
      ensures |Recent(old(rate.recentRequests), old(clock.now))| < rate.rpmLimit ==>
        slept <= Since(old(rate.backoffUntil).GetOr(old(clock.now)), old(clock.now))
      ensures old(rate.backoffUntil).Some? ==> old(rate.backoffUntil).value <= clock.now
      ensures forall from :: Within(world.history, from) <= Max(1, rate.rpmLimit)
    {
      hide InFlight, Play, Recent, RateWait, Holders, Within, AdvanceTask;
      id := UnusedId(world.tasks.Keys);
      Act(Arrive(id), id);
      var backoffSlept, rateSlept;
      ghost var checked;
      backoffSleeps, backoffSlept := WaitBackpressure(id);
      ghost var times := rate.recentRequests;
      rateSleeps, rateSlept, checked := WaitRateLimit(id);
      slept := backoffSlept + rateSlept;
      RecentOfRecent(times, old(clock.now), checked);
      RecentAreRecent(times, checked);
      granted := permits > 0;
      if granted {
        TakeSlot(id);
      } else {
        TaskStands(world.tasks, id);
        Act(Leave(id), id);
      }
      AloneIsQuiet(world, id);
      forall from ensures Within(world.history, from) <= Max(1, rate.rpmLimit) {
        SlidingWindowBound(rate.rpmLimit, maxConcurrency, trace, from);
      }
    }

    /** Drops a guard. */
    method Release(ghost id: TaskId)
      requires Valid() && id in world.tasks && world.tasks[id].pc.Holding?
      modifies this`permits, this`trace, this`world
      ensures Valid() && permits == old(permits) + 1 && world.tasks == old(world).tasks - {id}
      ensures Quiet(old(world)) ==> Quiet(world)
    {
      hide InFlight, Play;
      TaskStands(world.tasks, id);
      TaskMoves(world.tasks, id, Acquirer(Reading, None));
      permits := permits + 1;
      Observe(Leave(id));
    }

    /** Engages backpressure for everybody, wherever they stand; a later notification replaces an
        earlier one. */
    method NotifyRateLimited(retryAfter: nat)
      requires Valid()
      modifies this`trace, this`world, rate, clock
      ensures Valid() && rate.backoffUntil == world.latest == Some(clock.now + retryAfter)
      ensures world.tasks == old(world).tasks && world.history == old(world).history
      ensures Quiet(old(world)) ==> Quiet(world)
    {
      hide InFlight, Play;
      var now := Now();
      rate.NotifyRateLimited(retryAfter, now);
      Observe(Notify(retryAfter));
    }
  }
}
