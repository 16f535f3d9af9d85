/** The scheduler: backpressure, a sliding-window rate limit and a semaphore. Each critical section of
    the lock is one atomic step, and any number of acquirers and notifiers interleave. */
module Scheduler {
  import opened Wrappers

  /** A reading of the monotone clock, in milliseconds. */
  type Instant = int

  const WINDOW: nat := 60_000

  function Max(a: int, b: int): int {
    if a < b then b else a
  }

  /** The time from `t` to `now`; zero if `t` lies ahead. */
  function Since(now: Instant, t: Instant): nat {
    if t <= now then now - t else 0
  }

  datatype Rate = Rate(backoffUntil: Option<Instant>, recentRequests: seq<Instant>, rpmLimit: nat)

  /** The requests less than a window old. */
  function Recent(times: seq<Instant>, now: Instant): seq<Instant> {
    if times == [] then []
    else Recent(times[..|times| - 1], now) + if Since(now, times[|times| - 1]) < WINDOW then [times[|times| - 1]] else []
  }

  /** How long the rate limit makes a request wait, given the recent requests. */
  function RateWait(recent: seq<Instant>, limit: nat, now: Instant): Option<nat> {
    if |recent| >= limit && recent != [] && Since(now, recent[0]) < WINDOW then Some(WINDOW - Since(now, recent[0]))
    else None
  }

  function Cleared(r: Rate, now: Instant): Rate {
    if r.backoffUntil.Some? && r.backoffUntil.value <= now then r.(backoffUntil := None) else r
  }

  // Interleavings

  type TaskId = nat

  /** Where an acquirer stands: it reads the deadline, decides on it (and backs off), clears it,
      checks the rate (and waits), has passed, has a permit, and holds it with its request recorded. */
  datatype Pc =
    | Reading
    | Deciding(until: Option<Instant>)
    | BackingOff(deadline: Instant)
    | Clearing
    | Checking
    | Waiting(deadline: Instant)
    | Passed
    | Permitted
    | Holding
  {
    predicate PastBackoff() {
      Clearing? || Checking? || Waiting? || Passed? || Permitted? || Holding?
    }

    predicate HasPermit() {
      Permitted? || Holding?
    }

    /** Between a passed check and its record. */
    predicate Unrecorded() {
      Passed? || Permitted?
    }
  }

  /** `seen` is the latest deadline notified before the acquirer last looked. */
  datatype Acquirer = Acquirer(pc: Pc, seen: Option<Instant>)

  type Tasks = map<TaskId, Acquirer>

  /** `history`, `latest` and `peak` only observe: all requests recorded, the latest notified deadline,
      and the largest number of acquirers ever between a passed check and their record. */
  datatype World = World(
    now: Instant, rate: Rate, permits: nat, tasks: Tasks, history: seq<Instant>, latest: Option<Instant>, peak: nat)

  /** `Leave` drops a guard, or cancels an acquirer wherever it stands. */
  datatype Action = Tick(elapsed: nat) | Notify(retryAfter: nat) | Arrive(id: TaskId) | Advance(id: TaskId) | Leave(id: TaskId)

  function InFlight(tasks: Tasks): set<TaskId> {
    set id <- tasks | tasks[id].pc.Unrecorded()
  }

  function Holders(tasks: Tasks): set<TaskId> {
    set id <- tasks | tasks[id].pc.HasPermit()
  }

  function Opened(limit: nat, permits: nat): World {
    World(0, Rate(None, [], limit), permits, map[], [], None, 0)
  }

  function To(w: World, id: TaskId, pc: Pc): World
    requires id in w.tasks
  {
    w.(tasks := w.tasks[id := w.tasks[id].(pc := pc)])
  }

  function AdvanceTask(w: World, id: TaskId): World
    requires id in w.tasks
  {
    match w.tasks[id].pc
    case Reading => w.(tasks := w.tasks[id := Acquirer(Deciding(w.rate.backoffUntil), w.latest)])
    case Deciding(until) => To(w, id, if until.Some? && until.value > w.now then BackingOff(until.value) else Clearing)
    case BackingOff(deadline) => if deadline <= w.now then To(w, id, Reading) else w
    case Clearing => To(w.(rate := Cleared(w.rate, w.now)), id, Checking)
    case Checking =>
      var recent := Recent(w.rate.recentRequests, w.now);
      var wait := RateWait(recent, w.rate.rpmLimit, w.now);
      To(w.(rate := w.rate.(recentRequests := recent)), id, if wait.Some? then Waiting(w.now + wait.value) else Passed)
    case Waiting(deadline) => if deadline <= w.now then To(w, id, Checking) else w
    case Passed => if w.permits > 0 then To(w.(permits := w.permits - 1), id, Permitted) else w
    case Permitted =>
      To(w.(rate := w.rate.(recentRequests := w.rate.recentRequests + [w.now]), history := w.history + [w.now]), id, Holding)
    case Holding => w
  }

  function Effect(w: World, a: Action): World {
    match a
    case Tick(elapsed) => w.(now := w.now + elapsed)
    case Notify(after) => w.(rate := w.rate.(backoffUntil := Some(w.now + after)), latest := Some(w.now + after))
    case Arrive(id) => if id in w.tasks then w else w.(tasks := w.tasks[id := Acquirer(Reading, None)])
    case Advance(id) => if id in w.tasks then AdvanceTask(w, id) else w
    case Leave(id) => w.(tasks := w.tasks - {id}, permits := w.permits + if id in Holders(w.tasks) then 1 else 0)
  }

  /** An action that cannot be taken changes nothing. */
  function Perform(w: World, a: Action): World {
    var w' := Effect(w, a);
    w'.(peak := Max(w.peak, |InFlight(w'.tasks)|))
  }

  function Play(w: World, actions: seq<Action>): World {
    if actions == [] then w else Perform(Play(w, actions[..|actions| - 1]), actions[|actions| - 1])
  }

  // Recent requests

  lemma {:induction false} RecentOfRecent(times: seq<Instant>, earlier: Instant, now: Instant)
    requires earlier <= now
    ensures Recent(Recent(times, earlier), now) == Recent(times, now)
    ensures |Recent(times, now)| <= |Recent(times, earlier)|
  {
    if times != [] {
      var front, last := times[..|times| - 1], times[|times| - 1];
      RecentOfRecent(front, earlier, now);
      if Since(earlier, last) < WINDOW {
        assert (Recent(front, earlier) + [last])[..|Recent(front, earlier)|] == Recent(front, earlier);
      } else {
        assert Recent(times, earlier) == Recent(front, earlier) && Recent(times, now) == Recent(front, now);
      }
    }
  }

  lemma RecentPlus(times: seq<Instant>, t: Instant, now: Instant)
    ensures Recent(times + [t], now) == Recent(times, now) + if Since(now, t) < WINDOW then [t] else []
  {
    assert (times + [t])[..|times|] == times;
  }

  lemma {:induction false} RecentAreRecent(times: seq<Instant>, now: Instant)
    ensures forall t <- Recent(times, now) :: t in times && Since(now, t) < WINDOW
  {
    if times != [] {
      RecentAreRecent(times[..|times| - 1], now);
    }
  }

  /** How many requests fall into the window that begins at `from`. */
  function Within(times: seq<Instant>, from: Instant): nat {
    if times == [] then 0
    else
      var last := times[|times| - 1];
      Within(times[..|times| - 1], from) + if from <= last < from + WINDOW then 1 else 0
  }

  /** Every request was recorded with at most `bound` requests in the window that ends with it. */
  ghost predicate RecordedWithin(times: seq<Instant>, bound: nat) {
    forall i :: 0 <= i < |times| ==> |Recent(times[..i + 1], times[i])| <= bound
  }

  lemma {:induction false} WithinIsRecent(times: seq<Instant>, from: Instant, now: Instant)
    requires now < from + WINDOW
    ensures Within(times, from) <= |Recent(times, now)|
  {
    if times != [] {
      WithinIsRecent(times[..|times| - 1], from, now);
    }
  }

  /** If no request exceeded the bound when it was recorded, no window exceeds it. */
  lemma {:induction false} WindowsAreBounded(times: seq<Instant>, bound: nat, from: Instant)
    requires RecordedWithin(times, bound)
    ensures Within(times, from) <= bound
  {
    if times != [] {
      var n := |times| - 1;
      assert times[..n + 1] == times;
      if from <= times[n] < from + WINDOW {
        WithinIsRecent(times, from, times[n]);
      } else {
        forall i | 0 <= i < n ensures |Recent(times[..n][..i + 1], times[..n][i])| <= bound {
          assert times[..n][..i + 1] == times[..i + 1];
        }
        WindowsAreBounded(times[..n], bound, from);
      }
    }
  }

  // Invariants

  /** The most requests a window may hold. */
  function Allowed(limit: nat, peak: nat): nat {
    Max(1, limit) - 1 + peak
  }

  ghost predicate PermitsKept(w: World, permits: nat) {
    w.permits + |Holders(w.tasks)| == permits
  }

  /** The latest deadline is stored or over, for the lock's state and for whoever has looked at it. */
  ghost predicate DeadlineKept(w: World) {
    && (w.rate.backoffUntil.Some? ==> w.rate.backoffUntil == w.latest)
    && (w.latest.Some? ==> w.rate.backoffUntil == w.latest || w.latest.value <= w.now)
    && (forall id <- w.tasks :: DeadlineSeen(w.now, w.tasks[id]))
  }

  predicate DeadlineSeen(now: Instant, t: Acquirer) {
    t.seen.Some? ==>
      match t.pc
      case Reading => true
      case Deciding(until) => until == t.seen || t.seen.value <= now
      case BackingOff(deadline) => deadline == t.seen.value || t.seen.value <= now
      case _ => t.seen.value <= now
  }

  ghost predicate RateKept(w: World, limit: nat) {
    && w.rate.rpmLimit == limit
    && |InFlight(w.tasks)| <= w.peak
    && (forall t <- w.history :: t <= w.now)
    && Recent(w.rate.recentRequests, w.now) == Recent(w.history, w.now)
    && |Recent(w.history, w.now)| + |InFlight(w.tasks)| <= Allowed(limit, w.peak)
    && RecordedWithin(w.history, Allowed(limit, w.peak))
  }

  lemma TaskMoves(tasks: Tasks, id: TaskId, a: Acquirer)
    ensures InFlight(tasks[id := a]) == if a.pc.Unrecorded() then InFlight(tasks) + {id} else InFlight(tasks) - {id}
    ensures Holders(tasks[id := a]) == if a.pc.HasPermit() then Holders(tasks) + {id} else Holders(tasks) - {id}
    ensures InFlight(tasks - {id}) == InFlight(tasks) - {id}
    ensures Holders(tasks - {id}) == Holders(tasks) - {id}
    ensures id !in tasks ==> id !in InFlight(tasks) && id !in Holders(tasks)
  {
  }

  lemma TaskStands(tasks: Tasks, id: TaskId)
    requires id in tasks
    ensures id in InFlight(tasks) <==> tasks[id].pc.Unrecorded()
    ensures id in Holders(tasks) <==> tasks[id].pc.HasPermit()
  {
  }

  /** How far one step of an acquirer reaches. */
  lemma AdvanceShape(w: World, id: TaskId)
    requires id in w.tasks
    ensures
      var w', pc := AdvanceTask(w, id), w.tasks[id].pc;
      && w'.tasks == w.tasks[id := w'.tasks[id]]
      && var pc' := w'.tasks[id].pc;
      && w'.permits == w.permits - (if pc.Passed? && pc'.Permitted? then 1 else 0)
      && (pc'.HasPermit() <==> pc.HasPermit() || (pc.Passed? && pc'.Permitted?))
      && (pc'.Unrecorded() <==> (pc.Checking? && pc'.Passed?) || pc.Passed?)
      && w'.rate.rpmLimit == w.rate.rpmLimit && w'.now == w.now && w'.peak == w.peak
      && (!pc.Permitted? ==> w'.history == w.history)
      && (!pc.Permitted? && !pc.Checking? ==> w'.rate.recentRequests == w.rate.recentRequests)
  {
    hide Recent, RateWait;
    assert w.tasks[id := w.tasks[id]] == w.tasks;
  }

  lemma PermitsAdvance(w: World, id: TaskId, permits: nat)
    requires PermitsKept(w, permits) && id in w.tasks
    ensures PermitsKept(AdvanceTask(w, id), permits)
  {
    hide AdvanceTask, Holders;
    var w' := AdvanceTask(w, id);
    AdvanceShape(w, id);
    TaskStands(w.tasks, id);
    TaskMoves(w.tasks, id, w'.tasks[id]);
  }

  lemma PermitsStep(w: World, a: Action, permits: nat)
    requires PermitsKept(w, permits)
    ensures PermitsKept(Perform(w, a), permits)
  {
    hide InFlight, Max, Holders, AdvanceTask;
    if a.Advance? && a.id in w.tasks {
      PermitsAdvance(w, a.id, permits);
    } else if a.Arrive? || a.Leave? {
      TaskMoves(w.tasks, a.id, Acquirer(Reading, None));
    }
  }

  lemma DeadlineStep(w: World, a: Action)
    requires DeadlineKept(w)
    ensures DeadlineKept(Perform(w, a))
  {
    hide Recent, InFlight, Holders, Max, RateWait;
  }

  /** A request that passes the check finds fewer than the limit, or none at all. */
  lemma PassedMeansRoom(times: seq<Instant>, limit: nat, now: Instant)
    requires RateWait(Recent(times, now), limit, now).None?
    ensures |Recent(times, now)| <= Max(1, limit) - 1
  {
    RecentAreRecent(times, now);
  }

  lemma RecordKeepsBound(times: seq<Instant>, now: Instant, bound: nat)
    requires RecordedWithin(times, bound) && |Recent(times, now)| < bound
    ensures RecordedWithin(times + [now], bound)
  {
    RecentPlus(times, now, now);
    forall i | 0 <= i < |times + [now]| ensures |Recent((times + [now])[..i + 1], (times + [now])[i])| <= bound {
      if i < |times| {
        assert (times + [now])[..i + 1] == times[..i + 1];
      } else {
        assert (times + [now])[..i + 1] == times + [now];
      }
    }
  }

  /** Nothing is recorded: either nobody passes the check, or there is room for whoever does. */
  lemma RateMoves(w: World, w': World, limit: nat)
    requires RateKept(w, limit)
    requires w'.rate.rpmLimit == limit && w'.history == w.history && w'.now >= w.now
    requires Recent(w'.rate.recentRequests, w'.now) == Recent(w.rate.recentRequests, w'.now)
    requires w'.peak == Max(w.peak, |InFlight(w'.tasks)|)
    requires |InFlight(w'.tasks)| <= |InFlight(w.tasks)| || |Recent(w.history, w'.now)| <= Max(1, limit) - 1
    ensures RateKept(w', limit)
  {
    hide Recent, InFlight;
    RecentOfRecent(w.rate.recentRequests, w.now, w'.now);
    RecentOfRecent(w.history, w.now, w'.now);
  }

  lemma RateRecords(w: World, w': World, limit: nat)
    requires RateKept(w, limit)
    requires w'.rate.rpmLimit == limit && w'.history == w.history + [w.now] && w'.now == w.now
    requires w'.rate.recentRequests == w.rate.recentRequests + [w.now]
    requires w'.peak == w.peak && |InFlight(w'.tasks)| == |InFlight(w.tasks)| - 1
    ensures RateKept(w', limit)
  {
    hide Recent, InFlight, RecordedWithin;
    RecentPlus(w.rate.recentRequests, w.now, w.now);
    RecentPlus(w.history, w.now, w.now);
    RecordKeepsBound(w.history, w.now, Allowed(limit, w.peak));
  }

  lemma RateStep(w: World, a: Action, limit: nat)
    requires RateKept(w, limit)
    ensures RateKept(Perform(w, a), limit)
  {
    hide Recent, InFlight, Holders, RateWait, AdvanceTask;
    var w' := Perform(w, a);
    if a.Advance? && a.id in w.tasks {
      RateAdvance(w, a.id, limit);
    } else {
      if a.Leave? || a.Arrive? {
        TaskMoves(w.tasks, a.id, Acquirer(Reading, None));
      }
      RateMoves(w, w', limit);
    }
  }

  lemma RateFacts(w: World, limit: nat)
    requires RateKept(w, limit)
    ensures |InFlight(w.tasks)| <= w.peak && w.rate.rpmLimit == limit
  {
  }

  lemma RateAdvance(w: World, id: TaskId, limit: nat)
    requires RateKept(w, limit) && id in w.tasks
    ensures RateKept(Perform(w, Advance(id)), limit)
  {
    hide AdvanceTask, InFlight, RecordedWithin, RateKept, Recent;
    var w' := Perform(w, Advance(id));
    AdvanceShape(w, id);
    TaskStands(w.tasks, id);
    TaskMoves(w.tasks, id, w'.tasks[id]);
    RateFacts(w, limit);
    if w.tasks[id].pc.Permitted? {
      RecordingMoves(w, w', id);
      RateRecords(w, w', limit);
    } else {
      if w.tasks[id].pc.Checking? {
        CheckingMoves(w, w', id, limit);
      }
      RateMoves(w, w', limit);
    }
  }

  lemma RecordingMoves(w: World, w': World, id: TaskId)
    requires id in w.tasks && w.tasks[id].pc.Permitted? && w' == Perform(w, Advance(id))
    ensures w'.history == w.history + [w.now] && w'.rate.recentRequests == w.rate.recentRequests + [w.now]
  {
  }

  lemma CheckingMoves(w: World, w': World, id: TaskId, limit: nat)
    requires RateKept(w, limit) && id in w.tasks && w.tasks[id].pc.Checking? && w' == Perform(w, Advance(id))
    ensures Recent(w'.rate.recentRequests, w.now) == Recent(w.rate.recentRequests, w.now)
    ensures w'.tasks[id].pc.Passed? ==> |Recent(w.history, w.now)| <= Max(1, limit) - 1
  {
    hide Recent, InFlight, RateWait;
    RecentOfRecent(w.rate.recentRequests, w.now, w.now);
    if w'.tasks[id].pc.Passed? {
      PassedMeansRoom(w.rate.recentRequests, limit, w.now);
    }
  }

  // Whole runs

  ghost predicate Kept(w: World, limit: nat, permits: nat) {
    PermitsKept(w, permits) && DeadlineKept(w) && RateKept(w, limit)
  }

  lemma {:induction false} RunKeeps(limit: nat, permits: nat, actions: seq<Action>)
    ensures Kept(Play(Opened(limit, permits), actions), limit, permits)
  {
    if actions != [] {
      var w := Play(Opened(limit, permits), actions[..|actions| - 1]);
      var a := actions[|actions| - 1];
      RunKeeps(limit, permits, actions[..|actions| - 1]);
      hide Perform, PermitsKept, DeadlineKept, RateKept;
      PermitsStep(w, a, permits);
      DeadlineStep(w, a);
      RateStep(w, a, limit);
    }
  }

  /** In every interleaving, free permits and held permits add up to the concurrency limit. */
  lemma PermitsAreConserved(limit: nat, permits: nat, actions: seq<Action>)
    ensures
      var w := Play(Opened(limit, permits), actions);
      w.permits + |Holders(w.tasks)| == permits
  {
    RunKeeps(limit, permits, actions);
  }

  /** Cleaning up never discards a live deadline, and nobody gets past the wait while the deadline
      that was the latest one when it looked is live. */
  lemma LiveDeadlineIsKept(limit: nat, permits: nat, actions: seq<Action>)
    ensures
      var w := Play(Opened(limit, permits), actions);
      && (w.latest.Some? && w.latest.value > w.now ==> w.rate.backoffUntil == w.latest)
      && forall id <- w.tasks :: w.tasks[id].pc.PastBackoff() && w.tasks[id].seen.Some? ==> w.tasks[id].seen.value <= w.now
  {
    RunKeeps(limit, permits, actions);
  }

  /** In every interleaving, whatever 60 seconds are picked from the full history, the requests recorded
      in them exceed the limit by at most the largest number of acquirers that were at once between a
      passed check and their record, less one. */
  lemma SlidingWindowBound(limit: nat, permits: nat, actions: seq<Action>, from: Instant)
    ensures
      var w := Play(Opened(limit, permits), actions);
      Within(w.history, from) <= Max(1, limit) - 1 + w.peak
  {
    RunKeeps(limit, permits, actions);
    var w := Play(Opened(limit, permits), actions);
    WindowsAreBounded(w.history, Allowed(limit, w.peak), from);
  }

  // Backpressure

  /** The acquirer has yet to look at the deadline, or has seen this one. */
  predicate Faces(w: World, id: TaskId, deadline: Instant) {
    && w.latest == Some(deadline)
    && (id in w.tasks ==> w.tasks[id].pc.Reading? || w.tasks[id].pc.BackingOff? || w.tasks[id].seen == w.latest)
  }

  lemma FacesStep(w: World, a: Action, id: TaskId, deadline: Instant)
    requires Faces(w, id, deadline) && !a.Notify?
    ensures Faces(Perform(w, a), id, deadline)
  {
    hide Recent, InFlight, Holders, RateWait, Cleared, Max;
    if a.Advance? && a.id in w.tasks {
      assert id != a.id ==> (id in AdvanceTask(w, a.id).tasks <==> id in w.tasks);
    }
  }

  lemma {:induction false} FacesIsKept(w: World, actions: seq<Action>, id: TaskId, deadline: Instant)
    requires Faces(w, id, deadline) && forall a <- actions :: !a.Notify?
    ensures Faces(Play(w, actions), id, deadline)
  {
    if actions != [] {
      hide Perform, Faces;
      var front := actions[..|actions| - 1];
      assert forall a <- front :: a in actions;
      FacesIsKept(w, front, id, deadline);
      FacesStep(Play(w, front), actions[|actions| - 1], id, deadline);
    }
  }

  lemma {:induction false} PlayAppends(w: World, first: seq<Action>, second: seq<Action>)
    ensures Play(w, first + second) == Play(Play(w, first), second)
  {
    if second == [] {
      assert first + second == first;
    } else {
      PlayAppends(w, first, second[..|second| - 1]);
      assert (first + second)[..|first + second| - 1] == first + second[..|second| - 1];
    }
  }

  /** An acquirer that looks at the deadline only after the last notification does not get past the
      wait, and so records nothing, before that notification's delay is over. */
  lemma BackpressureIsRespected(
    limit: nat, permits: nat, before: seq<Action>, after: seq<Action>, retryAfter: nat, id: TaskId)
    requires forall a <- after :: !a.Notify?
    requires
      var tasks := Play(Opened(limit, permits), before).tasks;
      id in tasks ==> tasks[id].pc.Reading? || tasks[id].pc.BackingOff?
    ensures
      var notified := Play(Opened(limit, permits), before).now;
      var w := Play(Opened(limit, permits), before + [Notify(retryAfter)] + after);
      id in w.tasks && w.tasks[id].pc.PastBackoff() ==> notified + retryAfter <= w.now
  {
    var start := Play(Opened(limit, permits), before);
    var history := before + [Notify(retryAfter)];
    assert history[..|history| - 1] == before;
    FacesIsKept(Play(Opened(limit, permits), history), after, id, start.now + retryAfter);
    PlayAppends(Opened(limit, permits), history, after);
    LiveDeadlineIsKept(limit, permits, history + after);
  }
}
