/** How long the rate limit makes acquirers wait: no longer than they have to. */
module SchedulerWaits {
  import opened Wrappers
  import opened Scheduler

  predicate Sorted(times: seq<Instant>) {
    forall i, j :: 0 <= i < j < |times| ==> times[i] <= times[j]
  }

  /** The recent requests are exactly those less than a window old, each as often as it was recorded,
      and still in order. */
  lemma {:induction false} RecentKeepsTheRest(times: seq<Instant>, now: Instant)
    ensures forall t :: multiset(Recent(times, now))[t] == if Since(now, t) < WINDOW then multiset(times)[t] else 0
    ensures Sorted(times) ==> Sorted(Recent(times, now))
  {
    if times != [] {
      var n := |times| - 1;
      RecentKeepsTheRest(times[..n], now);
      RecentAreRecent(times[..n], now);
      assert times == times[..n] + [times[n]];
      if Sorted(times) {
        SortedAppend(Recent(times[..n], now), times[n]);
      }
    }
  }

  lemma SortedAppend(times: seq<Instant>, t: Instant)
    requires Sorted(times) && forall earlier <- times :: earlier <= t
    ensures Sorted(times + [t])
  {
    forall i, j | 0 <= i < j < |times| + 1 ensures (times + [t])[i] <= (times + [t])[j] {
      assert times[i] in times;
    }
  }

  /** When all requests are still recent, they are all kept. */
  lemma {:induction false} RecentKeepsAll(times: seq<Instant>, now: Instant)
    requires forall t <- times :: Since(now, t) < WINDOW
    ensures Recent(times, now) == times
  {
    if times != [] {
      var n := |times| - 1;
      assert times == times[..n] + [times[n]];
      RecentKeepsAll(times[..n], now);
    }
  }

  /** The wait is the least one that can help: until it is over, the oldest of the kept requests is in
      the window with all the others, so that checking again earlier would make the request wait on; when
      it is over, the oldest one is exactly 60 seconds old. Nobody waits below the limit. */
  lemma WaitIsLeast(kept: seq<Instant>, limit: nat, now: Instant)
    requires Sorted(kept) && forall t <- kept :: t <= now && Since(now, t) < WINDOW
    ensures RateWait(kept, limit, now).Some? <==> |kept| >= limit && kept != []
    ensures RateWait(kept, limit, now).Some? ==>
      var wait := RateWait(kept, limit, now).value;
      && kept[0] + 60_000 == now + wait
      && forall earlier :: now <= earlier < now + wait ==> RateWait(Recent(kept, earlier), limit, earlier).Some?
  {
    if |kept| >= limit && kept != [] {
      assert kept[0] in kept;
      forall earlier | now <= earlier < kept[0] + WINDOW ensures RateWait(Recent(kept, earlier), limit, earlier).Some? {
        forall t | t in kept ensures Since(earlier, t) < WINDOW {
          var k :| 0 <= k < |kept| && kept[k] == t;
        }
        RecentKeepsAll(kept, earlier);
      }
    }
  }

  // In every interleaving

  ghost predicate RequestsKept(w: World) {
    Sorted(w.rate.recentRequests) && forall t <- w.rate.recentRequests :: t <= w.now
  }

  lemma RequestsStep(w: World, a: Action)
    requires RequestsKept(w)
    ensures RequestsKept(Perform(w, a))
  {
    hide InFlight, Holders, RateWait, Max, AdvanceTask;
    var times, w' := w.rate.recentRequests, Perform(w, a);
    RecentKeepsTheRest(times, w.now);
    RecentAreRecent(times, w.now);
    SortedAppend(times, w.now);
    if a.Advance? && a.id in w.tasks {
      RequestsMove(w, a.id);
    }
  }

  lemma RequestsMove(w: World, id: TaskId)
    requires id in w.tasks
    ensures
      var times, w' := w.rate.recentRequests, AdvanceTask(w, id);
      && w'.now == w.now
      && (w'.rate.recentRequests == times || w'.rate.recentRequests == Recent(times, w.now) || w'.rate.recentRequests == times + [w.now])
  {
    hide Recent, RateWait;
  }

  lemma {:induction false} RunKeepsRequests(limit: nat, permits: nat, actions: seq<Action>)
    ensures RequestsKept(Play(Opened(limit, permits), actions))
  {
    if actions != [] {
      hide Perform, RequestsKept;
      RunKeepsRequests(limit, permits, actions[..|actions| - 1]);
      RequestsStep(Play(Opened(limit, permits), actions[..|actions| - 1]), actions[|actions| - 1]);
    }
  }

  /** In every interleaving, an acquirer that the check makes wait is to wait until the oldest request of
      the window is exactly 60 seconds old; were it to check earlier, and nobody else did anything, it
      would have to wait on. */
  lemma AcquirersWaitLeast(limit: nat, permits: nat, actions: seq<Action>, id: TaskId)
    requires
      var w := Play(Opened(limit, permits), actions);
      id in w.tasks && w.tasks[id].pc.Checking? && AdvanceTask(w, id).tasks[id].pc.Waiting?
    ensures
      var w := Play(Opened(limit, permits), actions);
      var kept := AdvanceTask(w, id).rate.recentRequests;
      var deadline := AdvanceTask(w, id).tasks[id].pc.deadline;
      && kept != [] && (forall t <- kept :: kept[0] <= t) && deadline == kept[0] + 60_000
      && forall earlier :: w.now <= earlier < deadline ==> RateWait(Recent(kept, earlier), limit, earlier).Some?
  {
    hide Recent, RateWait;
    var w := Play(Opened(limit, permits), actions);
    RunKeepsRequests(limit, permits, actions);
    RunKeeps(limit, permits, actions);
    var times := w.rate.recentRequests;
    RecentKeepsTheRest(times, w.now);
    RecentAreRecent(times, w.now);
    WaitIsLeast(Recent(times, w.now), limit, w.now);
  }
}
