/** The broadcaster: dashboard clients join at any time, and every event is written to all of them. */
module Broadcaster {
  import opened Graphs

  type Event = string

  type ClientId = nat

  /** A connected client and the lines written to its stream so far. */
  datatype Client = Client(id: ClientId, received: seq<Event>)

  /** `broken` are the clients whose stream refuses the write. */
  datatype Action = Accept(id: ClientId) | Forward(event: Event, broken: set<ClientId>)

  /** The events forwarded by the actions. */
  function EventsOf(actions: seq<Action>): seq<Event> {
    if actions == [] then []
    else (if actions[0].Forward? then [actions[0].event] else []) + EventsOf(actions[1..])
  }

  predicate Survives(id: ClientId, actions: seq<Action>) {
    forall a <- actions :: a.Forward? ==> id !in a.broken
  }

  /** Who should be listed after the actions: everyone who joined and has taken every write since, in
      the order of joining, with exactly the events forwarded since. */
  function Listed(actions: seq<Action>): seq<Client> {
    if actions == [] then []
    else
      var rest := actions[1..];
      (if actions[0].Accept? && Survives(actions[0].id, rest) then [Client(actions[0].id, EventsOf(rest))] else [])
      + Listed(rest)
  }

  /** A client after the write. */
  function Written(c: Client, event: Event, broken: set<ClientId>): Client {
    if c.id in broken then c else c.(received := c.received + [event])
  }

  /** The clients that took the write, in order. */
  function Served(clients: seq<Client>, event: Event, broken: set<ClientId>): seq<Client> {
    if clients == [] then []
    else
      var c := clients[0];
      (if c.id in broken then [] else [Written(c, event, broken)]) + Served(clients[1..], event, broken)
  }

  lemma {:induction false} EventsOfPlus(actions: seq<Action>, a: Action)
    ensures EventsOf(actions + [a]) == if a.Forward? then EventsOf(actions) + [a.event] else EventsOf(actions)
  {
    if actions == [] {
      assert [a][1..] == [];
    } else {
      EventsOfPlus(actions[1..], a);
      assert (actions + [a])[1..] == actions[1..] + [a];
    }
  }

  lemma SurvivesPlus(id: ClientId, actions: seq<Action>, a: Action)
    ensures Survives(id, actions + [a]) <==> Survives(id, actions) && (a.Forward? ==> id !in a.broken)
  {
  }

  lemma {:induction false} ListedAccept(actions: seq<Action>, id: ClientId)
    ensures Listed(actions + [Accept(id)]) == Listed(actions) + [Client(id, [])]
  {
    var a := Accept(id);
    if actions == [] {
      assert [a][1..] == [];
    } else {
      var rest := actions[1..];
      ListedAccept(rest, id);
      EventsOfPlus(rest, a);
      assert (actions + [a])[1..] == rest + [a];
      if actions[0].Accept? {
        SurvivesPlus(actions[0].id, rest, a);
      }
      var first := Listed(actions)[..|Listed(actions)| - |Listed(rest)|];
      assert Listed(actions) == first + Listed(rest);
      assert Listed(actions + [a]) == first + Listed(rest + [a]);
    }
  }

  lemma {:induction false} ListedForward(actions: seq<Action>, event: Event, broken: set<ClientId>)
    ensures Listed(actions + [Forward(event, broken)]) == Served(Listed(actions), event, broken)
  {
    var a := Forward(event, broken);
    if actions == [] {
      assert [a][1..] == [];
    } else {
      var rest := actions[1..];
      ListedForward(rest, event, broken);
      EventsOfPlus(rest, a);
      assert (actions + [a])[1..] == rest + [a];
      if actions[0].Accept? {
        SurvivesPlus(actions[0].id, rest, a);
      }
      if actions[0].Accept? && Survives(actions[0].id, rest) {
        assert Listed(actions)[1..] == Listed(rest);
      } else {
        assert Listed(actions) == Listed(rest);
      }
    }
  }

  /** The k-th action lets the client in, and nothing drops it later. */
  ghost predicate JoinedAt(actions: seq<Action>, k: int, c: Client) {
    && 0 <= k < |actions| && actions[k] == Accept(c.id)
    && Survives(c.id, actions[k + 1..]) && c.received == EventsOf(actions[k + 1..])
  }

  /** A client is listed exactly if it joined at some point, has taken every write since, and has
      received precisely the events forwarded since. */
  lemma {:induction false} ListedIff(actions: seq<Action>, c: Client)
    ensures c in Listed(actions) <==> exists k :: JoinedAt(actions, k, c)
  {
    if actions != [] {
      var rest := actions[1..];
      ListedIff(rest, c);
      forall k | 1 <= k < |actions| ensures actions[k + 1..] == rest[k..] && actions[k] == rest[k - 1] {
      }
      if k :| JoinedAt(rest, k, c) {
        assert JoinedAt(actions, k + 1, c);
      }
      if k :| JoinedAt(actions, k, c) {
        assert k > 0 ==> JoinedAt(rest, k - 1, c);
      }
      assert JoinedAt(actions, 0, c) <==> actions[0] == Accept(c.id) && Survives(c.id, rest) && c.received == EventsOf(rest);
    }
  }

  // Removal by index

  predicate Increasing(indices: seq<nat>, bound: nat) {
    && (forall i, j :: 0 <= i < j < |indices| ==> indices[i] < indices[j])
    && forall i :: 0 <= i < |indices| ==> indices[i] < bound
  }

  /** The elements whose index is not listed, in order. */
  function Without<T>(s: seq<T>, indices: set<nat>): seq<T> {
    if s == [] then []
    else Without(s[..|s| - 1], indices) + if |s| - 1 in indices then [] else [s[|s| - 1]]
  }

  /** Taking out one index, beyond which nothing else is taken out, leaves the others valid. */
  lemma {:induction false} RemoveLast<T>(s: seq<T>, i: nat, others: set<nat>)
    requires i < |s| && forall j <- others :: j < i
    ensures Without(s, others + {i}) == Without(s[..i] + s[i + 1..], others)
  {
    var last := |s| - 1;
    if i == last {
      assert s[..last] + s[last + 1..] == s[..last];
      SameBelow(s[..last], others + {i}, others);
    } else {
      RemoveLast(s[..last], i, others);
      var shorter := s[..i] + s[i + 1..];
      assert shorter[..|shorter| - 1] == s[..last][..i] + s[..last][i + 1..];
    }
  }

  lemma {:induction false} SameBelow<T>(s: seq<T>, indices: set<nat>, indices': set<nat>)
    requires forall i :: 0 <= i < |s| ==> (i in indices <==> i in indices')
    ensures Without(s, indices) == Without(s, indices')
  {
    if s != [] {
      SameBelow(s[..|s| - 1], indices, indices');
    }
  }

  lemma {:induction false} NothingRemoved<T>(s: seq<T>)
    ensures Without(s, {}) == s
  {
    if s != [] {
      NothingRemoved(s[..|s| - 1]);
    }
  }

  lemma {:induction false} ServedPlus(clients: seq<Client>, c: Client, event: Event, broken: set<ClientId>)
    ensures
      Served(clients + [c], event, broken) ==
      Served(clients, event, broken) + if c.id in broken then [] else [Written(c, event, broken)]
  {
    if clients == [] {
      assert [c][1..] == [];
    } else {
      ServedPlus(clients[1..], c, event, broken);
      assert (clients + [c])[1..] == clients[1..] + [c];
    }
  }

  /** Taking out the clients whose write failed leaves those that took it. */
  lemma {:induction false} ServedAreKept(
    clients: seq<Client>, written: seq<Client>, event: Event, broken: set<ClientId>, failed: set<nat>)
    requires |clients| == |written| && forall j :: 0 <= j < |clients| ==> written[j] == Written(clients[j], event, broken)
    requires forall j :: 0 <= j < |clients| ==> (j in failed <==> clients[j].id in broken)
    ensures Without(written, failed) == Served(clients, event, broken)
  {
    if clients != [] {
      var n := |clients| - 1;
      ServedAreKept(clients[..n], written[..n], event, broken, failed);
      ServedPlus(clients[..n], clients[n], event, broken);
      assert clients == clients[..n] + [clients[n]];
    }
  }

  /** The client list shared by the accepting and the forwarding loop. */
  class Broadcaster {
    var clients: seq<Client>
    ghost var history: seq<Action>

    /** Over any sequence of accepts and forwards, exactly the surviving clients are listed, each with
        the contiguous run of events since it joined. */
    ghost predicate Valid()
      reads this
    {
      clients == Listed(history)
    }

    constructor ()
      ensures Valid() && history == []
    {
      clients, history := [], [];
    }

    method Accept(id: ClientId)
      requires Valid()
      modifies this
      ensures Valid() && history == old(history) + [Action.Accept(id)]
    {
      ListedAccept(history, id);
      clients := clients + [Client(id, [])];
      history := history + [Action.Accept(id)];
    }

    /** Removes the disconnected clients, last index first. */
    method Remove(disconnected: seq<nat>)
      requires Increasing(disconnected, |clients|)
      modifies this`clients
      ensures clients == Without(old(clients), SetOf(disconnected))
    {
      var k := |disconnected|;
      assert disconnected[..k] == disconnected;
      while k > 0
        invariant 0 <= k <= |disconnected| && Increasing(disconnected[..k], |clients|)
        invariant Without(clients, SetOf(disconnected[..k])) == Without(old(clients), SetOf(disconnected))
      {
        k := k - 1;
        var i := disconnected[k];
        assert disconnected[..k + 1] == disconnected[..k] + [i];
        assert i in disconnected[..k + 1];
        assert SetOf(disconnected[..k + 1]) == SetOf(disconnected[..k]) + {i};
        RemoveLast(clients, i, SetOf(disconnected[..k]));
        clients := clients[..i] + clients[i + 1..];
      }
      assert SetOf(disconnected[..k]) == {};
      NothingRemoved(clients);
    }

    /** Writes the event to all clients and drops those whose write failed. */
    method Forward(event: Event, broken: set<ClientId>)
      requires Valid()
      modifies this
      ensures Valid() && history == old(history) + [Action.Forward(event, broken)]
    {
      var disconnected: seq<nat> := [];
      for i := 0 to |clients|
        invariant |clients| == |old(clients)| && history == old(history)
        invariant forall j :: 0 <= j < i ==> clients[j] == Written(old(clients)[j], event, broken)
        invariant forall j :: i <= j < |clients| ==> clients[j] == old(clients)[j]
        invariant Increasing(disconnected, i) && forall j: nat :: j in disconnected <==> j < i && old(clients)[j].id in broken
      {
        if clients[i].id in broken {
          disconnected := disconnected + [i];
        } else {
          clients := clients[i := clients[i].(received := clients[i].received + [event])];
        }
      }
      ServedAreKept(old(clients), clients, event, broken, SetOf(disconnected));
      Remove(disconnected);
      ListedForward(old(history), event, broken);
      history := history + [Action.Forward(event, broken)];
    }
  }
}
