/** Finite directed graphs over node names: a closed walk exists exactly when no ranking does. */
module Graphs {
  type Node = string

  /** A pair (a, b) is an edge from a to b. */
  type Graph = set<(Node, Node)>

  ghost predicate IsPath(g: Graph, p: seq<Node>) {
    forall k :: 0 <= k < |p| - 1 ==> (p[k], p[k + 1]) in g
  }

  ghost predicate IsCycle(g: Graph, p: seq<Node>) {
    |p| >= 2 && p[0] == p[|p| - 1] && IsPath(g, p)
  }

  ghost predicate NoCycle(g: Graph) {
    forall p: seq<Node> :: !IsCycle(g, p)
  }

  /** Every edge leads to a node of strictly smaller rank. */
  ghost predicate IsRank(g: Graph, rank: map<Node, nat>) {
    forall e <- g :: e.0 in rank && e.1 in rank && rank[e.1] < rank[e.0]
  }

  ghost predicate Distinct<T>(s: seq<T>) {
    forall i, j :: 0 <= i < j < |s| ==> s[i] != s[j]
  }

  function SetOf<T>(s: seq<T>): set<T> {
    set x <- s
  }

  lemma {:induction false} DistinctBound<T>(s: seq<T>, bound: set<T>)
    requires Distinct(s) && forall x <- s :: x in bound
    ensures |s| <= |bound|
    ensures |s| == |bound| ==> SetOf(s) == bound
  {
    if s != [] {
      var n := |s| - 1;
      DistinctBound(s[..n], bound - {s[n]});
      assert s == s[..n] + [s[n]];
      assert SetOf(s) == SetOf(s[..n]) + {s[n]};
    } else if |bound| == 0 {
      assert SetOf(s) == {} == bound;
    }
  }

  lemma {:induction false} RankDescends(g: Graph, rank: map<Node, nat>, p: seq<Node>)
    requires IsRank(g, rank) && IsPath(g, p) && |p| >= 2
    ensures p[0] in rank && p[|p| - 1] in rank && rank[p[|p| - 1]] < rank[p[0]]
  {
    assert (p[0], p[1]) in g;
    if |p| > 2 {
      var tail := p[1..];
      assert forall k :: 0 <= k < |tail| ==> tail[k] == p[k + 1];
      RankDescends(g, rank, tail);
    }
  }

  lemma RankedHasNoCycle(g: Graph, rank: map<Node, nat>)
    requires IsRank(g, rank)
    ensures NoCycle(g)
  {
    forall p: seq<Node> ensures !IsCycle(g, p) {
      if IsCycle(g, p) {
        RankDescends(g, rank, p);
      }
    }
  }

  /** Some edge leads from a back into the given nodes. */
  ghost predicate Continues(g: Graph, a: Node, within: set<Node>) {
    exists b <- within :: (a, b) in g
  }

  lemma {:induction false} WalkWithin(g: Graph, within: set<Node>, length: nat) returns (p: seq<Node>)
    requires within != {}
    requires forall a <- within :: Continues(g, a, within)
    ensures |p| == length && IsPath(g, p) && forall x <- p :: x in within
  {
    if length == 0 {
      p := [];
    } else {
      p := WalkWithin(g, within, length - 1);
      if length > 1 {
        assert Continues(g, p[|p| - 1], within);
      }
      var b :| b in within && (p == [] || (p[|p| - 1], b) in g);
      p := p + [b];
    }
  }

  /** A nonempty set in which every node leads to another of its nodes contains a cycle. */
  lemma EndlessSetHasCycle(g: Graph, within: set<Node>)
    requires within != {}
    requires forall a <- within :: Continues(g, a, within)
    ensures !NoCycle(g)
  {
    var p := WalkWithin(g, within, |within| + 1);
    if Distinct(p) {
      DistinctBound(p, within);
    } else {
      var i, j :| 0 <= i < j < |p| && p[i] == p[j];
      assert IsCycle(g, p[i..j + 1]);
    }
  }

  lemma {:induction false} RankFrom(g: Graph, nodes: set<Node>, ranked: map<Node, nat>) returns (rank: map<Node, nat>)
    requires NoCycle(g)
    requires forall e <- g :: e.0 in nodes && e.1 in nodes
    requires ranked.Keys <= nodes
    requires forall e <- g :: e.0 in ranked ==> e.1 in ranked && ranked[e.1] < ranked[e.0]
    requires forall n <- ranked :: ranked[n] < |ranked|
    ensures IsRank(g, rank)
    decreases |nodes - ranked.Keys|
  {
    var left := nodes - ranked.Keys;
    if left == {} {
      rank := ranked;
    } else {
      if forall a <- left :: Continues(g, a, left) {
        EndlessSetHasCycle(g, left);
        assert false;
      }
      var a :| a in left && !Continues(g, a, left);
      var more := ranked[a := |ranked|];
      assert nodes - more.Keys == left - {a};
      assert |left - {a}| < |left|;
      rank := RankFrom(g, nodes, more);
    }
  }

  /** Having no closed walk is the same as having a ranking, which is what recursion needs. */
  lemma NoCycleIffRanked(g: Graph)
    ensures NoCycle(g) <==> exists rank :: IsRank(g, rank)
  {
    if NoCycle(g) {
      var nodes := (set e <- g :: e.0) + (set e <- g :: e.1);
      var rank := RankFrom(g, nodes, map[]);
    }
    forall rank | IsRank(g, rank) ensures NoCycle(g) {
      RankedHasNoCycle(g, rank);
    }
  }

  ghost function RankOf(g: Graph): (rank: map<Node, nat>)
    requires NoCycle(g)
    ensures IsRank(g, rank)
  {
    NoCycleIffRanked(g);
    var rank :| IsRank(g, rank);
    rank
  }
}
