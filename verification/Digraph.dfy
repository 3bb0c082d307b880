/** Directed graphs over string names, given as sets of edges.  An edge (a, b) is read "a points to b".
    Plan validation, the graph validator, the workflow engine and the DAG runtime all argue about
    cycles with the definitions below. */
module Digraph {
  type Graph = set<(string, string)>

  /** A walk follows edges; a single node is a walk. */
  ghost predicate IsWalk(g: Graph, p: seq<string>) {
    && p != []
    && forall i :: 0 <= i < |p| - 1 ==> (p[i], p[i + 1]) in g
  }

  ghost predicate IsCycle(g: Graph, p: seq<string>) {
    && |p| >= 2
    && IsWalk(g, p)
    && p[0] == p[|p| - 1]
  }

  ghost predicate Acyclic(g: Graph) {
    forall p :: !IsCycle(g, p)
  }

  /** rank strictly decreases along every edge: a topological numbering. */
  ghost predicate Ranks(g: Graph, rank: map<string, nat>) {
    forall a, b :: (a, b) in g ==> a in rank && b in rank && rank[b] < rank[a]
  }

  lemma {:induction false} RankDropsAlongWalk(g: Graph, rank: map<string, nat>, p: seq<string>)
    requires Ranks(g, rank) && IsWalk(g, p) && |p| >= 2
    ensures p[0] in rank && p[|p| - 1] in rank && rank[p[|p| - 1]] < rank[p[0]]
  {
    assert (p[0], p[1]) in g;
    if |p| > 2 {
      var q := p[1..];
      forall i | 0 <= i < |q| - 1 ensures (q[i], q[i + 1]) in g {
        assert (p[i + 1], p[i + 2]) in g;
      }
      RankDropsAlongWalk(g, rank, q);
    }
  }

  lemma RankedIsAcyclic(g: Graph, rank: map<string, nat>)
    requires Ranks(g, rank)
    ensures Acyclic(g)
  {
    forall p ensures !IsCycle(g, p) {
      if IsCycle(g, p) {
        RankDropsAlongWalk(g, rank, p);
      }
    }
  }

  lemma CycleInSupergraph(g: Graph, h: Graph, p: seq<string>)
    requires IsCycle(h, p) && h <= g
    ensures IsCycle(g, p)
  {
  }

  lemma SubgraphAcyclic(g: Graph, h: Graph)
    requires Acyclic(g) && h <= g
    ensures Acyclic(h)
  {
    forall p ensures !IsCycle(h, p) {
      if IsCycle(h, p) {
        CycleInSupergraph(g, h, p);
      }
    }
  }

  ghost predicate PointsInto(g: Graph, a: string, s: set<string>) {
    exists b :: b in s && (a, b) in g
  }

  /** Every member of s points to a member of s. */
  ghost predicate NoExit(g: Graph, s: set<string>) {
    forall a {:trigger PointsInto(g, a, s)} :: a in s ==> PointsInto(g, a, s)
  }

  lemma {:induction false} LongWalkInside(g: Graph, s: set<string>, start: string, n: nat) returns (p: seq<string>)
    requires NoExit(g, s) && start in s
    ensures |p| == n + 1 && IsWalk(g, p) && forall i :: 0 <= i < |p| ==> p[i] in s
  {
    if n == 0 {
      p := [start];
    } else {
      var q := LongWalkInside(g, s, start, n - 1);
      var last := q[|q| - 1];
      assert PointsInto(g, last, s);
      var b :| b in s && (last, b) in g;
      p := q + [b];
    }
  }

  lemma {:induction false} Pigeonhole(p: seq<string>, s: set<string>) returns (i: nat, j: nat)
    requires |p| > |s| && forall k :: 0 <= k < |p| ==> p[k] in s
    ensures i < j < |p| && p[i] == p[j]
  {
    var last := p[|p| - 1];
    var front := p[..|p| - 1];
    if k: nat :| k < |front| && front[k] == last {
      i, j := k, |p| - 1;
    } else {
      forall k | 0 <= k < |front| ensures front[k] in s - {last} {
        assert front[k] == p[k];
      }
      i, j := Pigeonhole(front, s - {last});
    }
  }

  /** A non-empty finite set that cannot be left contains a cycle. */
  lemma NoExitHasCycle(g: Graph, s: set<string>) returns (c: seq<string>)
    requires NoExit(g, s) && s != {}
    ensures IsCycle(g, c) && forall k :: 0 <= k < |c| ==> c[k] in s
  {
    var start :| start in s;
    var p := LongWalkInside(g, s, start, |s|);
    var i, j := Pigeonhole(p, s);
    c := p[i..j + 1];
    forall k | 0 <= k < |c| - 1 ensures (c[k], c[k + 1]) in g {
      assert c[k] == p[i + k] && c[k + 1] == p[i + k + 1];
    }
  }

  /** In an acyclic graph every non-empty finite set has a member that points to no member. */
  lemma AcyclicHasSink(g: Graph, s: set<string>) returns (a: string)
    requires Acyclic(g) && s != {}
    ensures a in s && forall b :: b in s ==> (a, b) !in g
  {
    if NoExit(g, s) {
      var c := NoExitHasCycle(g, s);
      assert false;
    }
    a :| a in s && !PointsInto(g, a, s);
  }

  /** Reachability by a walk. */
  ghost predicate Reaches(g: Graph, a: string, b: string) {
    exists p :: IsWalk(g, p) && p[0] == a && p[|p| - 1] == b
  }

  lemma ReachesSelf(g: Graph, a: string)
    ensures Reaches(g, a, a)
  {
    assert IsWalk(g, [a]);
  }

  lemma ReachesStep(g: Graph, a: string, b: string, c: string)
    requires Reaches(g, a, b) && (b, c) in g
    ensures Reaches(g, a, c)
  {
    var p :| IsWalk(g, p) && p[0] == a && p[|p| - 1] == b;
    var q := p + [c];
    assert IsWalk(g, q) && q[0] == a && q[|q| - 1] == c;
  }

  /** A set closed under edges keeps every walk that starts in it. */
  lemma {:induction false} ClosedSetKeepsWalks(g: Graph, s: set<string>, p: seq<string>)
    requires forall a, b :: a in s && (a, b) in g ==> b in s
    requires IsWalk(g, p) && p[0] in s
    ensures p[|p| - 1] in s
  {
    if |p| > 1 {
      assert (p[0], p[1]) in g;
      var q := p[1..];
      forall i | 0 <= i < |q| - 1 ensures (q[i], q[i + 1]) in g {
        assert (p[i + 1], p[i + 2]) in g;
      }
      ClosedSetKeepsWalks(g, s, q);
    }
  }
}
