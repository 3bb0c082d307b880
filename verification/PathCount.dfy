/** In an acyclic graph there are finitely many paths from START to a node; this module counts them. */
module PathCount {
  import opened Common
  import opened Digraph
  import opened WorkflowGraph

  ghost function Extended(ps: set<seq<nat>>, x: nat): set<seq<nat>> {
    set p | p in ps :: p + [x]
  }

  /** Paths to n of length at most len whose last edge is among the first k. */
  ghost function PathsWithin(edges: seq<Edge>, n: string, k: nat, len: nat): set<seq<nat>>
    requires k <= |edges|
    decreases len, k
  {
    if k == 0 || len == 0 then {}
    else
      var rest, e := PathsWithin(edges, n, k - 1, len), edges[k - 1];
      if e.target != n then rest
      else if e.source == START then rest + {[k - 1]}
      else rest + Extended(PathsWithin(edges, e.source, |edges|, len - 1), k - 1)
  }

  ghost predicate PathWithin(edges: seq<Edge>, p: seq<nat>, n: string, k: nat, len: nat) {
    IsPath(edges, p, n) && |p| <= len && p[|p| - 1] < k
  }

  /** A path of two or more edges is a shorter path and one more edge. */
  lemma SplitPath(edges: seq<Edge>, p: seq<nat>, n: string)
    requires IsPath(edges, p, n) && |p| > 1
    ensures IsPath(edges, p[..|p| - 1], edges[p[|p| - 1]].source)
  {
    var q := p[..|p| - 1];
    assert edges[p[|p| - 2]].target == edges[p[|p| - 1]].source;
    forall i | 0 <= i < |q| - 1 ensures edges[q[i]].target == edges[q[i + 1]].source {
      assert edges[p[i]].target == edges[p[i + 1]].source;
    }
  }

  lemma JoinPath(edges: seq<Edge>, q: seq<nat>, x: nat)
    requires x < |edges| && IsPath(edges, q, edges[x].source)
    ensures IsPath(edges, q + [x], edges[x].target)
  {
    var p := q + [x];
    forall i | 0 <= i < |p| - 1 ensures edges[p[i]].target == edges[p[i + 1]].source {
      if i < |q| - 1 {
        assert edges[q[i]].target == edges[q[i + 1]].source;
      }
    }
  }

  lemma ExtendedMember(ps: set<seq<nat>>, x: nat, p: seq<nat>)
    ensures p in Extended(ps, x) <==> p != [] && p[|p| - 1] == x && p[..|p| - 1] in ps
  {
    if p in Extended(ps, x) {
      var q :| q in ps && p == q + [x];
      assert p[..|p| - 1] == q;
    }
    if p != [] && p[|p| - 1] == x && p[..|p| - 1] in ps {
      assert p == p[..|p| - 1] + [x];
    }
  }

  lemma NoPathReentersStart(edges: seq<Edge>, p: seq<nat>, n: string)
    requires forall e :: e in edges ==> e.target != START
    ensures IsPath(edges, p, n) && |p| > 1 ==> edges[p[|p| - 1]].source != START
  {
    if IsPath(edges, p, n) && |p| > 1 {
      assert edges[p[|p| - 2]] in edges && edges[p[|p| - 2]].target == edges[p[|p| - 1]].source;
    }
  }

  /** A path whose last edge leaves START is that edge. */
  lemma PathFromStart(edges: seq<Edge>, p: seq<nat>, x: nat)
    requires x < |edges| && edges[x].source == START && forall e :: e in edges ==> e.target != START
    ensures IsPath(edges, p, edges[x].target) && p[|p| - 1] == x <==> p == [x]
  {
    NoPathReentersStart(edges, p, edges[x].target);
    assert |p| == 1 ==> p == [p[0]];
  }

  /** A path whose last edge leaves another node is a path to that node, extended. */
  lemma PathFromNode(edges: seq<Edge>, p: seq<nat>, x: nat)
    requires x < |edges| && edges[x].source != START
    ensures IsPath(edges, p, edges[x].target) && p[|p| - 1] == x
            <==> p != [] && p[|p| - 1] == x && IsPath(edges, p[..|p| - 1], edges[x].source)
  {
    if p != [] && p[|p| - 1] == x {
      var q := p[..|p| - 1];
      assert p == q + [x];
      if IsPath(edges, p, edges[x].target) {
        SplitPath(edges, p, edges[x].target);
      }
      if IsPath(edges, q, edges[x].source) {
        JoinPath(edges, q, x);
      }
    }
  }

  lemma {:induction false} PathsWithinAreThePaths(edges: seq<Edge>, p: seq<nat>, n: string, k: nat, len: nat)
    requires k <= |edges| && forall e :: e in edges ==> e.target != START
    ensures p in PathsWithin(edges, n, k, len) <==> PathWithin(edges, p, n, k, len)
    decreases len, k
  {
    if k > 0 && len > 0 {
      PathsWithinAreThePaths(edges, p, n, k - 1, len);
      var e := edges[k - 1];
      if e.target == n && e.source == START {
        PathFromStart(edges, p, k - 1);
      } else if e.target == n {
        PathFromNode(edges, p, k - 1);
        ExtendedMember(PathsWithin(edges, e.source, |edges|, len - 1), k - 1, p);
        if p != [] && p[|p| - 1] == k - 1 {
          PathsWithinAreThePaths(edges, p[..|p| - 1], e.source, |edges|, len - 1);
        }
      }
    }
  }

  // ---- counting ----

  lemma {:induction false} ExtendedCount(ps: set<seq<nat>>, x: nat)
    ensures |Extended(ps, x)| == |ps|
  {
    if ps != {} {
      var p :| p in ps;
      ExtendedCount(ps - {p}, x);
      assert Extended(ps, x) == Extended(ps - {p}, x) + {p + [x]};
      assert p + [x] !in Extended(ps - {p}, x) by {
        forall q | q in ps - {p} ensures q + [x] != p + [x] {
          assert (q + [x])[..|q|] == q && (p + [x])[..|p|] == p;
        }
      }
    }
  }

  ghost function Counts(edges: seq<Edge>, len: nat): map<string, nat> {
    map n | n in NodeNames(edges) :: |PathsWithin(edges, n, |edges|, len)|
  }

  lemma DisjointUnion(a: set<seq<nat>>, b: set<seq<nat>>)
    requires a !! b
    ensures |a + b| == |a| + |b|
  {
  }

  lemma {:induction false} PathsWithinCount(edges: seq<Edge>, n: string, k: nat, len: nat)
    requires k <= |edges| && len > 0 && forall e :: e in edges ==> e.target != START
    ensures |PathsWithin(edges, n, k, len)| == Inflow(edges, Counts(edges, len - 1), n, k)
  {
    if k > 0 {
      PathsWithinCount(edges, n, k - 1, len);
      var rest, e := PathsWithin(edges, n, k - 1, len), edges[k - 1];
      assert e in edges && e.source in NodeNames(edges);
      forall p | p in rest ensures p != [] && p[|p| - 1] < k - 1 {
        PathsWithinAreThePaths(edges, p, n, k - 1, len);
      }
      if e.target == n && e.source == START {
        assert [k - 1] !in rest;
      } else if e.target == n {
        var more := PathsWithin(edges, e.source, |edges|, len - 1);
        ExtendedCount(more, k - 1);
        DisjointUnion(rest, Extended(more, k - 1));
      }
    }
  }

  // ---- acyclic graphs ----

  /** A path longer than the number of nodes closes a cycle. */
  lemma LongPathCloses(edges: seq<Edge>, p: seq<nat>, n: string) returns (c: seq<string>)
    requires IsPath(edges, p, n) && |p| > |NodeNames(edges)|
    ensures IsCycle(EdgeGraph(edges), c)
  {
    var w := seq(|p|, i requires 0 <= i < |p| => edges[p[i]].target);
    forall i | 0 <= i < |w| ensures w[i] in NodeNames(edges) {
      assert edges[p[i]] in edges;
    }
    var i, j := Pigeonhole(w, NodeNames(edges));
    c := w[i..j + 1];
    forall m | 0 <= m < |c| - 1 ensures (c[m], c[m + 1]) in EdgeGraph(edges) {
      assert edges[p[i + m + 1]] in edges;
    }
  }

  lemma PathsAreShort(edges: seq<Edge>, p: seq<nat>, n: string)
    requires Acyclic(EdgeGraph(edges)) && IsPath(edges, p, n)
    ensures |p| <= |NodeNames(edges)|
  {
    if |p| > |NodeNames(edges)| {
      var c := LongPathCloses(edges, p, n);
      assert false;
    }
  }

  /** All paths from START to n. */
  ghost function PathsTo(edges: seq<Edge>, n: string): set<seq<nat>> {
    PathsWithin(edges, n, |edges|, |NodeNames(edges)|)
  }

  ghost predicate Rooted(edges: seq<Edge>) {
    Acyclic(EdgeGraph(edges)) && forall e :: e in edges ==> e.target != START
  }

  lemma PathsToAreThePaths(edges: seq<Edge>, p: seq<nat>, n: string)
    requires Rooted(edges)
    ensures p in PathsTo(edges, n) <==> IsPath(edges, p, n)
  {
    PathsWithinAreThePaths(edges, p, n, |edges|, |NodeNames(edges)|);
    if IsPath(edges, p, n) {
      PathsAreShort(edges, p, n);
    }
  }

  ghost function PathCounts(edges: seq<Edge>): map<string, nat> {
    Counts(edges, |NodeNames(edges)|)
  }

  /** Path counts solve the inflow equations. */
  lemma PathCountsAreInflows(edges: seq<Edge>, n: string)
    requires Rooted(edges)
    ensures |PathsTo(edges, n)| == Inflow(edges, PathCounts(edges), n, |edges|)
  {
    var len := |NodeNames(edges)|;
    PathsWithinCount(edges, n, |edges|, len + 1);
    forall p ensures p in PathsWithin(edges, n, |edges|, len + 1) <==> p in PathsTo(edges, n) {
      PathsWithinAreThePaths(edges, p, n, |edges|, len + 1);
      PathsToAreThePaths(edges, p, n);
      if IsPath(edges, p, n) {
        PathsAreShort(edges, p, n);
      }
    }
    assert PathsWithin(edges, n, |edges|, len + 1) == PathsTo(edges, n);
  }

  function Val(f: map<string, nat>, n: string): nat {
    if n in f then f[n] else 0
  }

  /** f is at most (exactly) the inflow it causes. */
  ghost predicate Underflows(edges: seq<Edge>, f: map<string, nat>, n: string) {
    Val(f, n) <= Inflow(edges, f, n, |edges|)
  }

  ghost predicate Balances(edges: seq<Edge>, f: map<string, nat>, n: string) {
    Val(f, n) == Inflow(edges, f, n, |edges|)
  }

  lemma UnderflowIsBelow(edges: seq<Edge>, f: map<string, nat>, c: map<string, nat>, n: string)
    requires Rooted(edges) && f.Keys <= c.Keys
    requires forall m :: m in f ==> Underflows(edges, f, m)
    requires forall m :: m in c ==> Balances(edges, c, m)
    ensures Val(f, n) <= Val(c, n)
  {
    var reversed := set e | e in edges :: (e.target, e.source);
    ReversedAcyclic(edges, reversed);
    var bad := set m | m in f && f[m] > c[m];
    if bad != {} {
      var a := AcyclicHasSink(reversed, bad);
      assert Underflows(edges, f, a) && Balances(edges, c, a);
      forall e | e in edges && e.target == a && e.source in f ensures f[e.source] <= c[e.source] {
        assert (a, e.source) in reversed;
      }
      InflowMonotone(edges, f, c, a, |edges|);
    }
    assert n in f ==> n !in bad;
  }

  lemma BalanceIsUnique(edges: seq<Edge>, f: map<string, nat>, c: map<string, nat>, n: string)
    requires Rooted(edges) && f.Keys == c.Keys
    requires forall m :: m in f ==> Balances(edges, f, m)
    requires forall m :: m in c ==> Balances(edges, c, m)
    ensures Val(f, n) == Val(c, n)
  {
    UnderflowIsBelow(edges, f, c, n);
    UnderflowIsBelow(edges, c, f, n);
  }

  lemma PathCountsBalance(edges: seq<Edge>, n: string)
    requires Rooted(edges) && n in NodeNames(edges)
    ensures PathCounts(edges)[n] == |PathsTo(edges, n)| && Balances(edges, PathCounts(edges), n)
  {
    PathCountsAreInflows(edges, n);
  }

  lemma ReversedCycle(edges: seq<Edge>, reversed: Graph, c: seq<string>) returns (d: seq<string>)
    requires reversed == (set e | e in edges :: (e.target, e.source)) && IsCycle(reversed, c)
    ensures IsCycle(EdgeGraph(edges), d)
  {
    d := seq(|c|, i requires 0 <= i < |c| => c[|c| - 1 - i]);
    forall i | 0 <= i < |d| - 1 ensures (d[i], d[i + 1]) in EdgeGraph(edges) {
      assert (c[|c| - 2 - i], c[|c| - 1 - i]) in reversed;
    }
  }

  lemma ReversedAcyclic(edges: seq<Edge>, reversed: Graph)
    requires Acyclic(EdgeGraph(edges)) && reversed == set e | e in edges :: (e.target, e.source)
    ensures Acyclic(reversed)
  {
    forall c ensures !IsCycle(reversed, c) {
      if IsCycle(reversed, c) {
        var d := ReversedCycle(edges, reversed, c);
        assert false;
      }
    }
  }
}
