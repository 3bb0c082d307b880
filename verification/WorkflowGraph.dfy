/** Workflow graphs: edges with routes, which edges fire, and paths from START. */
module WorkflowGraph {
  import opened Common
  import opened Digraph

  const START := "__START__"

  /** When an edge fires.  The default route fires when no specific route of the same node matched. */
  datatype EdgeRoute = Always | OnDefault | On(routes: set<string>)

  datatype Edge = Edge(source: string, target: string, route: EdgeRoute)

  ghost function EdgeGraph(edges: seq<Edge>): Graph {
    set e | e in edges :: (e.source, e.target)
  }

  function NodeNames(edges: seq<Edge>): set<string> {
    (set e | e in edges :: e.source) + (set e | e in edges :: e.target)
  }

  // ---- which edges fire ----

  function Leaving(edges: seq<Edge>, name: string): seq<Edge> {
    if edges == [] then []
    else
      var front, last := Leaving(edges[..|edges| - 1], name), edges[|edges| - 1];
      if last.source == name then front + [last] else front
  }

  /** Targets of the unconditional edges and of the edges whose route was emitted. */
  function Matched(es: seq<Edge>, routes: set<string>): seq<string> {
    if es == [] then []
    else
      var front, last := Matched(es[..|es| - 1], routes), es[|es| - 1];
      if last.route.Always? || (last.route.On? && last.route.routes * routes != {}) then front + [last.target]
      else front
  }

  function Defaults(es: seq<Edge>): seq<string> {
    if es == [] then []
    else
      var front, last := Defaults(es[..|es| - 1]), es[|es| - 1];
      if last.route.OnDefault? then front + [last.target] else front
  }

  predicate SpecificMatch(es: seq<Edge>, routes: set<string>) {
    exists e :: e in es && e.route.On? && e.route.routes * routes != {}
  }

  /** Whom a completion of name with these emitted routes triggers, with repetitions. */
  function NextNodes(edges: seq<Edge>, name: string, routes: set<string>): seq<string> {
    var es := Leaving(edges, name);
    Matched(es, routes) + if SpecificMatch(es, routes) then [] else Defaults(es)
  }

  /** Graph.get_next_pending_nodes, one pass over all edges. */
  method GetNextPendingNodes(edges: seq<Edge>, name: string, routes: set<string>) returns (next: seq<string>)
    ensures next == NextNodes(edges, name, routes)
    ensures forall t :: multiset(next)[t] == |Fired(edges, name, routes, t)|
  {
    next := [];
    var defaults: seq<string> := [];
    var matched := false;
    for i := 0 to |edges|
      invariant var es := Leaving(edges[..i], name);
                next == Matched(es, routes) && defaults == Defaults(es) && matched == SpecificMatch(es, routes)
    {
      assert edges[..i + 1][..i] == edges[..i];
      var edge := edges[i];
      ghost var es := Leaving(edges[..i], name);
      assert (es + [edge])[..|es|] == es;
      if edge.source != name {
        continue;
      }
      assert forall e :: e in es + [edge] <==> e in es || e == edge;
      if edge.route.Always? {
        next := next + [edge.target];
        continue;
      }
      if edge.route.OnDefault? {
        defaults := defaults + [edge.target];
        continue;
      }
      if edge.route.routes * routes != {} {
        next := next + [edge.target];
        matched := true;
      }
    }
    assert edges[..|edges|] == edges;
    if !matched {
      next := next + defaults;
    }
    FiresExactly(edges, name, routes);
  }

  // ---- which edges fire, on the edge list itself ----

  /** A specific route of the node matched. */
  ghost predicate SomeRouteMatches(edges: seq<Edge>, name: string, routes: set<string>) {
    exists j :: 0 <= j < |edges| && edges[j].source == name && edges[j].route.On?
      && edges[j].route.routes * routes != {}
  }

  /** Edge i fires: it is unconditional, or one of its routes was emitted, or it is a default and no edge of the
      node has an emitted route. */
  ghost predicate Fires(edges: seq<Edge>, i: nat, name: string, routes: set<string>)
    requires i < |edges|
  {
    && edges[i].source == name
    && match edges[i].route
       case Always => true
       case On(own) => own * routes != {}
       case OnDefault => !SomeRouteMatches(edges, name, routes)
  }

  ghost function Fired(edges: seq<Edge>, name: string, routes: set<string>, target: string): set<nat> {
    set i: nat | i < |edges| && Fires(edges, i, name, routes) && edges[i].target == target
  }

  /** Among the first k edges: those that fire whatever the others do, and the defaults. */
  ghost function MatchedBefore(edges: seq<Edge>, name: string, routes: set<string>, target: string, k: nat): set<nat>
    requires k <= |edges|
  {
    set i: nat | i < k && !edges[i].route.OnDefault? && Fires(edges, i, name, routes) && edges[i].target == target
  }

  ghost function DefaultsBefore(edges: seq<Edge>, name: string, target: string, k: nat): set<nat>
    requires k <= |edges|
  {
    set i: nat | i < k && edges[i].route.OnDefault? && edges[i].source == name && edges[i].target == target
  }

  lemma LeavingOneMore(edges: seq<Edge>, k: nat, name: string, routes: set<string>)
    requires k < |edges|
    ensures var es, e := Leaving(edges[..k], name), edges[k];
            if e.source != name then Leaving(edges[..k + 1], name) == es
            else
              && Leaving(edges[..k + 1], name) == es + [e]
              && Matched(es + [e], routes)
                 == Matched(es, routes) + (if e.route.Always? || (e.route.On? && e.route.routes * routes != {})
                                           then [e.target] else [])
              && Defaults(es + [e]) == Defaults(es) + if e.route.OnDefault? then [e.target] else []
  {
    assert edges[..k + 1][..k] == edges[..k];
    var es := Leaving(edges[..k], name);
    assert (es + [edges[k]])[..|es|] == es;
  }

  lemma {:induction false} MatchedCount(edges: seq<Edge>, name: string, routes: set<string>, target: string, k: nat)
    requires k <= |edges|
    ensures multiset(Matched(Leaving(edges[..k], name), routes))[target]
              == |MatchedBefore(edges, name, routes, target, k)|
  {
    if k > 0 {
      MatchedCount(edges, name, routes, target, k - 1);
      LeavingOneMore(edges, k - 1, name, routes);
      OneMoreMatched(edges, name, routes, target, k - 1);
    }
  }

  lemma OneMoreMatched(edges: seq<Edge>, name: string, routes: set<string>, target: string, i: nat)
    requires i < |edges|
    ensures |MatchedBefore(edges, name, routes, target, i + 1)|
         == |MatchedBefore(edges, name, routes, target, i)|
            + if !edges[i].route.OnDefault? && Fires(edges, i, name, routes) && edges[i].target == target then 1 else 0
  {
    var m := MatchedBefore(edges, name, routes, target, i);
    assert MatchedBefore(edges, name, routes, target, i + 1)
        == if !edges[i].route.OnDefault? && Fires(edges, i, name, routes) && edges[i].target == target then m + {i}
           else m;
  }

  lemma {:induction false} DefaultsCount(edges: seq<Edge>, name: string, target: string, k: nat)
    requires k <= |edges|
    ensures multiset(Defaults(Leaving(edges[..k], name)))[target] == |DefaultsBefore(edges, name, target, k)|
  {
    if k > 0 {
      DefaultsCount(edges, name, target, k - 1);
      LeavingOneMore(edges, k - 1, name, {});
      OneMoreDefault(edges, name, target, k - 1);
    }
  }

  lemma OneMoreDefault(edges: seq<Edge>, name: string, target: string, i: nat)
    requires i < |edges|
    ensures |DefaultsBefore(edges, name, target, i + 1)|
         == |DefaultsBefore(edges, name, target, i)|
            + if edges[i].route.OnDefault? && edges[i].source == name && edges[i].target == target then 1 else 0
  {
    var d := DefaultsBefore(edges, name, target, i);
    assert DefaultsBefore(edges, name, target, i + 1)
        == if edges[i].route.OnDefault? && edges[i].source == name && edges[i].target == target then d + {i} else d;
  }

  lemma {:induction false} SpecificMatchMeans(edges: seq<Edge>, name: string, routes: set<string>)
    ensures SpecificMatch(Leaving(edges, name), routes) <==> SomeRouteMatches(edges, name, routes)
  {
    LeavingAreEdges(edges, name);
    if SomeRouteMatches(edges, name, routes) {
      var j :| 0 <= j < |edges| && edges[j].source == name && edges[j].route.On?
        && edges[j].route.routes * routes != {};
      EdgesLeave(edges, j);
    }
  }

  lemma {:induction false} EdgesLeave(edges: seq<Edge>, j: nat)
    requires j < |edges|
    ensures edges[j] in Leaving(edges, edges[j].source)
  {
    if j < |edges| - 1 {
      EdgesLeave(edges[..|edges| - 1], j);
    }
  }

  /** Each target is triggered once for every edge into it that fires. */
  lemma FiresExactly(edges: seq<Edge>, name: string, routes: set<string>)
    ensures forall t :: multiset(NextNodes(edges, name, routes))[t] == |Fired(edges, name, routes, t)|
  {
    forall t ensures multiset(NextNodes(edges, name, routes))[t] == |Fired(edges, name, routes, t)| {
      MatchedCount(edges, name, routes, t, |edges|);
      DefaultsCount(edges, name, t, |edges|);
      SpecificMatchMeans(edges, name, routes);
      assert edges[..|edges|] == edges;
      var m, d := MatchedBefore(edges, name, routes, t, |edges|), DefaultsBefore(edges, name, t, |edges|);
      assert m !! d;
      assert Fired(edges, name, routes, t) == m + if SomeRouteMatches(edges, name, routes) then {} else d;
    }
  }

  // ---- fired edges are edges ----

  lemma NextNodesAreNodes(edges: seq<Edge>, name: string, routes: set<string>)
    ensures forall n :: n in NextNodes(edges, name, routes) ==> n in NodeNames(edges)
  {
    LeavingAreEdges(edges, name);
    MatchedAreTargets(Leaving(edges, name), routes);
    forall n | IsTarget(Leaving(edges, name), n) ensures n in NodeNames(edges) {
      var e :| e in Leaving(edges, name) && e.target == n;
    }
  }

  lemma {:induction false} LeavingAreEdges(edges: seq<Edge>, name: string)
    ensures forall e :: e in Leaving(edges, name) ==> e in edges && e.source == name
  {
    if edges != [] {
      LeavingAreEdges(edges[..|edges| - 1], name);
    }
  }

  ghost predicate IsTarget(es: seq<Edge>, n: string) {
    exists e :: e in es && e.target == n
  }

  lemma {:induction false} MatchedAreTargets(es: seq<Edge>, routes: set<string>)
    ensures forall n :: n in Matched(es, routes) || n in Defaults(es) ==> IsTarget(es, n)
  {
    if es != [] {
      var front, last := es[..|es| - 1], es[|es| - 1];
      MatchedAreTargets(front, routes);
      assert last in es && IsTarget(es, last.target);
      forall n | IsTarget(front, n) ensures IsTarget(es, n) {
        var e :| e in front && e.target == n;
        assert e in es;
      }
    }
  }

  // ---- unconditional graphs ----

  ghost predicate AllUnconditional(edges: seq<Edge>) {
    forall e :: e in edges ==> e.route.Always?
  }

  /** How many of the first k edges run from p to n. */
  function EdgeCount(edges: seq<Edge>, p: string, n: string, k: nat): nat
    requires k <= |edges|
  {
    if k == 0 then 0
    else EdgeCount(edges, p, n, k - 1) + if edges[k - 1].source == p && edges[k - 1].target == n then 1 else 0
  }

  lemma {:induction false} UnconditionalTargets(edges: seq<Edge>, k: nat, p: string, routes: set<string>)
    requires k <= |edges| && AllUnconditional(edges)
    ensures Defaults(Leaving(edges[..k], p)) == []
    ensures forall n :: multiset(Matched(Leaving(edges[..k], p), routes))[n] == EdgeCount(edges, p, n, k)
  {
    if k > 0 {
      UnconditionalTargets(edges, k - 1, p, routes);
      assert edges[..k][..k - 1] == edges[..k - 1];
      assert edges[k - 1] in edges;
      var es := Leaving(edges[..k - 1], p);
      assert (es + [edges[k - 1]])[..|es|] == es;
    }
  }

  /** Without routes a completion triggers every target, once per edge, whatever it emits. */
  lemma UnconditionalNext(edges: seq<Edge>, p: string, routes: set<string>)
    requires AllUnconditional(edges)
    ensures forall n :: multiset(NextNodes(edges, p, routes))[n] == EdgeCount(edges, p, n, |edges|)
  {
    UnconditionalTargets(edges, |edges|, p, routes);
    assert edges[..|edges|] == edges;
  }

  // ---- paths ----

  /** A path from START to n, as the indices of the edges it takes. */
  ghost predicate IsPath(edges: seq<Edge>, p: seq<nat>, n: string) {
    && p != []
    && (forall i :: 0 <= i < |p| ==> p[i] < |edges|)
    && edges[p[0]].source == START
    && (forall i :: 0 <= i < |p| - 1 ==> edges[p[i]].target == edges[p[i + 1]].source)
    && edges[p[|p| - 1]].target == n
  }

  /** What has to hold of n's run count when every predecessor q has run f(q) times: one run per
      incoming edge and run of its source, START counting once. */
  function Inflow(edges: seq<Edge>, f: map<string, nat>, n: string, k: nat): nat
    requires k <= |edges|
  {
    if k == 0 then 0
    else
      var e := edges[k - 1];
      Inflow(edges, f, n, k - 1)
      + if e.target != n then 0 else if e.source == START then 1 else if e.source in f then f[e.source] else 0
  }

  lemma {:induction false} InflowMonotone(edges: seq<Edge>, f: map<string, nat>, g: map<string, nat>, n: string, k: nat)
    requires k <= |edges|
    requires forall e :: e in edges && e.target == n && e.source in f ==> e.source in g && f[e.source] <= g[e.source]
    ensures Inflow(edges, f, n, k) <= Inflow(edges, g, n, k)
  {
    if k > 0 {
      assert edges[k - 1] in edges;
      InflowMonotone(edges, f, g, n, k - 1);
    }
  }
}
