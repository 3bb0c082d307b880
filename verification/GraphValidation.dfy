/** The static checks of src/new_choirworks/core/workflow/utils/graph_validation.py.  Once no two node
    objects share a name, nodes are the names that occur on edges. */
module GraphValidation {
  import opened Common
  import opened Digraph
  import opened WorkflowGraph

  const DEFAULT_ROUTE := "__DEFAULT__"

  datatype GraphVerdict =
    | Valid
    | DuplicateName
    | StartMissing
    | StartEdgeHasRoute
    | Unreachable
    | StartHasIncoming
    | DuplicateEdge
    | DefaultMixedWithRoutes
    | UnconditionalCycle

  ghost function UnconditionalGraph(edges: seq<Edge>): Graph {
    set e | e in edges && e.route.Always? :: (e.source, e.target)
  }

  /** Two edges between the same nodes whose routes may fire together. */
  ghost predicate Clash(e: Edge, f: Edge) {
    && e.source == f.source && e.target == f.target
    && (e.route.Always? || f.route.Always? || Routes(e.route) * Routes(f.route) != {})
  }

  /** The normalised routes of an edge; None stands for an unconditional edge. */
  function Routes(r: EdgeRoute): set<Option<string>> {
    match r
    case Always => {None}
    case OnDefault => {Some(DEFAULT_ROUTE)}
    case On(routes) => set x | x in routes :: Some(x)
  }

  ghost predicate EachReachable(edges: seq<Edge>) {
    forall n :: n in NodeNames(edges) ==> Reaches(EdgeGraph(edges), START, n)
  }

  ghost predicate NoClash(edges: seq<Edge>) {
    forall i, j :: 0 <= i < j < |edges| ==> !Clash(edges[i], edges[j])
  }

  predicate StartUnrouted(edges: seq<Edge>) {
    forall e :: e in edges && e.source == START ==> e.route.Always?
  }

  predicate StartIsSource(edges: seq<Edge>) {
    forall e :: e in edges ==> e.target != START
  }

  predicate DefaultAlone(edges: seq<Edge>) {
    forall e :: e in edges && e.route.On? ==> DEFAULT_ROUTE !in e.route.routes
  }

  /** What a valid graph is, said without the algorithms that check it. */
  ghost predicate GraphOk(edges: seq<Edge>) {
    && START in NodeNames(edges)
    && StartUnrouted(edges)
    && EachReachable(edges)
    && StartIsSource(edges)
    && NoClash(edges)
    && DefaultAlone(edges)
    && Acyclic(UnconditionalGraph(edges))
  }

  /** The first requirement a graph violates, in the order in which they are checked. */
  ghost function FirstFault(edges: seq<Edge>): GraphVerdict {
    if START !in NodeNames(edges) then StartMissing
    else if !StartUnrouted(edges) then StartEdgeHasRoute
    else if !EachReachable(edges) then Unreachable
    else if !StartIsSource(edges) then StartHasIncoming
    else if !NoClash(edges) then DuplicateEdge
    else if !DefaultAlone(edges) then DefaultMixedWithRoutes
    else if !Acyclic(UnconditionalGraph(edges)) then UnconditionalCycle
    else Valid
  }

  // ---- node objects ----

  /** A node object: its identity and its name. */
  datatype NodeRef = NodeRef(identity: nat, name: string)

  datatype ObjectEdge = ObjectEdge(source: NodeRef, target: NodeRef, route: EdgeRoute)

  function Named(es: seq<ObjectEdge>): seq<Edge> {
    seq(|es|, i requires 0 <= i < |es| => Edge(es[i].source.name, es[i].target.name, es[i].route))
  }

  ghost predicate Occurs(es: seq<ObjectEdge>, r: NodeRef) {
    exists i :: 0 <= i < |es| && (es[i].source == r || es[i].target == r)
  }

  /** An object has one name. */
  ghost predicate Consistent(es: seq<ObjectEdge>) {
    forall r, q :: Occurs(es, r) && Occurs(es, q) && r.identity == q.identity ==> r == q
  }

  ghost predicate NamesUnique(es: seq<ObjectEdge>) {
    forall r, q :: Occurs(es, r) && Occurs(es, q) && r.name == q.name ==> r.identity == q.identity
  }

  lemma OccursOneMore(es: seq<ObjectEdge>, i: nat, r: NodeRef)
    requires i < |es|
    ensures Occurs(es[..i + 1], r) <==> Occurs(es[..i], r) || es[i].source == r || es[i].target == r
  {
    var before, after := es[..i], es[..i + 1];
    if Occurs(before, r) {
      var j :| 0 <= j < i && (before[j].source == r || before[j].target == r);
      assert after[j] == before[j];
    }
    if es[i].source == r || es[i].target == r {
      assert after[i] == es[i];
    }
    if Occurs(after, r) {
      var j :| 0 <= j < i + 1 && (after[j].source == r || after[j].target == r);
      assert j < i ==> before[j] == after[j];
    }
  }

  /** The node objects on the edges, once each, in the order in which they are first seen. */
  method InferNodes(es: seq<ObjectEdge>) returns (nodes: seq<NodeRef>)
    requires Consistent(es)
    ensures Distinct(nodes) && forall r :: r in nodes <==> Occurs(es, r)
  {
    nodes := [];
    for i := 0 to |es|
      invariant Distinct(nodes) && forall r :: r in nodes <==> Occurs(es[..i], r)
    {
      forall r ensures Occurs(es[..i + 1], r) <==> Occurs(es[..i], r) || es[i].source == r || es[i].target == r {
        OccursOneMore(es, i, r);
      }
      if es[i].source !in nodes {
        nodes := nodes + [es[i].source];
      }
      if es[i].target !in nodes {
        nodes := nodes + [es[i].target];
      }
    }
    assert es[..|es|] == es;
  }

  method HasDuplicateNames(nodes: seq<NodeRef>) returns (duplicate: bool)
    ensures duplicate <==> exists i, j :: 0 <= i < j < |nodes| && nodes[i].name == nodes[j].name
  {
    var seen: set<string> := {};
    for i := 0 to |nodes|
      invariant seen == set k | 0 <= k < i :: nodes[k].name
      invariant forall k, l :: 0 <= k < l < i ==> nodes[k].name != nodes[l].name
    {
      if nodes[i].name in seen {
        return true;
      }
      seen := seen + {nodes[i].name};
    }
    duplicate := false;
  }

  /** Graph construction and validation: the verdict is the first requirement that is violated. */
  method ValidateObjects(es: seq<ObjectEdge>) returns (verdict: GraphVerdict)
    requires Consistent(es)
    ensures verdict == if NamesUnique(es) then FirstFault(Named(es)) else DuplicateName
    ensures verdict == Valid <==> NamesUnique(es) && GraphOk(Named(es))
  {
    var nodes := InferNodes(es);
    var duplicate := HasDuplicateNames(nodes);
    DuplicateMeansShared(es, nodes);
    if duplicate {
      return DuplicateName;
    }
    verdict := ValidateGraph(Named(es));
  }

  lemma DuplicateMeansShared(es: seq<ObjectEdge>, nodes: seq<NodeRef>)
    requires Consistent(es) && Distinct(nodes) && forall r :: r in nodes <==> Occurs(es, r)
    ensures NamesUnique(es) <==> !exists i, j :: 0 <= i < j < |nodes| && nodes[i].name == nodes[j].name
  {
    if i, j :| 0 <= i < j < |nodes| && nodes[i].name == nodes[j].name {
      assert nodes[i] in nodes && nodes[j] in nodes && nodes[i] != nodes[j];
      assert nodes[i].identity != nodes[j].identity;
    } else {
      forall r, q | Occurs(es, r) && Occurs(es, q) && r.name == q.name ensures r.identity == q.identity {
        var i :| 0 <= i < |nodes| && nodes[i] == r;
        var j :| 0 <= j < |nodes| && nodes[j] == q;
        assert i == j;
      }
    }
  }

  method ValidateGraph(edges: seq<Edge>) returns (verdict: GraphVerdict)
    ensures verdict == FirstFault(edges)
    ensures verdict == Valid <==> GraphOk(edges)
  {
    if START !in NodeNames(edges) {
      return StartMissing;
    }
    if !StartUnrouted(edges) {
      return StartEdgeHasRoute;
    }
    var connected := AllReachable(edges);
    if !connected {
      return Unreachable;
    }
    if !StartIsSource(edges) {
      return StartHasIncoming;
    }
    var clash := HasDuplicateEdges(edges);
    if clash {
      return DuplicateEdge;
    }
    if !DefaultAlone(edges) {
      return DefaultMixedWithRoutes;
    }
    var adj := BuildAdjacency(edges);
    var finder := new CycleFinder(adj, UnconditionalGraph(edges));
    var cycle := finder.DetectUnconditionalCycles();
    verdict := if cycle then UnconditionalCycle else Valid;
  }

  method AllReachable(edges: seq<Edge>) returns (connected: bool)
    requires START in NodeNames(edges)
    ensures connected <==> EachReachable(edges)
  {
    var reachable := ReachableFromStart(edges);
    connected := NodeNames(edges) - reachable == {};
    forall n | n in NodeNames(edges)
      ensures n in NodeNames(edges) - reachable <==> !Reaches(EdgeGraph(edges), START, n)
    {
    }
  }

  /** A validated graph with unconditional edges only is one the workflow loop drains. */
  lemma ValidatedIsRooted(edges: seq<Edge>)
    requires GraphOk(edges) && AllUnconditional(edges)
    ensures Acyclic(EdgeGraph(edges)) && forall e :: e in edges ==> e.target != START
  {
    assert EdgeGraph(edges) == UnconditionalGraph(edges);
  }

  // ---- connectivity ----

  function Successors(edges: seq<Edge>, n: string): set<string> {
    set e | e in edges && e.source == n :: e.target
  }

  /** What the search keeps: everything seen is reachable, and whatever a visited node points to is seen. */
  ghost predicate Searching(g: Graph, stack: seq<string>, reachable: set<string>) {
    && (START in reachable || START in stack)
    && (forall n :: n in stack ==> Reaches(g, START, n))
    && (forall n :: n in reachable ==> Reaches(g, START, n))
    && (forall a, b :: a in reachable && (a, b) in g ==> b in reachable || b in stack)
  }

  /** The stack search from START computes exactly the reachable nodes. */
  method ReachableFromStart(edges: seq<Edge>) returns (reachable: set<string>)
    requires START in NodeNames(edges)
    ensures forall n :: n in reachable <==> Reaches(EdgeGraph(edges), START, n)
  {
    ghost var g := EdgeGraph(edges);
    var stack := [START];
    reachable := {};
    ReachesSelf(g, START);
    while stack != []
      invariant Searching(g, stack, reachable)
      invariant reachable <= NodeNames(edges) && forall n :: n in stack ==> n in NodeNames(edges)
      decreases NodeNames(edges) - reachable, |stack|
    {
      var node := stack[|stack| - 1];
      ghost var popped := stack;
      assert node in stack;
      stack := stack[..|stack| - 1];
      assert popped == stack + [node];
      if node !in reachable {
        reachable := reachable + {node};
        var more := Successors(edges, node) - reachable;
        forall n | n in Successors(edges, node) ensures n in NodeNames(edges) && Reaches(g, START, n) {
          var e :| e in edges && e.source == node && e.target == n;
          ReachesStep(g, START, node, n);
        }
        stack := PushAll(stack, more);
        forall b | (node, b) in g ensures b in Successors(edges, node) {}
      }
    }
    ReachableIsClosed(g, reachable);
  }

  method PushAll(stack: seq<string>, more: set<string>) returns (r: seq<string>)
    ensures forall n :: n in r <==> n in stack || n in more
  {
    r := stack;
    var rest := more;
    while rest != {}
      invariant rest <= more
      invariant forall n :: n in r <==> n in stack || n in more - rest
    {
      var x :| x in rest;
      r, rest := r + [x], rest - {x};
    }
  }

  lemma ReachableIsClosed(g: Graph, reachable: set<string>)
    requires Searching(g, [], reachable)
    ensures forall n :: n in reachable <==> Reaches(g, START, n)
  {
    forall n | Reaches(g, START, n) ensures n in reachable {
      var p :| IsWalk(g, p) && p[0] == START && p[|p| - 1] == n;
      ClosedSetKeepsWalks(g, reachable, p);
    }
  }

  // ---- duplicate edges ----

  method HasDuplicateEdges(edges: seq<Edge>) returns (clash: bool)
    ensures clash <==> !NoClash(edges)
  {
    var seen: Seen := map[];
    for i := 0 to |edges|
      invariant SeenIs(edges, i, seen)
      invariant forall j, l :: 0 <= j < l < i ==> !Clash(edges[j], edges[l])
    {
      var key := Ends(edges[i]);
      var routes := Routes(edges[i].route);
      SeenClash(edges, i, seen);
      SeenGrows(edges, i, seen);
      if key in seen {
        var existing := seen[key];
        if None in existing || None in routes || existing * routes != {} {
          return true;
        }
        seen := seen[key := existing + routes];
      } else {
        seen := seen[key := routes];
      }
    }
    clash := false;
  }

  type Seen = map<(string, string), set<Option<string>>>

  function Ends(e: Edge): (string, string) {
    (e.source, e.target)
  }

  ghost predicate SeenAt(edges: seq<Edge>, i: nat, k: (string, string), x: Option<string>)
    requires i <= |edges|
  {
    exists j :: 0 <= j < i && Ends(edges[j]) == k && x in Routes(edges[j].route)
  }

  ghost predicate SeenKey(edges: seq<Edge>, i: nat, k: (string, string))
    requires i <= |edges|
  {
    exists j :: 0 <= j < i && Ends(edges[j]) == k
  }

  /** seen maps the ends of the first i edges to the union of their routes. */
  ghost predicate SeenIs(edges: seq<Edge>, i: nat, seen: Seen)
    requires i <= |edges|
  {
    && (forall k :: k in seen <==> SeenKey(edges, i, k))
    && (forall k, x :: k in seen ==> (x in seen[k] <==> SeenAt(edges, i, k, x)))
  }

  lemma SeenClash(edges: seq<Edge>, i: nat, seen: Seen)
    requires i < |edges| && SeenIs(edges, i, seen)
    ensures var key, routes := Ends(edges[i]), Routes(edges[i].route);
            key in seen && (None in seen[key] || None in routes || seen[key] * routes != {})
            <==> exists j :: 0 <= j < i && Clash(edges[j], edges[i])
  {
    var key, routes := Ends(edges[i]), Routes(edges[i].route);
    if j :| 0 <= j < i && Clash(edges[j], edges[i]) {
      assert Ends(edges[j]) == key;
      assert forall x :: x in Routes(edges[j].route) ==> SeenAt(edges, i, key, x);
      if edges[j].route.Always? {
        assert None in Routes(edges[j].route);
      } else if !edges[i].route.Always? {
        var x :| x in Routes(edges[j].route) * routes;
        assert x in seen[key] * routes;
      }
    }
    if key in seen && (None in seen[key] || None in routes || seen[key] * routes != {}) {
      SeenClashes(edges, i, seen);
    }
  }

  lemma SeenClashes(edges: seq<Edge>, i: nat, seen: Seen)
    requires i < |edges| && SeenIs(edges, i, seen) && Ends(edges[i]) in seen
    requires var key, routes := Ends(edges[i]), Routes(edges[i].route);
             None in seen[key] || None in routes || seen[key] * routes != {}
    ensures exists j :: 0 <= j < i && Clash(edges[j], edges[i])
  {
    var key, routes := Ends(edges[i]), Routes(edges[i].route);
    if None in seen[key] {
      assert SeenAt(edges, i, key, None);
      var j :| 0 <= j < i && Ends(edges[j]) == key && None in Routes(edges[j].route);
      assert Clash(edges[j], edges[i]);
    } else if None in routes {
      var j :| 0 <= j < i && Ends(edges[j]) == key;
      assert Clash(edges[j], edges[i]);
    } else {
      var x :| x in seen[key] * routes;
      assert SeenAt(edges, i, key, x);
      var j :| 0 <= j < i && Ends(edges[j]) == key && x in Routes(edges[j].route);
      assert x in Routes(edges[j].route) * routes;
      assert Clash(edges[j], edges[i]);
    }
  }

  lemma SeenGrows(edges: seq<Edge>, i: nat, seen: Seen)
    requires i < |edges| && SeenIs(edges, i, seen)
    ensures var key, routes := Ends(edges[i]), Routes(edges[i].route);
            SeenIs(edges, i + 1, seen[key := if key in seen then seen[key] + routes else routes])
  {
    var key, routes := Ends(edges[i]), Routes(edges[i].route);
    var seen1 := seen[key := if key in seen then seen[key] + routes else routes];
    forall k, x ensures SeenAt(edges, i + 1, k, x) <==> SeenAt(edges, i, k, x) || (k == key && x in routes) {
      assert k == key && x in routes ==> Ends(edges[i]) == k;
    }
    forall k ensures SeenKey(edges, i + 1, k) <==> SeenKey(edges, i, k) || k == key {
      assert Ends(edges[i]) == key;
    }
    forall x | key !in seen ensures !SeenAt(edges, i, key, x) {
    }
  }

  // ---- cycles ----

  type Adjacency = map<string, seq<string>>

  /** adj lists, for every node, whom its unconditional edges lead to. */
  ghost predicate Lists(adj: Adjacency, g: Graph) {
    && (forall a, b {:trigger (a, b) in g} :: (a, b) in g ==> a in adj && b in adj[a])
    && (forall a, i {:trigger adj[a][i]} :: a in adj && 0 <= i < |adj[a]| ==> (a, adj[a][i]) in g && adj[a][i] in adj)
  }

  method BuildAdjacency(edges: seq<Edge>) returns (adj: Adjacency)
    ensures adj.Keys == NodeNames(edges) && Lists(adj, UnconditionalGraph(edges))
  {
    adj := map n | n in NodeNames(edges) :: [];
    for i := 0 to |edges|
      invariant adj.Keys == NodeNames(edges) && Lists(adj, UnconditionalGraph(edges[..i]))
    {
      assert edges[i] in edges;
      assert edges[..i + 1] == edges[..i] + [edges[i]];
      var e := edges[i];
      if e.route.Always? {
        OneMoreEdge(edges, i);
        AppendNeighbor(adj, UnconditionalGraph(edges[..i]), e.source, e.target);
        adj := adj[e.source := adj[e.source] + [e.target]];
      } else {
        OneMoreEdge(edges, i);
      }
    }
    assert edges[..|edges|] == edges;
  }

  lemma OneMoreEdge(edges: seq<Edge>, i: nat)
    requires i < |edges|
    ensures UnconditionalGraph(edges[..i + 1])
            == UnconditionalGraph(edges[..i])
               + if edges[i].route.Always? then {(edges[i].source, edges[i].target)} else {}
  {
    assert edges[..i + 1] == edges[..i] + [edges[i]];
  }

  lemma AppendNeighbor(adj: Adjacency, g: Graph, a: string, b: string)
    requires Lists(adj, g) && a in adj && b in adj
    ensures Lists(adj[a := adj[a] + [b]], g + {(a, b)})
  {
  }

  /** Finished nodes point to earlier finished nodes only. */
  ghost predicate FinishedOk(adj: Adjacency, done: set<string>, rank: map<string, nat>) {
    && rank.Keys == done <= adj.Keys
    && (forall n :: n in done ==> rank[n] < |done|)
    && (forall a, i {:trigger adj[a][i]} :: a in done && 0 <= i < |adj[a]| ==>
        adj[a][i] in done && rank[adj[a][i]] < rank[a])
  }

  /** The search path is a walk through exactly the nodes on the stack. */
  ghost predicate PathOk(g: Graph, path: seq<string>, inStack: set<string>) {
    && (forall n :: n in path <==> n in inStack)
    && (path != [] ==> IsWalk(g, path))
  }

  class CycleFinder {
    const adj: Adjacency
    ghost const g: Graph
    var inStack: set<string>
    var done: set<string>
    var path: seq<string>
    ghost var rank: map<string, nat>

    ghost predicate Searching()
      reads this
    {
      && Lists(adj, g)
      && PathOk(g, path, inStack)
      && inStack !! done
      && inStack <= adj.Keys
      && FinishedOk(adj, done, rank)
    }

    constructor (adj: Adjacency, ghost g: Graph)
      requires Lists(adj, g)
      ensures this.adj == adj && this.g == g
      ensures inStack == done == {} && path == [] && Searching()
    {
      this.adj, this.g := adj, g;
      inStack, done, path, rank := {}, {}, [], map[];
    }

    /** Raises iff the unconditional edges contain a cycle, whatever order the nodes are visited in. */
    method DetectUnconditionalCycles() returns (cycle: bool)
      requires Searching() && inStack == {} && path == []
      modifies this
      ensures cycle <==> !Acyclic(g)
    {
      var rest := adj.Keys;
      while rest != {}
        invariant Searching() && inStack == {} && path == []
        invariant rest <= adj.Keys <= rest + done
        decreases rest
      {
        var name :| name in rest;
        if name !in done {
          cycle := Dfs(name);
          if cycle {
            return;
          }
        }
        rest := rest - {name};
      }
      AllFinished(adj, g, done, rank);
      cycle := false;
    }

    method Dfs(node: string) returns (cycle: bool)
      requires Searching() && node in adj && node !in inStack && node !in done
      requires path != [] ==> (path[|path| - 1], node) in g
      modifies this
      ensures cycle ==> !Acyclic(g)
      ensures !cycle ==> Searching() && inStack == old(inStack) && path == old(path)
      ensures !cycle ==> old(done) + {node} <= done
      decreases adj.Keys - inStack - done, 0
    {
      Push(node);
      cycle := VisitNeighbors(node);
      if !cycle {
        Finish(node);
      }
    }

    method Push(node: string)
      requires Searching() && node in adj && node !in inStack && node !in done
      requires path != [] ==> (path[|path| - 1], node) in g
      modifies this`inStack, this`path
      ensures Searching() && inStack == old(inStack) + {node} && path == old(path) + [node]
      ensures adj.Keys - inStack - done < adj.Keys - old(inStack) - done
    {
      assert node in adj.Keys - inStack - done;
      inStack := inStack + {node};
      path := path + [node];
    }

    method VisitNeighbors(node: string) returns (cycle: bool)
      requires Searching() && node in adj && path != [] && path[|path| - 1] == node
      modifies this
      ensures cycle ==> !Acyclic(g)
      ensures !cycle ==> Searching() && inStack == old(inStack) && path == old(path) && old(done) <= done
      ensures !cycle ==> forall i :: 0 <= i < |adj[node]| ==> adj[node][i] in done
      decreases adj.Keys - inStack - done, 2
    {
      for i := 0 to |adj[node]|
        invariant Searching() && inStack == old(inStack) && path == old(path) && old(done) <= done
        invariant forall j :: 0 <= j < i ==> adj[node][j] in done
      {
        cycle := VisitNeighbor(adj[node][i]);
        if cycle {
          return;
        }
      }
      cycle := false;
    }

    method VisitNeighbor(neighbor: string) returns (cycle: bool)
      requires Searching() && neighbor in adj && path != [] && (path[|path| - 1], neighbor) in g
      modifies this
      ensures cycle ==> !Acyclic(g)
      ensures !cycle ==> Searching() && inStack == old(inStack) && path == old(path) && old(done) <= done
      ensures !cycle ==> neighbor in done
      decreases adj.Keys - inStack - done, 1
    {
      if neighbor in inStack {
        PathCloses(g, path, neighbor);
        return true;
      }
      cycle := false;
      if neighbor !in done {
        cycle := Dfs(neighbor);
      }
    }

    /** Everything the node points to is finished, so it leaves the path and is finished after them. */
    method Finish(node: string)
      requires Searching() && node in adj && node in inStack && path != [] && path[|path| - 1] == node
               && node !in path[..|path| - 1]
      requires forall i :: 0 <= i < |adj[node]| ==> adj[node][i] in done
      modifies this
      ensures Searching() && inStack == old(inStack) - {node} && path == old(path)[..|old(path)| - 1]
      ensures done == old(done) + {node}
    {
      StepBack(g, path, inStack, node);
      FinishNext(adj, done, rank, node);
      path := path[..|path| - 1];
      inStack := inStack - {node};
      rank := rank[node := |done|];
      done := done + {node};
    }
  }

  lemma StepBack(g: Graph, path: seq<string>, inStack: set<string>, node: string)
    requires PathOk(g, path, inStack) && path != [] && path[|path| - 1] == node && node !in path[..|path| - 1]
    ensures PathOk(g, path[..|path| - 1], inStack - {node})
  {
    var front := path[..|path| - 1];
    forall x ensures x in front <==> x in inStack - {node} {
      assert x in path <==> x in inStack;
      assert path == front + [node];
    }
    forall i | 0 <= i < |front| - 1 ensures (front[i], front[i + 1]) in g {
      assert (path[i], path[i + 1]) in g;
    }
  }

  lemma FinishNext(adj: Adjacency, done: set<string>, rank: map<string, nat>, node: string)
    requires FinishedOk(adj, done, rank) && node in adj && node !in done
    requires forall i :: 0 <= i < |adj[node]| ==> adj[node][i] in done
    ensures FinishedOk(adj, done + {node}, rank[node := |done|])
  {
  }

  lemma AllFinished(adj: Adjacency, g: Graph, done: set<string>, rank: map<string, nat>)
    requires Lists(adj, g) && FinishedOk(adj, done, rank) && adj.Keys <= done
    ensures Acyclic(g)
  {
    forall a, b | (a, b) in g ensures a in rank && b in rank && rank[b] < rank[a] {
      var i :| 0 <= i < |adj[a]| && adj[a][i] == b;
    }
    RankedIsAcyclic(g, rank);
  }

  lemma PathCloses(g: Graph, path: seq<string>, neighbor: string)
    requires path != [] && IsWalk(g, path) && neighbor in path && (path[|path| - 1], neighbor) in g
    ensures !Acyclic(g)
  {
    var k :| 0 <= k < |path| && path[k] == neighbor;
    var c := path[k..] + [neighbor];
    forall i | 0 <= i < |c| - 1 ensures (c[i], c[i + 1]) in g {
      if i < |c| - 2 {
        assert (path[k + i], path[k + i + 1]) in g;
      }
    }
    assert IsCycle(g, c);
  }
}
