/** Plan graphs and their structural validation, shared by both orchestrator generations. */
module Plan {
  import opened Common
  import opened Digraph

  /** One subtask.  deps and output references name other nodes by id. */
  datatype PlanNode = PlanNode(id: string, agent: string, instruction: string, deps: seq<string>,
                               assistFor: Option<string>)

  datatype Verdict =
    | Accepted
    | TooManyNodes
    | DuplicateId
    | UnknownDep(dep: string)
    | SelfDep(id: string)
    | CycleFound

  function IdSet(plan: seq<PlanNode>): set<string> {
    set n | n in plan :: n.id
  }

  ghost predicate UniqueIds(plan: seq<PlanNode>) {
    forall i, j :: 0 <= i < j < |plan| ==> plan[i].id != plan[j].id
  }

  /** The dependency at position (i, j) names another node of the plan. */
  ghost predicate GoodDep(plan: seq<PlanNode>, i: nat, j: nat)
    requires i < |plan| && j < |plan[i].deps|
  {
    plan[i].deps[j] in IdSet(plan) && plan[i].deps[j] != plan[i].id
  }

  ghost predicate GoodDepsBefore(plan: seq<PlanNode>, i: nat, j: nat)
    requires i <= |plan|
  {
    forall i', j' :: 0 <= i' < |plan| && 0 <= j' < |plan[i'].deps| && (i' < i || (i' == i && j' < j))
      ==> GoodDep(plan, i', j')
  }

  ghost function Edges(plan: seq<PlanNode>): Graph {
    set n, d | n in plan && d in n.deps :: (n.id, d)
  }

  ghost predicate DepsInPlan(plan: seq<PlanNode>) {
    forall a, b :: (a, b) in Edges(plan) ==> b in IdSet(plan)
  }

  /** What a plan has to be, said without the algorithm that checks it. */
  ghost predicate WellFormed(plan: seq<PlanNode>, maxNodes: int) {
    && |plan| <= maxNodes
    && UniqueIds(plan)
    && DepsInPlan(plan)
    && Acyclic(Edges(plan))
  }

  /** The members of nodes that a points to. */
  ghost function Targets(g: Graph, nodes: set<string>, a: string): set<string> {
    set b | b in nodes && (a, b) in g
  }

  lemma {:induction false} IdCount(plan: seq<PlanNode>)
    requires UniqueIds(plan)
    ensures |IdSet(plan)| == |plan|
  {
    if plan != [] {
      var front, last := plan[..|plan| - 1], plan[|plan| - 1];
      assert plan == front + [last];
      LastIdIsNew(front, last);
      IdCount(front);
    }
  }

  lemma LastIdIsNew(front: seq<PlanNode>, last: PlanNode)
    ensures IdSet(front + [last]) == IdSet(front) + {last.id}
    ensures UniqueIds(front + [last]) ==> UniqueIds(front) && last.id !in IdSet(front)
  {
    var plan := front + [last];
    assert forall n :: n in plan <==> n in front || n == last;
    if UniqueIds(plan) {
      forall i, j | 0 <= i < j < |front| ensures front[i].id != front[j].id {
        assert plan[i].id != plan[j].id;
      }
      forall n | n in front ensures n.id != last.id {
        var i :| 0 <= i < |front| && front[i] == n;
        assert plan[i].id != plan[|front|].id;
      }
    }
  }

  lemma GoodDepsAreInPlan(plan: seq<PlanNode>)
    requires GoodDepsBefore(plan, |plan|, 0)
    ensures DepsInPlan(plan)
  {
    forall a, b | (a, b) in Edges(plan) ensures b in IdSet(plan) {
      var n, d :| n in plan && d in n.deps && (n.id, d) == (a, b);
      var i :| 0 <= i < |plan| && plan[i] == n;
      var j :| 0 <= j < |n.deps| && n.deps[j] == d;
      assert GoodDep(plan, i, j);
    }
  }

  /** A bad dependency refutes well-formedness: it is unknown, or it is a cycle of length one. */
  lemma BadDepIsMalformed(plan: seq<PlanNode>, i: nat, j: nat)
    requires i < |plan| && j < |plan[i].deps| && !GoodDep(plan, i, j)
    ensures !DepsInPlan(plan) || !Acyclic(Edges(plan))
  {
    var n, d := plan[i], plan[i].deps[j];
    assert (n.id, d) in Edges(plan);
    if d in IdSet(plan) {
      assert IsCycle(Edges(plan), [d, d]);
    }
  }

  /** src/new_choirworks/orchestrator/plan.py validate_plan, and the legacy planner's copy of it. */
  method ValidatePlan(plan: seq<PlanNode>, maxNodes: int) returns (verdict: Verdict)
    ensures verdict == Accepted <==> WellFormed(plan, maxNodes)
    ensures verdict == Accepted ==> exists rank :: Ranks(Edges(plan), rank)
    ensures verdict == TooManyNodes <==> |plan| > maxNodes
    ensures verdict == DuplicateId <==> |plan| <= maxNodes && !UniqueIds(plan)
    ensures verdict.UnknownDep? || verdict.SelfDep? ==>
              exists i: nat, j: nat :: i < |plan| && j < |plan[i].deps| && GoodDepsBefore(plan, i, j)
                && !GoodDep(plan, i, j)
                && verdict == if plan[i].deps[j] !in IdSet(plan) then UnknownDep(plan[i].deps[j])
                              else SelfDep(plan[i].id)
    ensures verdict == CycleFound <==>
              |plan| <= maxNodes && UniqueIds(plan) && GoodDepsBefore(plan, |plan|, 0) && !Acyclic(Edges(plan))
  {
    if |plan| > maxNodes {
      return TooManyNodes;
    }
    var ids := IdSet(plan);
    var seen: set<string> := {};
    for i := 0 to |plan|
      invariant seen == set k | 0 <= k < i :: plan[k].id
      invariant forall k, l :: 0 <= k < l < i ==> plan[k].id != plan[l].id
    {
      if plan[i].id in seen {
        return DuplicateId;
      }
      seen := seen + {plan[i].id};
    }
    for i := 0 to |plan|
      invariant GoodDepsBefore(plan, i, 0)
    {
      for j := 0 to |plan[i].deps|
        invariant GoodDepsBefore(plan, i, j)
      {
        var dep := plan[i].deps[j];
        if dep !in ids {
          BadDepIsMalformed(plan, i, j);
          return UnknownDep(dep);
        }
        if dep == plan[i].id {
          BadDepIsMalformed(plan, i, j);
          return SelfDep(dep);
        }
      }
    }
    GoodDepsAreInPlan(plan);
    var visited := KahnCount(plan);
    verdict := if visited != |plan| then CycleFound else Accepted;
  }

  method CountDeps(plan: seq<PlanNode>) returns (indegree: map<string, int>)
    requires UniqueIds(plan) && DepsInPlan(plan)
    ensures indegree.Keys == IdSet(plan)
    ensures forall k {:trigger indegree[k]} :: k in indegree ==> indegree[k] == |Targets(Edges(plan), IdSet(plan), k)|
  {
    indegree := map[];
    for i := 0 to |plan|
      invariant indegree.Keys == IdSet(plan[..i])
      invariant forall k :: k in indegree ==> indegree[k] == |Targets(Edges(plan), IdSet(plan), k)|
    {
      var distinct := set d | d in plan[i].deps;
      assert distinct == Targets(Edges(plan), IdSet(plan), plan[i].id) by {
        forall d | d in Targets(Edges(plan), IdSet(plan), plan[i].id) ensures d in distinct {
          var n, d' :| n in plan && d' in n.deps && (n.id, d') == (plan[i].id, d);
          var j :| 0 <= j < |plan| && plan[j] == n;
        }
        forall d | d in distinct ensures d in Targets(Edges(plan), IdSet(plan), plan[i].id) {
          assert (plan[i].id, d) in Edges(plan);
        }
      }
      assert plan[..i + 1] == plan[..i] + [plan[i]];
      assert IdSet(plan[..i + 1]) == IdSet(plan[..i]) + {plan[i].id};
      indegree := indegree[plan[i].id := |distinct|];
    }
    assert plan[..|plan|] == plan;
  }

  /** children[k] lists, once each, the nodes that depend on k. */
  ghost predicate ListsChildren(g: Graph, children: map<string, seq<string>>) {
    && (forall k :: k in children ==> Distinct(children[k]))
    && (forall k, c :: k in children ==> (c in children[k] <==> (c, k) in g))
  }

  lemma AddChild(g: Graph, children: map<string, seq<string>>, id: string, dep: string)
    requires ListsChildren(g, children) && dep in children && (id, dep) !in g
    ensures ListsChildren(g + {(id, dep)}, children[dep := children[dep] + [id]])
  {
    assert id !in children[dep];
  }

  ghost function NodeEdges(n: PlanNode, deps: set<string>): Graph {
    set d | d in deps :: (n.id, d)
  }

  lemma EdgesByPrefix(plan: seq<PlanNode>, i: nat)
    requires i < |plan| && UniqueIds(plan)
    ensures Edges(plan[..i + 1]) == Edges(plan[..i]) + NodeEdges(plan[i], set d | d in plan[i].deps)
    ensures forall d :: (plan[i].id, d) !in Edges(plan[..i])
    ensures forall d :: d in plan[i].deps ==> (plan[i].id, d) in Edges(plan)
  {
    assert plan[..i + 1] == plan[..i] + [plan[i]];
    assert forall n :: n in plan[..i] ==> n.id != plan[i].id;
  }

  method CollectChildren(plan: seq<PlanNode>) returns (children: map<string, seq<string>>)
    requires UniqueIds(plan) && DepsInPlan(plan)
    ensures children.Keys == IdSet(plan) && ListsChildren(Edges(plan), children)
  {
    children := map n | n in IdSet(plan) :: [];
    for i := 0 to |plan|
      invariant children.Keys == IdSet(plan) && ListsChildren(Edges(plan[..i]), children)
    {
      children := AddNodeToChildren(plan, i, children);
    }
    assert plan[..|plan|] == plan;
  }

  method AddNodeToChildren(plan: seq<PlanNode>, i: nat, children0: map<string, seq<string>>)
    returns (children: map<string, seq<string>>)
    requires i < |plan| && UniqueIds(plan) && DepsInPlan(plan)
    requires children0.Keys == IdSet(plan) && ListsChildren(Edges(plan[..i]), children0)
    ensures children.Keys == IdSet(plan) && ListsChildren(Edges(plan[..i + 1]), children)
  {
    EdgesByPrefix(plan, i);
    ghost var g := Edges(plan[..i]);
    var node := plan[i];
    var all := set d | d in node.deps;
    var rest := all;
    children := children0;
    while rest != {}
      invariant rest <= all
      invariant children.Keys == IdSet(plan) && ListsChildren(g + NodeEdges(node, all - rest), children)
    {
      var dep :| dep in rest;
      assert (node.id, dep) in Edges(plan);
      AddChild(g + NodeEdges(node, all - rest), children, node.id, dep);
      children := children[dep := children[dep] + [node.id]];
      assert g + NodeEdges(node, all - rest) + {(node.id, dep)} == g + NodeEdges(node, all - (rest - {dep}));
      rest := rest - {dep};
    }
    assert all - rest == all;
  }

  /** open[n] is the set of n's unfinished dependencies and indegree[n] its size. */
  ghost predicate Counts(nodes: set<string>, open: map<string, set<string>>, indegree: map<string, int>) {
    && open.Keys == indegree.Keys == nodes
    && forall n {:trigger indegree[n]} {:trigger open[n]} :: n in nodes ==> indegree[n] == |open[n]|
  }

  ghost predicate OpenIs(g: Graph, nodes: set<string>, done: set<string>, open: map<string, set<string>>)
    requires open.Keys == nodes
  {
    forall n, d {:trigger d in open[n]} {:trigger (n, d) in g} :: n in nodes ==>
        (d in open[n] <==> (n, d) in g && d !in done)
  }

  /** The queue holds exactly the unfinished nodes without unfinished dependencies. */
  ghost predicate QueueIs(queue: seq<string>, unfinished: set<string>, indegree: map<string, int>)
    requires unfinished <= indegree.Keys
  {
    && Distinct(queue)
    && (forall n {:trigger n in queue} :: n in queue ==> n in unfinished && indegree[n] == 0)
    && (forall n {:trigger indegree[n]} :: n in unfinished && indegree[n] == 0 ==> n in queue)
  }

  /** Finished nodes are numbered in the order they finished, after all their dependencies. */
  ghost predicate Numbered(g: Graph, done: set<string>, rank: map<string, nat>) {
    && rank.Keys == done
    && (forall n :: n in done ==> rank[n] < |done|)
    && (forall n, d :: n in done && (n, d) in g ==> d in done && rank[d] < rank[n])
  }

  ghost predicate Sweep(g: Graph, nodes: set<string>, done: set<string>, rank: map<string, nat>,
                        open: map<string, set<string>>, indegree: map<string, int>, queue: seq<string>)
  {
    && done <= nodes
    && Numbered(g, done, rank)
    && Counts(nodes, open, indegree)
    && OpenIs(g, nodes, done, open)
    && QueueIs(queue, nodes - done, indegree)
  }

  lemma FinishedSweep(g: Graph, nodes: set<string>, done: set<string>, rank: map<string, nat>,
                      open: map<string, set<string>>, indegree: map<string, int>)
    requires Sweep(g, nodes, done, rank, open, indegree, [])
    requires forall a, b :: (a, b) in g ==> a in nodes && b in nodes
    ensures done == nodes ==> Ranks(g, rank)
    ensures done == nodes <==> Acyclic(g)
  {
    if done == nodes {
      RankedIsAcyclic(g, rank);
    } else {
      var left := nodes - done;
      forall n {:trigger PointsInto(g, n, left)} | n in left ensures PointsInto(g, n, left) {
        assert indegree[n] != 0;
        var d :| d in open[n];
        assert d in left && (n, d) in g;
      }
      assert left != {} by {
        var x :| x in nodes && x !in done;
        assert x in left;
      }
      var c := NoExitHasCycle(g, left);
    }
  }

  method InitialQueue(plan: seq<PlanNode>, indegree: map<string, int>) returns (queue: seq<string>)
    requires UniqueIds(plan) && indegree.Keys == IdSet(plan)
    ensures QueueIs(queue, IdSet(plan), indegree)
  {
    queue := [];
    for i := 0 to |plan|
      invariant Distinct(queue)
      invariant forall n :: n in queue <==> exists k :: 0 <= k < i && plan[k].id == n && indegree[n] == 0
    {
      assert plan[i].id in IdSet(plan);
      if indegree[plan[i].id] == 0 {
        queue := queue + [plan[i].id];
      }
    }
  }

  method KahnCount(plan: seq<PlanNode>) returns (visited: nat)
    requires UniqueIds(plan) && DepsInPlan(plan)
    ensures visited == |plan| <==> Acyclic(Edges(plan))
    ensures visited == |plan| ==> exists rank :: Ranks(Edges(plan), rank)
  {
    var indegree := CountDeps(plan);
    var children := CollectChildren(plan);
    var queue := InitialQueue(plan, indegree);
    ghost var open := map n | n in IdSet(plan) :: Targets(Edges(plan), IdSet(plan), n);
    ghost var rank;
    visited, rank := SweepQueue(Edges(plan), IdSet(plan), open, indegree, queue, children);
    IdCount(plan);
  }

  method SweepQueue(ghost g: Graph, ghost nodes: set<string>, ghost open0: map<string, set<string>>,
                    indegree0: map<string, int>, queue0: seq<string>, children: map<string, seq<string>>)
    returns (visited: nat, ghost rank: map<string, nat>)
    requires Sweep(g, nodes, {}, map[], open0, indegree0, queue0)
    requires children.Keys == nodes && ListsChildren(g, children)
    requires forall a, b :: (a, b) in g ==> a in nodes && b in nodes
    ensures visited == |nodes| <==> Acyclic(g)
    ensures visited == |nodes| ==> Ranks(g, rank)
  {
    var indegree, queue := indegree0, queue0;
    visited := 0;
    ghost var done: set<string>, open := {}, open0;
    rank := map[];
    while queue != []
      invariant Sweep(g, nodes, done, rank, open, indegree, queue)
      invariant visited == |done|
      decreases nodes - done
    {
      var current;
      current, indegree, queue, open := FinishNode(g, nodes, done, rank, open, indegree, queue, children);
      visited := visited + 1;
      rank := rank[current := |done|];
      done := done + {current};
    }
    if done != nodes { SubsetIsSmaller(done, nodes); }
    FinishedSweep(g, nodes, done, rank, open, indegree);
  }

  lemma SubsetIsSmaller(a: set<string>, b: set<string>)
    requires a < b
    ensures |a| < |b|
  {
    var x :| x in b && x !in a;
    assert a <= b - {x};
    SubsetIsNotLarger(a, b - {x});
  }

  lemma {:induction false} SubsetIsNotLarger(a: set<string>, b: set<string>)
    requires a <= b
    ensures |a| <= |b|
  {
    if a != {} {
      var x :| x in a;
      SubsetIsNotLarger(a - {x}, b - {x});
    }
  }

  lemma LastInQueue(unfinished: set<string>, indegree: map<string, int>, rest: seq<string>, current: string)
    requires unfinished <= indegree.Keys && QueueIs(rest + [current], unfinished, indegree)
    ensures current in unfinished && indegree[current] == 0
    ensures QueueIs(rest, unfinished - {current}, indegree)
  {
    var queue := rest + [current];
    assert queue[|rest|] == current && current in queue;
    forall i, j | 0 <= i < j < |rest| ensures rest[i] != rest[j] {
      assert queue[i] != queue[j];
    }
    forall n {:trigger n in rest} | n in rest ensures n in unfinished - {current} && indegree[n] == 0 {
      var i :| 0 <= i < |rest| && rest[i] == n;
      assert n in queue && queue[i] != queue[|rest|];
    }
  }

  /** One turn of the queue. */
  method FinishNode(ghost g: Graph, ghost nodes: set<string>, ghost done: set<string>, ghost rank: map<string, nat>,
                    ghost open0: map<string, set<string>>, indegree0: map<string, int>, queue0: seq<string>,
                    children: map<string, seq<string>>)
    returns (current: string, indegree: map<string, int>, queue: seq<string>, ghost open: map<string, set<string>>)
    requires queue0 != [] && Sweep(g, nodes, done, rank, open0, indegree0, queue0)
    requires children.Keys == nodes && ListsChildren(g, children)
    requires forall a, b :: (a, b) in g ==> a in nodes && b in nodes
    ensures current in nodes - done
    ensures Sweep(g, nodes, done + {current}, rank[current := |done|], open, indegree, queue)
  {
    current := queue0[|queue0| - 1];
    var rest := queue0[..|queue0| - 1];
    assert queue0 == rest + [current];
    LastInQueue(nodes - done, indegree0, rest, current);
    NumberNext(g, nodes, done, rank, open0, current);
    var cs := children[current];
    ChildrenOf(g, children, current);
    ghost var unfinished := nodes - (done + {current});
    assert nodes - done - {current} == unfinished;
    ChildrenWait(g, nodes, done, open0, current, cs);
    indegree, queue, open := ReleaseChildren(nodes, unfinished, current, cs, indegree0, rest, open0);
    Released(g, nodes, done, current, cs, open0, open);
  }

  lemma ChildrenOf(g: Graph, children: map<string, seq<string>>, k: string)
    requires ListsChildren(g, children) && k in children
    ensures Distinct(children[k]) && forall n :: n in children[k] <==> (n, k) in g
  {
  }

  lemma ChildrenWait(g: Graph, nodes: set<string>, done: set<string>, open: map<string, set<string>>, current: string,
                     cs: seq<string>)
    requires current !in done && open.Keys == nodes && OpenIs(g, nodes, done, open)
    requires forall n :: n in cs ==> (n, current) in g && n in nodes - (done + {current})
    ensures forall n :: n in cs ==> n in nodes && current in open[n]
  {
  }

  /** A node without open dependencies can be numbered next; what depends on it is unfinished. */
  lemma NumberNext(g: Graph, nodes: set<string>, done: set<string>, rank: map<string, nat>,
                   open: map<string, set<string>>, current: string)
    requires done <= nodes && current in nodes - done && open.Keys == nodes
    requires Numbered(g, done, rank) && OpenIs(g, nodes, done, open) && open[current] == {}
    ensures Numbered(g, done + {current}, rank[current := |done|])
    ensures forall n :: (n, current) in g ==> n !in done + {current}
  {
    forall n, d | n in done + {current} && (n, d) in g
      ensures d in done && rank[current := |done|][d] < rank[current := |done|][n]
    {
      assert n == current ==> (d in open[current] || d in done);
    }
  }

  lemma Released(g: Graph, nodes: set<string>, done: set<string>, current: string, cs: seq<string>,
                 open0: map<string, set<string>>, open: map<string, set<string>>)
    requires open0.Keys == open.Keys == nodes && OpenIs(g, nodes, done, open0)
    requires forall n :: n in cs <==> (n, current) in g
    requires forall n :: n in nodes ==> open[n] == if n in cs then open0[n] - {current} else open0[n]
    ensures OpenIs(g, nodes, done + {current}, open)
  {
    forall n, d | n in nodes ensures d in open[n] <==> (n, d) in g && d !in done + {current} {
      assert d in open0[n] <==> (n, d) in g && d !in done;
    }
  }

  /** current is finished: each of its children has one open dependency less. */
  method ReleaseChildren(ghost nodes: set<string>, ghost unfinished: set<string>, ghost current: string,
                         cs: seq<string>,
                         indegree0: map<string, int>, rest: seq<string>, ghost open0: map<string, set<string>>)
    returns (indegree: map<string, int>, queue: seq<string>, ghost open: map<string, set<string>>)
    requires unfinished <= nodes && Counts(nodes, open0, indegree0) && QueueIs(rest, unfinished, indegree0)
    requires Distinct(cs) && forall n :: n in cs ==> n in unfinished && current in open0[n]
    ensures Counts(nodes, open, indegree) && QueueIs(queue, unfinished, indegree)
    ensures forall n :: n in nodes ==> open[n] == if n in cs then open0[n] - {current} else open0[n]
  {
    indegree, queue, open := indegree0, rest, open0;
    for j := 0 to |cs|
      invariant Counts(nodes, open, indegree) && QueueIs(queue, unfinished, indegree)
      invariant forall n :: n in nodes ==> open[n] == if n in cs[..j] then open0[n] - {current} else open0[n]
    {
      var child := cs[j];
      assert child in cs && child !in cs[..j];
      assert current in open[child];
      assert child !in queue;
      indegree := indegree[child := indegree[child] - 1];
      open := open[child := open[child] - {current}];
      if indegree[child] == 0 {
        queue := queue + [child];
      }
      assert cs[..j + 1] == cs[..j] + [child];
    }
    assert cs[..|cs|] == cs;
  }
}
