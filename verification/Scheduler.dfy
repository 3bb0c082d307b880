/** The legacy scheduler loop run to its end: replanning off, no inbound messages, no derived nodes,
    and every node run ending completed or failed at a moment of its own choosing. */
module Scheduler {
  import opened Common
  import opened Digraph
  import opened Plan
  import opened Legacy
  import opened Interventions
  import opened LegacyRuns

  // ---- plan_flow ----

  datatype Flow = Continue | ExitWait | ExitDone | ExitFailed | ExitStalled

  predicate CanRetry(n: Node, maxAttempts: int) {
    n.status == NodeStatus.Failed && n.attempt < maxAttempts
  }

  predicate IsReady(nodes: Nodes, id: string) {
    DepsCompleted(nodes, id) && nodes[id].status in PENDING
  }

  predicate AllCompleted(nodes: Nodes) {
    && (exists n :: n in nodes && nodes[n].status != Invalidated)
    && (forall n :: n in nodes && nodes[n].status != Invalidated ==> nodes[n].status in {Completed, Canceled})
  }

  predicate HasPendingWork(nodes: Nodes) {
    exists n :: n in nodes && nodes[n].status in PENDING + ACTIVE + {InputRequired}
  }

  /** The verdict when no task is waited for; replan_on_failure is off. */
  function PlanFlow(nodes: Nodes, tasks: nat, maxAttempts: int): Flow {
    if exists n :: n in nodes && CanRetry(nodes[n], maxAttempts) then Continue
    else if exists n :: n in nodes && nodes[n].status == InputRequired then ExitWait
    else if AllCompleted(nodes) then ExitDone
    else if exists n :: n in nodes && nodes[n].status == NodeStatus.Failed then ExitFailed
    else if HasPendingWork(nodes) && ((exists n :: n in nodes && IsReady(nodes, n)) || tasks > 0) then Continue
    else ExitStalled
  }

  /** ready_nodes, in the order of the plan. */
  function ReadyNodes(order: seq<string>, nodes: Nodes): (r: seq<string>)
    ensures forall n :: n in r <==> n in order && IsReady(nodes, n)
    ensures Distinct(order) ==> Distinct(r)
  {
    if order == [] then []
    else
      var front, last := order[..|order| - 1], order[|order| - 1];
      assert order == front + [last];
      assert Distinct(order) ==> last !in front;
      if IsReady(nodes, last) then ReadyNodes(front, nodes) + [last] else ReadyNodes(front, nodes)
  }

  function Slots(maxParallel: int, tasks: nat): nat {
    if maxParallel > tasks then maxParallel - tasks else 0
  }

  /** What one pass of the loop dispatches. */
  function Batch(order: seq<string>, nodes: Nodes, maxParallel: int, tasks: nat): seq<string> {
    var ready := ReadyNodes(order, nodes);
    if |ready| <= Slots(maxParallel, tasks) then ready else ready[..Slots(maxParallel, tasks)]
  }

  // ---- the measure ----

  /** Every node may be dispatched this often. */
  function Budget(maxAttempts: int): nat {
    if maxAttempts > 1 then maxAttempts else 1
  }

  ghost predicate WithinBudget(nodes: Nodes, budget: nat) {
    forall n :: n in nodes ==> nodes[n].attempt <= budget && (nodes[n].status == Pending ==> nodes[n].attempt < budget)
  }

  /** Dispatches that are still allowed, over all nodes. */
  ghost function Left(order: seq<string>, nodes: Nodes, budget: nat): nat
    requires WithinBudget(nodes, budget) && forall n :: n in order ==> n in nodes
  {
    if order == [] then 0 else budget - nodes[order[0]].attempt + Left(order[1..], nodes, budget)
  }

  lemma {:induction false} LeftIsAboutAttempts(order: seq<string>, n0: Nodes, n1: Nodes, budget: nat)
    requires WithinBudget(n0, budget) && WithinBudget(n1, budget)
    requires forall n :: n in order ==> n in n0 && n in n1 && n0[n].attempt == n1[n].attempt
    ensures Left(order, n0, budget) == Left(order, n1, budget)
  {
    if order != [] {
      LeftIsAboutAttempts(order[1..], n0, n1, budget);
    }
  }

  lemma {:induction false} LeftDropsByOne(order: seq<string>, n0: Nodes, n1: Nodes, budget: nat, id: string)
    requires WithinBudget(n0, budget) && WithinBudget(n1, budget) && Distinct(order) && id in order
    requires forall n :: n in order ==> n in n0 && n in n1
    requires n1[id].attempt == n0[id].attempt + 1
             && forall n :: n in order && n != id ==> n1[n].attempt == n0[n].attempt
    ensures Left(order, n1, budget) == Left(order, n0, budget) - 1
  {
    assert order == [order[0]] + order[1..];
    if order[0] == id {
      LeftIsAboutAttempts(order[1..], n0, n1, budget);
    } else {
      LeftDropsByOne(order[1..], n0, n1, budget, id);
    }
  }

  // ---- why the loop ends with a verdict ----

  const SIMPLE := {Pending, Submitted, Completed, NodeStatus.Failed}

  /** Nothing runs, nothing is ready and nothing can be retried. */
  ghost predicate Quiet(nodes: Nodes, maxAttempts: int) {
    && (forall n :: n in nodes ==> nodes[n].status in {Pending, Completed, NodeStatus.Failed})
    && (forall n :: n in nodes ==> !IsReady(nodes, n) && !CanRetry(nodes[n], maxAttempts))
  }

  ghost predicate ReachesFailed(nodes: Nodes, n: string) {
    exists f :: f in nodes && nodes[f].status == NodeStatus.Failed && Reaches(Deps(nodes), n, f)
  }

  lemma ReachesFailedThrough(nodes: Nodes, n: string, d: string)
    requires n in nodes && d in nodes[n].deps && ReachesFailed(nodes, d)
    ensures ReachesFailed(nodes, n)
  {
    var f :| f in nodes && nodes[f].status == NodeStatus.Failed && Reaches(Deps(nodes), d, f);
    var p :| IsWalk(Deps(nodes), p) && p[0] == d && p[|p| - 1] == f;
    var q := [n] + p;
    assert (n, d) in Deps(nodes);
    assert IsWalk(Deps(nodes), q) && q[0] == n && q[|q| - 1] == f;
  }

  /** Once quiet, a node that never ran depends, perhaps through others, on a failed one. */
  lemma BlockedByFailure(nodes: Nodes, maxAttempts: int)
    requires DepsExist(nodes) && Acyclic(Deps(nodes)) && Quiet(nodes, maxAttempts)
    ensures forall n :: n in nodes && nodes[n].status == Pending ==> ReachesFailed(nodes, n)
  {
    var g := Deps(nodes);
    var stuck := set n | n in nodes && nodes[n].status == Pending && !ReachesFailed(nodes, n);
    forall n {:trigger PointsInto(g, n, stuck)} | n in stuck ensures PointsInto(g, n, stuck) {
      assert !DepsCompleted(nodes, n);
      var d :| d in nodes[n].deps && nodes[d].status != Completed;
      if nodes[d].status == NodeStatus.Failed {
        ReachesSelf(g, d);
        assert ReachesFailed(nodes, d);
      }
      if ReachesFailed(nodes, d) {
        ReachesFailedThrough(nodes, n, d);
      }
      assert d in stuck && (n, d) in g;
    }
    if stuck != {} {
      var c := NoExitHasCycle(g, stuck);
      assert false;
    }
    assert forall n :: n in nodes && nodes[n].status == Pending && !ReachesFailed(nodes, n) ==> n in stuck;
  }

  lemma AllCompletedMeans(nodes: Nodes)
    requires forall n :: n in nodes ==> nodes[n].status in {Pending, Completed, NodeStatus.Failed}
    ensures AllCompleted(nodes) <==> nodes != map[] && forall n :: n in nodes ==> nodes[n].status == Completed
  {
    if nodes != map[] {
      var n :| n in nodes;
    }
  }

  lemma NoFailureMeansCompleted(nodes: Nodes, maxAttempts: int)
    requires DepsExist(nodes) && Acyclic(Deps(nodes)) && Quiet(nodes, maxAttempts)
    requires forall n :: n in nodes ==> nodes[n].status != NodeStatus.Failed
    ensures forall n :: n in nodes ==> nodes[n].status == Completed
  {
    BlockedByFailure(nodes, maxAttempts);
    forall n | n in nodes ensures nodes[n].status != Pending {
      assert !ReachesFailed(nodes, n);
    }
  }

  /** The verdict of a quiet plan: never a wait, never another round; stalled only when there is no plan. */
  lemma QuietVerdict(nodes: Nodes, maxAttempts: int)
    requires DepsExist(nodes) && Acyclic(Deps(nodes)) && Quiet(nodes, maxAttempts)
    ensures var v := PlanFlow(nodes, 0, maxAttempts);
            && (v == ExitDone <==> nodes != map[] && forall n :: n in nodes ==> nodes[n].status == Completed)
            && (v == ExitStalled <==> nodes == map[])
            && v in {ExitDone, ExitFailed, ExitStalled}
  {
    AllCompletedMeans(nodes);
    if forall n :: n in nodes ==> nodes[n].status != NodeStatus.Failed {
      NoFailureMeansCompleted(nodes, maxAttempts);
    }
  }

  /** How a run ends: done exactly when every node completed, stalled only without a plan, and otherwise
      failed, with every allowed attempt of a failed node spent and every other unfinished node behind one. */
  ghost predicate Final(nodes: Nodes, maxAttempts: int, verdict: Flow) {
    && (verdict == ExitDone <==> nodes != map[] && forall n :: n in nodes ==> nodes[n].status == Completed)
    && (verdict == ExitStalled <==> nodes == map[])
    && verdict in {ExitDone, ExitFailed, ExitStalled}
    && (forall n :: n in nodes ==> nodes[n].status in {Pending, Completed, NodeStatus.Failed})
    && (forall n :: n in nodes && nodes[n].status == NodeStatus.Failed ==> nodes[n].attempt == Budget(maxAttempts))
    && (forall n :: n in nodes && nodes[n].status == Pending ==> ReachesFailed(nodes, n))
  }

  lemma FinalVerdict(nodes: Nodes, maxAttempts: int)
    requires DepsExist(nodes) && Acyclic(Deps(nodes)) && Quiet(nodes, maxAttempts)
             && WithinBudget(nodes, Budget(maxAttempts))
    requires forall n :: n in nodes && nodes[n].status == NodeStatus.Failed ==> nodes[n].attempt >= 1
    ensures Final(nodes, maxAttempts, PlanFlow(nodes, 0, maxAttempts))
  {
    BlockedByFailure(nodes, maxAttempts);
    QuietVerdict(nodes, maxAttempts);
  }

  // ---- the loop's invariant, on values ----

  ghost predicate GraphOk(order: seq<string>, nodes: Nodes) {
    Distinct(order) && (forall n :: n in order <==> n in nodes) && DepsExist(nodes) && Acyclic(Deps(nodes))
  }

  ghost predicate StatusOk(nodes: Nodes, budget: nat) {
    && WithinBudget(nodes, budget)
    && (forall n :: n in nodes ==> nodes[n].status in SIMPLE && (nodes[n].status == Pending || nodes[n].attempt >= 1))
  }

  /** Only nodes whose dependencies completed were ever dispatched, unless they failed since. */
  ghost predicate InOrder(nodes: Nodes) {
    forall n :: n in nodes && nodes[n].status in {Submitted, Completed} ==> DepsCompleted(nodes, n)
  }

  lemma KeepsInOrder(n0: Nodes, n1: Nodes)
    requires InOrder(n0) && Grows(n0, n1) && n1.Keys == n0.Keys
    requires forall n :: n in n1 && n1[n].status in {Submitted, Completed} ==>
               n0[n].status in {Submitted, Completed} || DepsCompleted(n0, n)
    ensures InOrder(n1)
  {
    forall n | DepsCompleted(n0, n) ensures DepsCompleted(n1, n) {
    }
  }

  lemma DispatchedInOrder(nodes: Nodes, batch: seq<string>)
    requires InOrder(nodes) && forall n :: n in batch ==> IsReady(nodes, n)
    ensures InOrder(Dispatched(nodes, batch)) && SameShape(nodes, Dispatched(nodes, batch))
  {
    KeepsInOrder(nodes, Dispatched(nodes, batch));
  }

  lemma RetriedInOrder(nodes: Nodes, maxAttempts: int)
    requires InOrder(nodes)
    ensures InOrder(Retried(nodes, maxAttempts)) && SameShape(nodes, Retried(nodes, maxAttempts))
  {
    KeepsInOrder(nodes, Retried(nodes, maxAttempts));
  }

  lemma EndedInOrder(nodes: Nodes, n: string, to: NodeStatus)
    requires InOrder(nodes) && n in nodes && nodes[n].status == Submitted && to in {Completed, NodeStatus.Failed}
    ensures InOrder(Move(nodes, n, to)) && SameShape(nodes, Move(nodes, n, to))
  {
    KeepsInOrder(nodes, Move(nodes, n, to));
  }

  lemma BatchReady(order: seq<string>, nodes: Nodes, maxParallel: int, tasks: nat)
    ensures forall n :: n in Batch(order, nodes, maxParallel, tasks) ==> IsReady(nodes, n)
  {
    var batch := Batch(order, nodes, maxParallel, tasks);
    assert forall n :: n in batch ==> n in ReadyNodes(order, nodes);
  }

  lemma SameShapeKeepsGraphOk(order: seq<string>, n0: Nodes, n1: Nodes)
    requires GraphOk(order, n0) && SameShape(n0, n1)
    ensures GraphOk(order, n1)
  {
    assert Deps(n1) == Deps(n0);
  }

  /** Every submitted node has its one live task. */
  ghost predicate TasksOk(nodes: Nodes, running: set<string>) {
    forall n :: n in running <==> n in nodes && nodes[n].status == Submitted
  }

  function Members(s: seq<string>): set<string> {
    set n | n in s
  }

  function Retried(nodes: Nodes, maxAttempts: int): Nodes {
    map n | n in nodes :: if CanRetry(nodes[n], maxAttempts) then nodes[n].(status := Pending) else nodes[n]
  }

  function RetriedAmong(nodes: Nodes, ids: seq<string>, maxAttempts: int): Nodes {
    map n | n in nodes :: if n in ids && CanRetry(nodes[n], maxAttempts) then nodes[n].(status := Pending) else nodes[n]
  }

  /** A failed node with attempts left is pending again; nothing else changes. */
  lemma RetriesExactly(nodes: Nodes, maxAttempts: int)
    ensures Retried(nodes, maxAttempts).Keys == nodes.Keys
    ensures forall n :: n in nodes ==>
              Retried(nodes, maxAttempts)[n]
              == if nodes[n].status == NodeStatus.Failed && nodes[n].attempt < maxAttempts
                 then nodes[n].(status := Pending) else nodes[n]
  {
  }

  lemma RetryPrefix(nodes: Nodes, order: seq<string>, i: nat, maxAttempts: int)
    requires i < |order| && Distinct(order) && order[i] in nodes
    ensures var before, n := RetriedAmong(nodes, order[..i], maxAttempts), order[i];
            RetriedAmong(nodes, order[..i + 1], maxAttempts)
            == if CanRetry(before[n], maxAttempts) then Move(before, n, Pending) else before
  {
    assert order[..i + 1] == order[..i] + [order[i]];
    assert order[i] !in order[..i];
  }

  lemma RetryAll(nodes: Nodes, order: seq<string>, maxAttempts: int)
    requires forall n :: n in nodes ==> n in order
    ensures RetriedAmong(nodes, order, maxAttempts) == Retried(nodes, maxAttempts)
  {
  }

  function Dispatched(nodes: Nodes, batch: seq<string>): Nodes {
    map n | n in nodes :: if n in batch then Start(nodes[n]) else nodes[n]
  }

  ghost predicate AllPending(nodes: Nodes, batch: seq<string>) {
    Distinct(batch) && forall n :: n in batch ==> n in nodes && nodes[n].status == Pending
  }

  lemma BatchIsReady(order: seq<string>, nodes: Nodes, budget: nat, maxParallel: int, tasks: nat)
    requires Distinct(order) && StatusOk(nodes, budget)
    ensures var batch := Batch(order, nodes, maxParallel, tasks);
            && AllPending(nodes, batch) && |batch| <= Slots(maxParallel, tasks)
            && (batch == [] && maxParallel > tasks ==> forall n :: n in order ==> !IsReady(nodes, n))
  {
    var ready := ReadyNodes(order, nodes);
    var batch := Batch(order, nodes, maxParallel, tasks);
    forall n | n in batch ensures n in nodes && nodes[n].status == Pending {
      assert n in ready;
    }
  }

  // ---- what a pass dispatches, on the plan itself ----

  /** Pending in one of its three forms, with every dependency completed. */
  ghost predicate CouldStart(nodes: Nodes, n: string) {
    && n in nodes && (nodes[n].status == Pending || nodes[n].status == Ready || nodes[n].status == Recover)
    && forall d :: d in nodes[n].deps ==> d in nodes && nodes[d].status == Completed
  }

  ghost function Startable(nodes: Nodes): set<string> {
    set n | n in nodes && CouldStart(nodes, n)
  }

  /** As many nodes as fit the free slots start, the first ones of the plan that could; the others stay as they are. */
  ghost predicate StartsTheFirst(order: seq<string>, nodes: Nodes, slots: nat, started: set<string>) {
    && started <= Startable(nodes)
    && |started| == (if slots < |Startable(nodes)| then slots else |Startable(nodes)|)
    && forall i, j :: 0 <= i < j < |order| && order[j] in started && order[i] in Startable(nodes) ==>
         order[i] in started
  }

  ghost function FreeSlots(maxParallel: int, tasks: nat): nat {
    if maxParallel - tasks < 0 then 0 else maxParallel - tasks
  }

  /** The started nodes are submitted, for one attempt more; nothing else changes. */
  ghost predicate Submits(n0: Nodes, n1: Nodes, started: set<string>) {
    n1.Keys == n0.Keys && forall n :: n in n0 ==>
      n1[n] == if n !in started then n0[n] else n0[n].(status := Submitted, attempt := n0[n].attempt + 1)
  }

  lemma CouldStartMeans(nodes: Nodes, n: string)
    ensures CouldStart(nodes, n) <==> IsReady(nodes, n)
  {
  }

  /** The ready nodes stand in the order of the plan. */
  ghost predicate PositionsOf(order: seq<string>, nodes: Nodes, at: seq<nat>, ready: seq<string>) {
    && |at| == |ready| && Ascending(at)
    && (forall i :: 0 <= i < |at| ==> at[i] < |order| && ready[i] == order[at[i]])
    && (forall k :: 0 <= k < |order| && IsReady(nodes, order[k]) ==> k in at)
  }

  lemma PositionsOneMore(front: seq<string>, last: string, nodes: Nodes, at: seq<nat>, ready: seq<string>)
    requires PositionsOf(front, nodes, at, ready)
    ensures IsReady(nodes, last) ==> PositionsOf(front + [last], nodes, at + [|front|], ready + [last])
    ensures !IsReady(nodes, last) ==> PositionsOf(front + [last], nodes, at, ready)
  {
    assert |front| in at + [|front|] by {
      assert (at + [|front|])[|at|] == |front|;
    }
  }

  lemma {:induction false} ReadyInOrder(order: seq<string>, nodes: Nodes) returns (at: seq<nat>)
    ensures PositionsOf(order, nodes, at, ReadyNodes(order, nodes))
  {
    if order == [] {
      at := [];
    } else {
      var front, last := order[..|order| - 1], order[|order| - 1];
      assert order == front + [last];
      at := ReadyInOrder(front, nodes);
      PositionsOneMore(front, last, nodes, at, ReadyNodes(front, nodes));
      if IsReady(nodes, last) {
        at := at + [|front|];
      }
    }
  }

  /** A ready node before a dispatched one is dispatched. */
  lemma EarlierIsTaken(order: seq<string>, nodes: Nodes, at: seq<nat>, ready: seq<string>, m: nat, i: nat, j: nat)
    requires PositionsOf(order, nodes, at, ready) && Distinct(order) && m <= |ready|
    requires i < j < |order| && order[j] in ready[..m] && IsReady(nodes, order[i])
    ensures order[i] in ready[..m]
  {
    var b :| 0 <= b < m && ready[b] == order[j];
    assert at[b] == j by {
      assert order[at[b]] == order[j];
    }
    assert i in at;
    var a :| 0 <= a < |at| && at[a] == i;
    AscendingReflects(at, a, b);
    assert ready[..m][a] == order[i];
  }

  lemma AscendingReflects(at: seq<nat>, a: nat, b: nat)
    requires Ascending(at) && a < |at| && b < |at| && at[a] < at[b]
    ensures a < b
  {
  }

  lemma ReadySetSize(order: seq<string>, nodes: Nodes)
    requires Distinct(order) && forall n :: n in order <==> n in nodes
    ensures |Startable(nodes)| == |ReadyNodes(order, nodes)|
  {
    var ready := ReadyNodes(order, nodes);
    forall n ensures n in Startable(nodes) <==> n in Members(ready) {
      CouldStartMeans(nodes, n);
    }
    assert Startable(nodes) == Members(ready);
    MembersAdd({}, ready);
    assert {} + Members(ready) == Members(ready);
  }

  lemma BatchTakesTheFirst(order: seq<string>, nodes: Nodes, maxParallel: int, tasks: nat)
    requires Distinct(order) && forall n :: n in order <==> n in nodes
    ensures StartsTheFirst(order, nodes, FreeSlots(maxParallel, tasks),
                           Members(Batch(order, nodes, maxParallel, tasks)))
  {
    var ready, batch := ReadyNodes(order, nodes), Batch(order, nodes, maxParallel, tasks);
    ReadySetSize(order, nodes);
    BatchReady(order, nodes, maxParallel, tasks);
    BatchSize(ready, |batch|);
    assert ready[..|batch|] == batch;
    forall n | n in batch ensures n in Startable(nodes) {
      CouldStartMeans(nodes, n);
    }
    var at := ReadyInOrder(order, nodes);
    forall i, j | 0 <= i < j < |order| && order[j] in Members(batch) && order[i] in Startable(nodes)
      ensures order[i] in Members(batch)
    {
      CouldStartMeans(nodes, order[i]);
      EarlierIsTaken(order, nodes, at, ready, |batch|, i, j);
    }
  }

  lemma BatchSize(ready: seq<string>, k: nat)
    requires Distinct(ready) && k <= |ready|
    ensures |Members(ready[..k])| == k
  {
    MembersAdd({}, ready[..k]);
    assert {} + Members(ready[..k]) == Members(ready[..k]);
  }

  lemma BatchSubmits(nodes: Nodes, batch: seq<string>)
    requires AllPending(nodes, batch)
    ensures Submits(nodes, Dispatched(nodes, batch), Members(batch))
  {
  }

  /** What a pass dispatches: the first nodes of the plan that could start, as many as there are free slots; they
      become submitted and nothing else changes. */
  lemma DispatchesTheFirst(order: seq<string>, nodes: Nodes, budget: nat, maxParallel: int, tasks: nat)
    requires Distinct(order) && (forall n :: n in order <==> n in nodes) && StatusOk(nodes, budget)
    ensures var batch := Batch(order, nodes, maxParallel, tasks);
            && StartsTheFirst(order, nodes, FreeSlots(maxParallel, tasks), Members(batch))
            && Submits(nodes, Dispatched(nodes, batch), Members(batch))
  {
    BatchTakesTheFirst(order, nodes, maxParallel, tasks);
    BatchIsReady(order, nodes, budget, maxParallel, tasks);
    BatchSubmits(nodes, Batch(order, nodes, maxParallel, tasks));
  }

  lemma BatchPrefix(nodes: Nodes, batch: seq<string>, i: nat)
    requires i < |batch| && AllPending(nodes, batch)
    ensures var n, before := batch[i], Dispatched(nodes, batch[..i]);
            n in before && before[n] == nodes[n] && Dispatched(nodes, batch[..i + 1]) == before[n := Start(before[n])]
    ensures Members(batch[..i + 1]) == Members(batch[..i]) + {batch[i]}
  {
    assert batch[..i + 1] == batch[..i] + [batch[i]];
    assert batch[i] !in batch[..i] && batch[i] in batch;
  }

  lemma DispatchedStatus(nodes: Nodes, budget: nat, batch: seq<string>, running: set<string>)
    requires StatusOk(nodes, budget) && AllPending(nodes, batch) && TasksOk(nodes, running)
    ensures StatusOk(Dispatched(nodes, batch), budget)
    ensures TasksOk(Dispatched(nodes, batch), running + Members(batch))
            && |running + Members(batch)| == |running| + |batch|
  {
    MembersAdd(running, batch);
  }

  ghost predicate Lists(order: seq<string>, nodes: Nodes) {
    Distinct(order) && forall n :: n in order <==> n in nodes
  }

  /** Dispatching a pending batch uses up one dispatch per member. */
  lemma {:induction false} DispatchedLeft(order: seq<string>, nodes: Nodes, budget: nat, batch: seq<string>, i: nat)
    requires Lists(order, nodes) && WithinBudget(nodes, budget) && AllPending(nodes, batch) && i <= |batch|
    ensures WithinBudget(Dispatched(nodes, batch[..i]), budget)
    ensures Left(order, Dispatched(nodes, batch[..i]), budget) + i == Left(order, nodes, budget)
  {
    if i == 0 {
      assert Dispatched(nodes, batch[..0]) == nodes;
    } else {
      DispatchedLeft(order, nodes, budget, batch, i - 1);
      OneMoreDispatched(order, nodes, budget, batch, i - 1);
    }
  }

  lemma OneMoreDispatched(order: seq<string>, nodes: Nodes, budget: nat, batch: seq<string>, i: nat)
    requires Lists(order, nodes) && AllPending(nodes, batch) && i < |batch|
    requires WithinBudget(Dispatched(nodes, batch[..i]), budget)
    ensures WithinBudget(Dispatched(nodes, batch[..i + 1]), budget)
    ensures Left(order, Dispatched(nodes, batch[..i + 1]), budget) + 1
            == Left(order, Dispatched(nodes, batch[..i]), budget)
  {
    BatchPrefix(nodes, batch, i);
    StartUsesOne(order, Dispatched(nodes, batch[..i]), budget, batch[i]);
  }

  /** Starting a pending node uses up one of its dispatches. */
  lemma StartUsesOne(order: seq<string>, nodes: Nodes, budget: nat, id: string)
    requires Lists(order, nodes) && WithinBudget(nodes, budget) && id in nodes && nodes[id].status == Pending
    ensures var nodes1 := nodes[id := Start(nodes[id])];
            WithinBudget(nodes1, budget) && Left(order, nodes1, budget) == Left(order, nodes, budget) - 1
  {
    LeftDropsByOne(order, nodes, nodes[id := Start(nodes[id])], budget, id);
  }

  lemma DispatchedOk(order: seq<string>, nodes: Nodes, budget: nat, batch: seq<string>)
    requires GraphOk(order, nodes) && StatusOk(nodes, budget) && AllPending(nodes, batch)
    ensures GraphOk(order, Dispatched(nodes, batch)) && WithinBudget(Dispatched(nodes, batch), budget)
    ensures Left(order, Dispatched(nodes, batch), budget) + |batch| == Left(order, nodes, budget)
  {
    SameShapeKeepsGraphOk(order, nodes, Dispatched(nodes, batch));
    DispatchedLeft(order, nodes, budget, batch, |batch|);
    assert batch[..|batch|] == batch;
  }

  lemma {:induction false} MembersAdd(running: set<string>, batch: seq<string>)
    requires Distinct(batch) && forall n :: n in batch ==> n !in running
    ensures |running + Members(batch)| == |running| + |batch|
  {
    if batch == [] {
      assert running + Members(batch) == running;
    } else {
      var front, last := batch[..|batch| - 1], batch[|batch| - 1];
      assert batch == front + [last];
      DistinctLast(front, last);
      MembersAdd(running, front);
      OneMoreMember(running, front, last);
    }
  }

  lemma OneMoreMember(running: set<string>, front: seq<string>, last: string)
    requires last !in front && last !in running
    ensures |running + Members(front + [last])| == |running + Members(front)| + 1
  {
    assert running + Members(front + [last]) == (running + Members(front)) + {last};
  }

  lemma RetriedOk(order: seq<string>, nodes: Nodes, maxAttempts: int, running: set<string>)
    requires GraphOk(order, nodes) && StatusOk(nodes, Budget(maxAttempts)) && TasksOk(nodes, running)
    ensures var nodes1 := Retried(nodes, maxAttempts);
            && GraphOk(order, nodes1) && StatusOk(nodes1, Budget(maxAttempts)) && TasksOk(nodes1, running)
            && Left(order, nodes1, Budget(maxAttempts)) == Left(order, nodes, Budget(maxAttempts))
  {
    SameShapeKeepsGraphOk(order, nodes, Retried(nodes, maxAttempts));
    LeftIsAboutAttempts(order, Retried(nodes, maxAttempts), nodes, Budget(maxAttempts));
  }

  lemma EndedOk(order: seq<string>, nodes: Nodes, budget: nat, running: set<string>, n: string, to: NodeStatus)
    requires GraphOk(order, nodes) && StatusOk(nodes, budget) && TasksOk(nodes, running)
    requires n in running && to in {Completed, NodeStatus.Failed}
    ensures var nodes1 := Move(nodes, n, to);
            && GraphOk(order, nodes1) && StatusOk(nodes1, budget) && TasksOk(nodes1, running - {n})
            && Left(order, nodes1, budget) == Left(order, nodes, budget)
  {
    SameShapeKeepsGraphOk(order, nodes, Move(nodes, n, to));
    LeftIsAboutAttempts(order, Move(nodes, n, to), nodes, budget);
  }

  lemma FreshPlanOk(plan: seq<PlanNode>, order: seq<string>, budget: nat)
    requires WellFormed(plan, MAX_NODES) && budget >= 1
    requires |order| == |plan| && forall i :: 0 <= i < |plan| ==> order[i] == plan[i].id
    ensures GraphOk(order, PlanNodes(plan)) && StatusOk(PlanNodes(plan), budget) && TasksOk(PlanNodes(plan), {})
    ensures InOrder(PlanNodes(plan))
  {
    PlanNodesGraph(plan);
    var nodes := PlanNodes(plan);
    forall n | n in order ensures n in nodes {
      var i :| 0 <= i < |order| && order[i] == n;
      assert plan[i] in plan;
    }
    forall n | n in nodes ensures n in order {
      var i :| 0 <= i < |plan| && plan[i] == NodeOf(plan, n);
      assert order[i] == n;
    }
  }

  lemma EmptyMembers(batch: seq<string>)
    ensures Members(batch) == {} <==> batch == []
  {
    if batch != [] {
      assert batch[0] in Members(batch);
    }
  }

  lemma NothingDispatched(order: seq<string>, nodes: Nodes, budget: nat, maxParallel: int)
    requires GraphOk(order, nodes) && StatusOk(nodes, budget) && maxParallel >= 1
    requires Members(Batch(order, nodes, maxParallel, 0)) == {}
    ensures Dispatched(nodes, Batch(order, nodes, maxParallel, 0)) == nodes
            && forall n :: n in order ==> !IsReady(nodes, n)
  {
    var batch := Batch(order, nodes, maxParallel, 0);
    EmptyMembers(batch);
    BatchIsReady(order, nodes, budget, maxParallel, 0);
  }

  lemma QuietWhenIdle(order: seq<string>, nodes: Nodes, maxAttempts: int)
    requires GraphOk(order, nodes) && StatusOk(nodes, Budget(maxAttempts)) && TasksOk(nodes, {})
    requires forall n :: n in order ==> !IsReady(nodes, n)
    requires forall n :: n in nodes ==> !CanRetry(nodes[n], maxAttempts)
    ensures Quiet(nodes, maxAttempts)
    ensures forall n :: n in nodes && nodes[n].status == NodeStatus.Failed ==> nodes[n].attempt >= maxAttempts
  {
    forall n | n in nodes ensures nodes[n].status != Submitted {
    }
  }

  // ---- no parallel slots ----

  /** The nodes after one turn of the loop without live tasks. */
  function AfterPass(order: seq<string>, nodes: Nodes, maxParallel: int, maxAttempts: int): Nodes {
    var retried := Retried(nodes, maxAttempts);
    Dispatched(retried, Batch(order, retried, maxParallel, 0))
  }

  function AfterPasses(order: seq<string>, nodes: Nodes, maxParallel: int, maxAttempts: int, k: nat): Nodes {
    if k == 0 then nodes
    else AfterPass(order, AfterPasses(order, nodes, maxParallel, maxAttempts, k - 1), maxParallel, maxAttempts)
  }

  /** A plan of which nothing has been started. */
  ghost predicate Fresh(nodes: Nodes) {
    nodes != map[] && DepsExist(nodes) && Acyclic(Deps(nodes)) && forall n :: n in nodes ==> nodes[n].status == Pending
  }

  /** A pass without slots starts nothing, changes nothing and goes round again. */
  lemma PassWithoutSlots(order: seq<string>, nodes: Nodes, maxParallel: int, maxAttempts: int)
    requires maxParallel <= 0 && Fresh(nodes)
    ensures Batch(order, Retried(nodes, maxAttempts), maxParallel, 0) == []
    ensures AfterPass(order, nodes, maxParallel, maxAttempts) == nodes && PlanFlow(nodes, 0, maxAttempts) == Continue
  {
    var n := AcyclicHasSink(Deps(nodes), nodes.Keys);
    assert forall d :: d in nodes[n].deps ==> (n, d) in Deps(nodes);
    assert IsReady(nodes, n);
    assert Retried(nodes, maxAttempts) == nodes;
    assert Dispatched(nodes, []) == nodes;
  }

  lemma {:induction false} PassesChangeNothing(order: seq<string>, nodes: Nodes, maxParallel: int, maxAttempts: int,
                                               k: nat)
    requires AfterPass(order, nodes, maxParallel, maxAttempts) == nodes
    ensures AfterPasses(order, nodes, maxParallel, maxAttempts, k) == nodes
  {
    if k > 0 {
      PassesChangeNothing(order, nodes, maxParallel, maxAttempts, k - 1);
    }
  }

  /** Without parallel slots a fresh plan never ends: after any number of turns nothing has been started, nothing
      has changed, and the verdict is to go round again. */
  lemma NoSlotsNeverEnds(order: seq<string>, nodes: Nodes, maxParallel: int, maxAttempts: int, k: nat)
    requires maxParallel <= 0 && Fresh(nodes)
    ensures var after := AfterPasses(order, nodes, maxParallel, maxAttempts, k);
            && after == nodes && PlanFlow(after, 0, maxAttempts) == Continue
            && Batch(order, Retried(after, maxAttempts), maxParallel, 0) == []
  {
    PassWithoutSlots(order, nodes, maxParallel, maxAttempts);
    PassesChangeNothing(order, nodes, maxParallel, maxAttempts, k);
  }

  // ---- the loop ----

  class Runner {
    const maxParallel: int
    const maxAttempts: int
    const order: seq<string>
    var nodes: Nodes
    /** Nodes whose task is still running, and ended tasks the loop has not collected. */
    var running: set<string>
    var ended: multiset<string>

    /** There are never more than maxParallel tasks. */
    ghost predicate Valid()
      reads this
    {
      && GraphOk(order, nodes) && StatusOk(nodes, Budget(maxAttempts)) && TasksOk(nodes, running)
      && InOrder(nodes) && |running| + |ended| <= Slots(maxParallel, 0)
    }

    ghost function Measure(): nat
      requires Valid()
      reads this
    {
      2 * Left(order, nodes, Budget(maxAttempts)) + |running| + |ended|
    }

    constructor (plan: seq<PlanNode>, maxParallel: int, maxAttempts: int)
      requires WellFormed(plan, MAX_NODES)
      ensures Valid() && nodes == PlanNodes(plan) && running == {} && ended == multiset{}
      ensures this.maxParallel == maxParallel && this.maxAttempts == maxAttempts
    {
      this.maxParallel := maxParallel;
      this.maxAttempts := maxAttempts;
      order := seq(|plan|, i requires 0 <= i < |plan| => plan[i].id);
      nodes := PlanNodes(plan);
      running := {};
      ended := multiset{};
      new;
      FreshPlanOk(plan, order, Budget(maxAttempts));
    }

    /** Failed nodes with attempts left are pending again. */
    method RetryFailed()
      requires Valid()
      modifies this`nodes
      ensures Valid() && Measure() == old(Measure()) && nodes == Retried(old(nodes), maxAttempts)
      ensures SameShape(old(nodes), nodes)
    {
      ghost var was := nodes;
      RetriedInOrder(was, maxAttempts);
      RetryEach();
      RetriedOk(order, was, maxAttempts, running);
      RetryAll(was, order, maxAttempts);
    }

    method RetryEach()
      requires Distinct(order) && forall n :: n in order ==> n in nodes
      modifies this`nodes
      ensures nodes == RetriedAmong(old(nodes), order, maxAttempts)
    {
      ghost var was := nodes;
      assert RetriedAmong(was, order[..0], maxAttempts) == was;
      for i := 0 to |order|
        invariant nodes == RetriedAmong(was, order[..i], maxAttempts)
      {
        var n := order[i];
        assert n in order;
        RetryPrefix(was, order, i, maxAttempts);
        if CanRetry(nodes[n], maxAttempts) {
          nodes := Move(nodes, n, Pending);
        }
      }
      assert order[..|order|] == order;
    }

    /** Dispatches the first ready nodes, as many as there are free slots. */
    method DispatchReady()
      requires Valid()
      modifies this`nodes, this`running
      ensures Valid() && Measure() <= old(Measure())
      ensures var batch := Batch(order, old(nodes), maxParallel, |old(running)| + |old(ended)|);
              nodes == Dispatched(old(nodes), batch) && running == old(running) + Members(batch)
      ensures SameShape(old(nodes), nodes)
    {
      var batch := Batch(order, nodes, maxParallel, |running| + |ended|);
      BatchIsReady(order, nodes, Budget(maxAttempts), maxParallel, |running| + |ended|);
      DispatchedStatus(nodes, Budget(maxAttempts), batch, running);
      DispatchedOk(order, nodes, Budget(maxAttempts), batch);
      BatchReady(order, nodes, maxParallel, |running| + |ended|);
      DispatchedInOrder(nodes, batch);
      DispatchEach(batch);
    }

    method DispatchEach(batch: seq<string>)
      requires AllPending(nodes, batch)
      modifies this`nodes, this`running
      ensures nodes == Dispatched(old(nodes), batch) && running == old(running) + Members(batch)
    {
      ghost var was, before := nodes, running;
      assert Dispatched(was, batch[..0]) == was;
      for i := 0 to |batch|
        invariant running == before + Members(batch[..i])
        invariant nodes == Dispatched(was, batch[..i])
      {
        BatchPrefix(was, batch, i);
        nodes := nodes[batch[i] := Start(nodes[batch[i]])];
        running := running + {batch[i]};
      }
      assert batch[..|batch|] == batch;
    }

    /** One node task ends. */
    method EndTask() returns (n: string)
      requires Valid() && running != {}
      modifies this`nodes, this`running, this`ended
      ensures n in old(running) && running == old(running) - {n} && ended == old(ended) + multiset{n}
      ensures nodes == old(nodes)[n := old(nodes)[n].(status := Completed)]
              || nodes == old(nodes)[n := old(nodes)[n].(status := NodeStatus.Failed)]
      ensures Valid() && Measure() == old(Measure()) && ended != multiset{} && running < old(running)
      ensures |running| + |ended| == |old(running)| + |old(ended)| && SameShape(old(nodes), nodes)
    {
      n :| n in running;
      var ok: bool := *;
      Record(n, if ok then Completed else NodeStatus.Failed);
      assert n in ended;
    }

    method Record(n: string, status: NodeStatus)
      requires Valid() && n in running && status in {Completed, NodeStatus.Failed}
      modifies this`nodes, this`running, this`ended
      ensures nodes == Move(old(nodes), n, status) && SameShape(old(nodes), nodes)
      ensures running == old(running) - {n} && |running| == |old(running)| - 1
      ensures ended == old(ended) + multiset{n} && |ended| == |old(ended)| + 1
      ensures Valid() && Measure() == old(Measure())
    {
      EndedOk(order, nodes, Budget(maxAttempts), running, n, status);
      EndedInOrder(nodes, n, status);
      nodes := Move(nodes, n, status);
      running := running - {n};
      ended := ended + multiset{n};
    }

    method EndSome()
      requires Valid()
      modifies this`nodes, this`running, this`ended
      ensures Valid() && Measure() == old(Measure()) && |running| + |ended| == |old(running)| + |old(ended)|
      ensures SameShape(old(nodes), nodes)
    {
      while *
        invariant Valid() && Measure() == old(Measure()) && |running| + |ended| == |old(running)| + |old(ended)|
        invariant SameShape(old(nodes), nodes)
        decreases running
      {
        if running == {} {
          break;
        }
        var _ := EndTask();
      }
    }

    /** Wait until some task has ended, then collect every ended one; more may end meanwhile. */
    method Await()
      requires Valid() && |running| + |ended| > 0
      modifies this`nodes, this`running, this`ended
      ensures Valid() && Measure() < old(Measure()) && SameShape(old(nodes), nodes)
    {
      EndSome();
      if ended == multiset{} {
        var _ := EndTask();
      }
      Collect();
      EndSome();
    }

    method Collect()
      requires Valid() && ended != multiset{}
      modifies this`ended
      ensures Valid() && Measure() < old(Measure())
    {
      assert |ended| > 0;
      ended := multiset{};
    }

    /** One turn of the loop up to the wait: retry, dispatch, and see whether there is anything to wait for. */
    method Pass() returns (idle: bool)
      requires Valid() && maxParallel >= 1
      modifies this`nodes, this`running
      ensures Valid() && Measure() <= old(Measure()) && SameShape(old(nodes), nodes)
      ensures idle == (running == {} && ended == multiset{})
      ensures idle ==> Final(nodes, maxAttempts, PlanFlow(nodes, 0, maxAttempts))
    {
      RetryFailed();
      ghost var retried := nodes;
      DispatchReady();
      idle := running == {} && ended == multiset{};
      if idle {
        NothingDispatched(order, retried, Budget(maxAttempts), maxParallel);
        QuietWhenIdle(order, nodes, maxAttempts);
        FinalVerdict(nodes, maxAttempts);
      }
    }

    /** run_plan: it ends with nothing left running and with the right verdict. */
    method RunPlan() returns (verdict: Flow)
      requires Valid() && maxParallel >= 1
      modifies this`nodes, this`running, this`ended
      ensures Valid() && running == {} && ended == multiset{} && Final(nodes, maxAttempts, verdict)
      ensures SameShape(old(nodes), nodes)
    {
      while true
        invariant Valid() && SameShape(old(nodes), nodes)
        decreases Measure()
      {
        var idle := Pass();
        if idle {
          break;
        }
        Await();
      }
      verdict := PlanFlow(nodes, |running| + |ended|, maxAttempts);
    }
  }
}
