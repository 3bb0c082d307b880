/** Whole runs of the legacy orchestrator.  Each finished task is one step, and so is each locked section,
    cut where it awaits something that lets other tasks go on. */
module LegacyRuns {
  import opened Common
  import opened Digraph
  import opened Plan
  import opened Legacy
  import opened Interventions
  import Ids

  /** A settlement remembers the plan version it was started under. */
  datatype Settlement = Settlement(node: string, version: nat)

  /** executing holds one entry per live task of a node of the current plan; held is what the holder of the
      session lock does when its await returns. */
  datatype State = State(nodes: Nodes, version: nat, derived: nat, patches: nat,
                         executing: multiset<string>, settling: set<Settlement>, book: Book, held: Option<Held>)

  const INITIAL := State(map[], 1, 0, 0, multiset{}, {}, map[], None)

  const MAX_NODES := 20

  const SUFFIXES := {'f', 'a', 'h'}

  function DerivedId(parent: string, suffix: char, k: nat): string {
    parent + ['-', suffix] + Ids.Dec(k)
  }

  predicate DepsCompleted(nodes: Nodes, id: string) {
    id in nodes && forall d :: d in nodes[id].deps ==> d in nodes && nodes[d].status == Completed
  }

  /** An unsettled helper works for the node. */
  predicate HasActiveHelper(nodes: Nodes, id: string) {
    exists h ::
      && h in nodes && nodes[h].derived && nodes[h].requestedBy == Some(id)
      && nodes[h].status in ACTIVE + PENDING + {InputRequired}
  }

  function NodeOf(plan: seq<PlanNode>, id: string): (n: PlanNode)
    requires id in IdSet(plan)
    ensures n in plan && n.id == id
  {
    if plan[0].id == id then plan[0]
    else
      assert plan == [plan[0]] + plan[1..];
      NodeOf(plan[1..], id)
  }

  function Draw(n: PlanNode): Node {
    Node(n.agent, n.deps, Pending, 0, false, None, n.instruction)
  }

  function PlanNodes(plan: seq<PlanNode>): Nodes {
    map id | id in IdSet(plan) :: Draw(NodeOf(plan, id))
  }

  datatype Event =
    | Create(plan: seq<PlanNode>)                          // a new turn starts with a validated plan
    | Retry(id: string)                                    // a failed node gets another attempt
    | Dispatch(id: string)                                 // the runner starts a ready node
    | Progress(id: string, to: NodeStatus)                 // a running task reports submitted or recover
    | Finish(id: string, to: NodeStatus)                   // a task ends and expires stale questions
    | Crash(id: string)                                    // a task raised: the runner marks the node failed
    | LateFinish(id: string)                               // a task of an earlier plan ends
    | Settle(id: string)                                   // a settlement starts for a waiting node
    | AskHuman(job: Settlement, k: string, qtype: QuestionType, options: seq<string>, multi: bool)
    | HelperAnswers(job: Settlement)                       // the settlement adopts a helper's output
    | SettleEnds(job: Settlement)                          // it ends, or raises, without a decision
    | Reply(k: string, reply: Interventions.Reply)         // the user answers; the entry is closed
    | Proceed                                              // the lock holder goes on after its await
    | Spawn(parent: string, suffix: char, agent: string, deps: seq<string>, requestedBy: Option<string>, text: string)
    | Revise(patch: Patch, known: set<string>)
    | AskCancel(id: string, k: string)                     // a patch asks before interrupting a node in flight
    | Interrupt(id: string)                                // the user interrupts an active node; the remote is told
    | CancelSession
    | Stop                                                 // the runner exits and cancels its tasks
    | Restart(remote: set<string>)                         // recovery; remote nodes can be re-attached

  /** No key looks like an id that a derived node may still get. */
  ghost predicate NoFutureIds(keys: set<string>, derived: nat) {
    forall parent, suffix, k :: suffix in SUFFIXES && k > derived ==> DerivedId(parent, suffix, k) !in keys
  }

  /** Steps that need the session lock. */
  predicate Locked(e: Event) {
    || e.Create? || e.Retry? || e.Dispatch? || e.Settle? || e.AskHuman? || e.HelperAnswers? || e.Reply? || e.Revise?
    || e.AskCancel? || e.Interrupt? || e.CancelSession?
  }

  ghost predicate Enabled(s: State, e: Event) {
    && (Locked(e) ==> s.held.None?)
    && match e
       case Create(plan) => WellFormed(plan, MAX_NODES) && NoFutureIds(IdSet(plan), 0)
       case Retry(id) => id in s.nodes && s.nodes[id].status == NodeStatus.Failed
       case Dispatch(id) => DepsCompleted(s.nodes, id) && s.nodes[id].status in PENDING
       case Progress(id, to) =>
         && id in s.executing && id in s.nodes && to in {Submitted, Recover}
         && CanTransition(s.nodes[id].status, to)
       case Finish(id, to) =>
         && id in s.executing && id in s.nodes
         && to in {Completed, NodeStatus.Failed, Canceled, InputRequired} && CanTransition(s.nodes[id].status, to)
       case Crash(id) => id in s.executing && id in s.nodes
       case LateFinish(id) => true
       case Settle(id) =>
         && id in s.nodes && s.nodes[id].status == InputRequired && !PendingFor(s.book, id)
         && !HasActiveHelper(s.nodes, id)
         && forall v :: Settlement(id, v) !in s.settling
       case AskHuman(job, k, _, _, _) =>
         && job in s.settling && k !in s.book && !PendingFor(s.book, job.node)
         && job.node in s.nodes && CanTransition(s.nodes[job.node].status, InputRequired)
       case HelperAnswers(job) =>
         && job in s.settling
         && (job.version == s.version ==> job.node in s.nodes && CanTransition(s.nodes[job.node].status, Ready))
       case SettleEnds(job) => job in s.settling
       case Reply(k, reply) => true
       case Proceed => s.held.Some?
       case Spawn(parent, suffix, agent, deps, requestedBy, text) =>
         suffix in SUFFIXES && forall d :: d in deps ==> d in s.nodes
       case Revise(patch, known) => true
       case AskCancel(id, k) => id in s.nodes && s.nodes[id].status !in INVALIDATABLE + {Invalidated} && k !in s.book
       case Interrupt(id) => id in s.nodes && s.nodes[id].status in ACTIVE && forall node :: !PendingFor(s.book, node)
       case CancelSession => true
       case Stop => true
       case Restart(remote) => true
  }

  function Reset(nodes: Nodes, from: set<NodeStatus>, to: string -> NodeStatus): Nodes {
    map id | id in nodes :: if nodes[id].status in from then nodes[id].(status := to(id)) else nodes[id]
  }

  function Start(n: Node): Node {
    n.(status := if n.status == Recover then Recover else Submitted,
       attempt := if n.status == Recover then n.attempt else n.attempt + 1)
  }

  /** The settlement works on the node object it was given; under a later plan that object is detached. */
  function Adopt(s: State, job: Settlement): Nodes
    requires job.version == s.version ==> job.node in s.nodes
  {
    if job.version == s.version then Move(s.nodes, job.node, Ready) else s.nodes
  }

  ghost function Next(s: State, e: Event): State
    requires Enabled(s, e)
  {
    match e
    case Create(plan) => State(PlanNodes(plan), s.version + 1, 0, 0, multiset{}, s.settling, map[], None)
    case Retry(id) => s.(nodes := Move(s.nodes, id, Pending))
    case Dispatch(id) => s.(executing := s.executing + multiset{id}, nodes := s.nodes[id := Start(s.nodes[id])])
    case Progress(id, to) => s.(nodes := Move(s.nodes, id, to))
    case Finish(id, to) =>
      var nodes := Move(s.nodes, id, to);
      s.(nodes := nodes, executing := s.executing - multiset{id}, book := ExpireAmong(nodes, s.book, {id}))
    case Crash(id) =>
      s.(executing := s.executing - multiset{id},
         nodes := if CanTransition(s.nodes[id].status, NodeStatus.Failed) then Move(s.nodes, id, NodeStatus.Failed)
                  else s.nodes)
    case LateFinish(id) => s.(book := ExpireAmong(s.nodes, s.book, {id}))
    case Settle(id) => s.(settling := s.settling + {Settlement(id, s.version)})
    case AskHuman(job, k, qtype, options, multi) =>
      s.(nodes := Move(s.nodes, job.node, InputRequired), settling := s.settling - {job},
         book := Request(s.book, k, Intervention(job.node, Question, qtype, options, multi, Unanswered)))
    case HelperAnswers(job) =>
      var nodes := Adopt(s, job);
      s.(nodes := nodes, settling := s.settling - {job}, book := ExpireAmong(nodes, s.book, {job.node}))
    case SettleEnds(job) => s.(settling := s.settling - {job})
    case Reply(k, reply) => var a := Accept(s.nodes, s.book, k, reply); s.(book := a.book, held := a.held)
    case Proceed => var r := Resume(s.nodes, s.book, s.held.value); s.(nodes := r.nodes, book := r.book, held := None)
    case Spawn(parent, suffix, agent, deps, requestedBy, text) =>
      s.(derived := s.derived + 1,
         nodes := s.nodes[DerivedId(parent, suffix, s.derived + 1) :=
                          Node(agent, deps, Pending, 0, true, requestedBy, text)])
    case Revise(patch, known) =>
      var a := AddDrafts(s.nodes, s.patches, patch.add, known);
      s.(nodes := InvalidateAll(a.nodes, Closure(a.nodes, patch.invalidate)), patches := a.count)
    case AskCancel(id, k) =>
      s.(book := Request(s.book, k, Intervention(id, ConfirmCancel, Confirm, [], false, Unanswered)))
    case Interrupt(id) => s.(held := Some(Cancelling(id, false)))
    case CancelSession => s.(nodes := Reset(s.nodes, ACTIVE + {Ready}, _ => Canceled))
    case Stop => s.(executing := multiset{}, settling := {})
    case Restart(remote) =>
      s.(executing := multiset{}, settling := {}, held := None, book := Normalize(s.nodes, s.book),
         nodes := Reset(s.nodes, ACTIVE, id => if id in remote then Recover else Pending))
  }

  // ---- what single steps do to the nodes ----

  /** A new turn knows nothing but its plan. */
  lemma CreatesExactly(s: State, plan: seq<PlanNode>)
    requires Enabled(s, Create(plan))
    ensures var t := Next(s, Create(plan));
            && (forall id :: id in t.nodes <==> exists i :: 0 <= i < |plan| && plan[i].id == id)
            && (forall i :: 0 <= i < |plan| ==>
                  plan[i].id in t.nodes
                  && t.nodes[plan[i].id]
                       == Node(plan[i].agent, plan[i].deps, Pending, 0, false, None, plan[i].instruction))
            && t.version > s.version && t.executing == multiset{} && t.book == map[]
  {
    var nodes := PlanNodes(plan);
    forall i | 0 <= i < |plan| ensures plan[i].id in nodes && nodes[plan[i].id] == Draw(plan[i]) {
      var j :| 0 <= j < |plan| && plan[j] == NodeOf(plan, plan[i].id);
      assert plan[i] in plan && plan[j].id == plan[i].id;
    }
    forall id | id in nodes ensures exists i :: 0 <= i < |plan| && plan[i].id == id {
      var n :| n in plan && n.id == id;
      var i :| 0 <= i < |plan| && plan[i] == n;
      assert plan[i].id == id;
    }
  }

  /** Cancelling the session cancels what is ready or in flight, and nothing else. */
  lemma CancelsTheSession(s: State)
    requires Enabled(s, CancelSession)
    ensures var t := Next(s, CancelSession);
            && t == s.(nodes := t.nodes) && t.nodes.Keys == s.nodes.Keys
            && forall n :: n in s.nodes ==>
                 t.nodes[n] == if s.nodes[n].status in {Ready, Submitted, Working} then s.nodes[n].(status := Canceled)
                               else s.nodes[n]
  {
  }

  /** Recovery: a node in flight is picked up again if its remote task is known, and starts over otherwise. */
  lemma RestartsExactly(s: State, remote: set<string>)
    ensures var t := Next(s, Restart(remote));
            && t.nodes.Keys == s.nodes.Keys && t.executing == multiset{} && t.settling == {} && t.held == None
            && (forall n :: n in s.nodes ==>
                  t.nodes[n] == if s.nodes[n].status !in {Submitted, Working} then s.nodes[n]
                                else s.nodes[n].(status := if n in remote then Recover else Pending))
  {
  }

  // ---- the plan invariant ----

  /** (n, d): n depends on d. */
  ghost function Deps(nodes: Nodes): Graph {
    set n, d | n in nodes && d in nodes[n].deps :: (n, d)
  }

  ghost predicate DepsExist(nodes: Nodes) {
    forall n, d :: n in nodes && d in nodes[n].deps ==> d in nodes
  }

  const STARTED := {Ready, Submitted, Working, Recover, InputRequired, Completed}

  ghost predicate StartedInOrder(nodes: Nodes) {
    forall n :: n in nodes && nodes[n].status in STARTED ==> DepsCompleted(nodes, n)
  }

  ghost predicate GraphInv(s: State) {
    DepsExist(s.nodes) && Acyclic(Deps(s.nodes)) && NoFutureIds(s.nodes.Keys, s.derived)
  }

  ghost predicate JobsInOrder(s: State) {
    && (forall id :: id in s.executing ==> DepsCompleted(s.nodes, id))
    && (forall job :: job in s.settling ==>
        job.version <= s.version && (job.version == s.version ==> DepsCompleted(s.nodes, job.node)))
    && (s.held.Some? && s.held.value.Readying? ==> DepsCompleted(s.nodes, s.held.value.node))
  }

  /** Every dependency exists, there is no dependency cycle, and whatever has begun had its dependencies completed. */
  ghost predicate PlanInv(s: State) {
    GraphInv(s) && StartedInOrder(s.nodes) && JobsInOrder(s)
  }

  /** A settlement of an earlier plan asks about a node of this plan that must still wait. */
  predicate Misfires(s: State, e: Event) {
    e.AskHuman? && !DepsCompleted(s.nodes, e.job.node)
  }

  // ---- the graph part ----

  /** Nothing depends on a new node, so no cycle goes through it. */
  lemma CycleIsOld(nodes: Nodes, id: string, node: Node, p: seq<string>)
    requires DepsExist(nodes) && id !in nodes && forall d :: d in node.deps ==> d in nodes
    requires IsCycle(Deps(nodes[id := node]), p)
    ensures IsCycle(Deps(nodes), p)
  {
    var g := Deps(nodes[id := node]);
    forall i | 0 <= i < |p| - 1 ensures (p[i], p[i + 1]) in Deps(nodes) {
      assert (p[i], p[i + 1]) in g;
      assert i > 0 ==> (p[i - 1], p[i]) in g;
      assert i == 0 ==> (p[|p| - 2], p[|p| - 1]) in g;
    }
  }

  lemma AddNodeKeepsGraph(nodes: Nodes, id: string, node: Node)
    requires DepsExist(nodes) && Acyclic(Deps(nodes)) && id !in nodes && forall d :: d in node.deps ==> d in nodes
    ensures DepsExist(nodes[id := node]) && Acyclic(Deps(nodes[id := node]))
  {
    var g := Deps(nodes[id := node]);
    forall p ensures !IsCycle(g, p) {
      if IsCycle(g, p) {
        CycleIsOld(nodes, id, node, p);
      }
    }
  }

  lemma DerivedIdsDiffer(parent1: string, suffix1: char, k1: nat, parent2: string, suffix2: char, k2: nat)
    requires suffix1 in SUFFIXES && suffix2 in SUFFIXES
             && DerivedId(parent1, suffix1, k1) == DerivedId(parent2, suffix2, k2)
    ensures k1 == k2
  {
    Ids.GeneratedIdsDiffer(parent1 + ['-', suffix1], k1, parent2 + ['-', suffix2], k2);
  }

  lemma SpawnKeepsNoFutureIds(keys: set<string>, derived: nat, parent: string, suffix: char)
    requires NoFutureIds(keys, derived) && suffix in SUFFIXES
    ensures DerivedId(parent, suffix, derived + 1) !in keys
    ensures NoFutureIds(keys + {DerivedId(parent, suffix, derived + 1)}, derived + 1)
  {
    var id := DerivedId(parent, suffix, derived + 1);
    forall p, x, k: nat | x in SUFFIXES && k > derived + 1 ensures DerivedId(p, x, k) !in keys + {id} {
      if DerivedId(p, x, k) == id {
        DerivedIdsDiffer(p, x, k, parent, suffix, derived + 1);
      }
    }
  }

  lemma PatchIdIsNotDerived(j: nat, parent: string, suffix: char, k: nat)
    ensures PatchId(j) != DerivedId(parent, suffix, k)
  {
    assert DerivedId(parent, suffix, k)[|parent|] == '-';
    assert forall i :: 0 <= i < |PatchId(j)| ==> PatchId(j)[i] != '-';
  }

  lemma {:induction false} AddDraftsKeepsGraph(nodes: Nodes, count: nat, drafts: seq<Draft>, known: set<string>,
                                               derived: nat)
    requires DepsExist(nodes) && Acyclic(Deps(nodes)) && NoFutureIds(nodes.Keys, derived)
    ensures var a := AddDrafts(nodes, count, drafts, known);
            DepsExist(a.nodes) && Acyclic(Deps(a.nodes)) && NoFutureIds(a.nodes.Keys, derived)
  {
    if drafts != [] {
      var front, d := drafts[..|drafts| - 1], drafts[|drafts| - 1];
      AddDraftsKeepsGraph(nodes, count, front, known, derived);
      var a := AddDrafts(nodes, count, front, known);
      if Accepts(a.nodes, d, known) {
        var k := NextFree(a.nodes.Keys, a.count);
        AddNodeKeepsGraph(a.nodes, PatchId(k), DraftNode(d));
        forall p, x, j: nat | x in SUFFIXES && j > derived ensures DerivedId(p, x, j) !in a.nodes.Keys + {PatchId(k)} {
          PatchIdIsNotDerived(k, p, x, j);
        }
      }
    }
  }

  /** Same keys and dependencies. */
  ghost predicate SameShape(n0: Nodes, n1: Nodes) {
    n0.Keys == n1.Keys && forall n :: n in n0 ==> n1[n].deps == n0[n].deps
  }

  lemma SameShapeKeepsGraph(s: State, nodes: Nodes)
    requires GraphInv(s) && SameShape(s.nodes, nodes)
    ensures GraphInv(s.(nodes := nodes))
  {
    assert Deps(nodes) == Deps(s.nodes);
  }

  lemma PlanNodesGraph(plan: seq<PlanNode>)
    requires WellFormed(plan, MAX_NODES)
    ensures DepsExist(PlanNodes(plan)) && Acyclic(Deps(PlanNodes(plan)))
  {
    var nodes := PlanNodes(plan);
    forall n, d | n in nodes && d in nodes[n].deps ensures (n, d) in Edges(plan) {
      assert NodeOf(plan, n) in plan;
    }
    SubgraphAcyclic(Edges(plan), Deps(nodes));
  }

  lemma ResumeKeepsShape(nodes: Nodes, book: Book, held: Held)
    ensures SameShape(nodes, Resume(nodes, book, held).nodes)
  {
    if held.node in nodes && held.Cancelling? {
      CancelOnly(nodes, held.node);
      assert SameShape(nodes, Cancel(nodes, held.node));
    }
  }

  lemma ResetKeepsShape(nodes: Nodes, from: set<NodeStatus>, to: string -> NodeStatus)
    ensures SameShape(nodes, Reset(nodes, from, to))
  {
  }

  lemma MoveKeepsShape(nodes: Nodes, id: string, to: NodeStatus)
    requires id in nodes
    ensures SameShape(nodes, Move(nodes, id, to))
  {
  }

  /** All but three kinds of steps leave the graph alone. */
  lemma StepKeepsShape(s: State, e: Event)
    requires Enabled(s, e) && !e.Create? && !e.Spawn? && !e.Revise?
    ensures SameShape(s.nodes, Next(s, e).nodes) && Next(s, e).derived == s.derived
  {
    match e
    case Retry(id) => MoveKeepsShape(s.nodes, id, Pending);
    case Progress(id, to) => MoveKeepsShape(s.nodes, id, to);
    case Finish(id, to) => MoveKeepsShape(s.nodes, id, to);
    case Crash(id) => MoveKeepsShape(s.nodes, id, NodeStatus.Failed);
    case AskHuman(job, _, _, _, _) => MoveKeepsShape(s.nodes, job.node, InputRequired);
    case Proceed => ResumeKeepsShape(s.nodes, s.book, s.held.value);
    case CancelSession => ResetKeepsShape(s.nodes, ACTIVE + {Ready}, _ => Canceled);
    case Restart(remote) => ResetKeepsShape(s.nodes, ACTIVE, id => if id in remote then Recover else Pending);
    case _ =>
  }

  lemma ReviseKeepsGraph(s: State, patch: Patch, known: set<string>)
    requires GraphInv(s) && Enabled(s, Revise(patch, known))
    ensures GraphInv(Next(s, Revise(patch, known)))
  {
    AddDraftsKeepsGraph(s.nodes, s.patches, patch.add, known, s.derived);
    var a := AddDrafts(s.nodes, s.patches, patch.add, known);
    SameShapeKeepsGraph(s.(nodes := a.nodes), Next(s, Revise(patch, known)).nodes);
  }

  lemma SpawnKeepsGraph(s: State, e: Event)
    requires GraphInv(s) && Enabled(s, e) && e.Spawn?
    ensures GraphInv(Next(s, e))
  {
    SpawnKeepsNoFutureIds(s.nodes.Keys, s.derived, e.parent, e.suffix);
    var id, t := DerivedId(e.parent, e.suffix, s.derived + 1), Next(s, e);
    AddNodeKeepsGraph(s.nodes, id, t.nodes[id]);
    assert t.nodes.Keys == s.nodes.Keys + {id};
  }

  lemma StepKeepsGraph(s: State, e: Event)
    requires GraphInv(s) && Enabled(s, e)
    ensures GraphInv(Next(s, e))
  {
    if e.Create? {
      PlanNodesGraph(e.plan);
      assert Next(s, e).nodes.Keys == IdSet(e.plan);
    } else if e.Spawn? {
      SpawnKeepsGraph(s, e);
    } else if e.Revise? {
      ReviseKeepsGraph(s, e.patch, e.known);
    } else {
      StepKeepsShape(s, e);
      SameShapeKeepsGraph(s, Next(s, e).nodes);
    }
  }

  // ---- the order part ----

  /** Nodes stay, keep their dependencies, and stay completed once completed. */
  ghost predicate Grows(n0: Nodes, n1: Nodes) {
    forall n :: n in n0 ==>
        n in n1 && n1[n].deps == n0[n].deps && (n0[n].status == Completed ==> n1[n].status == Completed)
  }

  /** Whatever has begun in n1 had begun in n0, or could. */
  ghost predicate BeginsInOrder(n0: Nodes, n1: Nodes) {
    forall n :: n in n1 && n1[n].status in STARTED ==> n in n0 && (n0[n].status in STARTED || DepsCompleted(n0, n))
  }

  lemma GrowsKeepsOrder(n0: Nodes, n1: Nodes)
    requires StartedInOrder(n0) && Grows(n0, n1) && BeginsInOrder(n0, n1)
    ensures StartedInOrder(n1)
  {
    forall n | DepsCompleted(n0, n) ensures DepsCompleted(n1, n) {
    }
  }

  lemma MoveGrows(nodes: Nodes, id: string, to: NodeStatus)
    requires id in nodes && CanTransition(nodes[id].status, to)
    ensures Grows(nodes, Move(nodes, id, to))
    ensures to in STARTED ==> nodes[id].status in STARTED || DepsCompleted(nodes, id) ==>
              BeginsInOrder(nodes, Move(nodes, id, to))
    ensures to !in STARTED ==> BeginsInOrder(nodes, Move(nodes, id, to))
  {
  }

  lemma CancelGrows(nodes: Nodes, id: string)
    requires id in nodes && CanTransition(nodes[id].status, Canceled)
    ensures Grows(nodes, Cancel(nodes, id)) && BeginsInOrder(nodes, Cancel(nodes, id))
  {
  }

  lemma ResumeGrows(nodes: Nodes, book: Book, held: Held)
    requires held.Readying? ==> DepsCompleted(nodes, held.node)
    ensures Grows(nodes, Resume(nodes, book, held).nodes) && BeginsInOrder(nodes, Resume(nodes, book, held).nodes)
  {
    if !Resume(nodes, book, held).refused {
      if held.Readying? {
        MoveGrows(nodes, held.node, Ready);
      } else {
        CancelGrows(nodes, held.node);
      }
    }
  }

  lemma InvalidatingGrows(nodes: Nodes, added: Nodes, ids: set<string>)
    requires forall n :: n in nodes ==> n in added && added[n] == nodes[n]
    requires forall n :: n in added && n !in nodes ==> added[n].status == Pending
    requires forall n :: n in ids ==> Open(added, n)
    ensures Grows(nodes, InvalidateAll(added, ids)) && BeginsInOrder(nodes, InvalidateAll(added, ids))
  {
  }

  lemma ReviseGrows(nodes: Nodes, patches: nat, patch: Patch, known: set<string>)
    ensures var a := AddDrafts(nodes, patches, patch.add, known);
            var nodes1 := InvalidateAll(a.nodes, Closure(a.nodes, patch.invalidate));
            Grows(nodes, nodes1) && BeginsInOrder(nodes, nodes1)
  {
    var a := AddDrafts(nodes, patches, patch.add, known);
    AddedIdsAreFresh(nodes, patches, patch.add, known);
    var closure := Closure(a.nodes, patch.invalidate);
    assert forall n :: n in closure ==> Open(a.nodes, n);
    InvalidatingGrows(nodes, a.nodes, closure);
  }

  lemma ResetGrows(nodes: Nodes, from: set<NodeStatus>, to: string -> NodeStatus)
    requires Completed !in from
    requires forall id :: to(id) in STARTED ==> from <= STARTED
    ensures Grows(nodes, Reset(nodes, from, to)) && BeginsInOrder(nodes, Reset(nodes, from, to))
  {
  }

  lemma AdoptGrows(s: State, job: Settlement)
    requires Enabled(s, HelperAnswers(job)) && JobsInOrder(s)
    ensures Grows(s.nodes, Adopt(s, job)) && BeginsInOrder(s.nodes, Adopt(s, job))
  {
    if job.version == s.version {
      MoveGrows(s.nodes, job.node, Ready);
    }
  }

  lemma DispatchGrows(nodes: Nodes, id: string)
    requires DepsCompleted(nodes, id) && nodes[id].status in PENDING
    ensures Grows(nodes, nodes[id := Start(nodes[id])]) && BeginsInOrder(nodes, nodes[id := Start(nodes[id])])
  {
  }

  lemma SpawnGrows(nodes: Nodes, id: string, node: Node)
    requires id !in nodes && node.status == Pending
    ensures Grows(nodes, nodes[id := node]) && BeginsInOrder(nodes, nodes[id := node])
  {
  }

  /** Steps of the runner and its tasks. */
  lemma TaskStepGrows(s: State, e: Event)
    requires PlanInv(s) && Enabled(s, e) && (e.Retry? || e.Dispatch? || e.Progress? || e.Finish? || e.Crash?)
    ensures Grows(s.nodes, Next(s, e).nodes) && BeginsInOrder(s.nodes, Next(s, e).nodes)
  {
    match e
    case Retry(id) => MoveGrows(s.nodes, id, Pending);
    case Dispatch(id) => DispatchGrows(s.nodes, id);
    case Progress(id, to) => MoveGrows(s.nodes, id, to);
    case Finish(id, to) => MoveGrows(s.nodes, id, to);
    case Crash(id) =>
      if CanTransition(s.nodes[id].status, NodeStatus.Failed) {
        MoveGrows(s.nodes, id, NodeStatus.Failed);
      }
  }

  lemma StepGrows(s: State, e: Event)
    requires PlanInv(s) && Enabled(s, e) && !e.Create?
    ensures Grows(s.nodes, Next(s, e).nodes)
    ensures !Misfires(s, e) ==> BeginsInOrder(s.nodes, Next(s, e).nodes)
  {
    if e.Retry? || e.Dispatch? || e.Progress? || e.Finish? || e.Crash? {
      TaskStepGrows(s, e);
    } else {
      match e
      case AskHuman(job, _, _, _, _) => MoveGrows(s.nodes, job.node, InputRequired);
      case HelperAnswers(job) => AdoptGrows(s, job);
      case Proceed => ResumeGrows(s.nodes, s.book, s.held.value);
      case Revise(patch, known) => ReviseGrows(s.nodes, s.patches, patch, known);
      case CancelSession => ResetGrows(s.nodes, ACTIVE + {Ready}, _ => Canceled);
      case Restart(remote) => ResetGrows(s.nodes, ACTIVE, id => if id in remote then Recover else Pending);
      case Spawn(parent, suffix, _, _, _, _) =>
        SpawnKeepsNoFutureIds(s.nodes.Keys, s.derived, parent, suffix);
        var id := DerivedId(parent, suffix, s.derived + 1);
        SpawnGrows(s.nodes, id, Next(s, e).nodes[id]);
      case _ =>
    }
  }

  /** Tasks, settlements and the lock holder are the old ones, or are about a node that could begin. */
  ghost predicate JobsComeInOrder(s: State, t: State) {
    && (forall id :: id in t.executing ==> id in s.executing || DepsCompleted(s.nodes, id))
    && (forall job :: job in t.settling ==>
        job in s.settling || (job.version == s.version && DepsCompleted(s.nodes, job.node)))
    && (t.held.Some? && t.held.value.Readying? ==> t.held == s.held || DepsCompleted(s.nodes, t.held.value.node))
  }

  lemma ReplyComesInOrder(s: State, k: string, reply: Interventions.Reply)
    requires StartedInOrder(s.nodes)
    ensures var held := Accept(s.nodes, s.book, k, reply).held;
            held.Some? && held.value.Readying? ==> DepsCompleted(s.nodes, held.value.node)
  {
  }

  lemma StepBringsJobsInOrder(s: State, e: Event)
    requires PlanInv(s) && Enabled(s, e) && !e.Create?
    ensures JobsComeInOrder(s, Next(s, e)) && Next(s, e).version == s.version
  {
    if e.Reply? {
      ReplyComesInOrder(s, e.k, e.reply);
    }
  }

  lemma JobsStayInOrder(s: State, t: State)
    requires JobsInOrder(s) && JobsComeInOrder(s, t) && t.version == s.version && Grows(s.nodes, t.nodes)
    ensures JobsInOrder(t)
  {
    forall n | DepsCompleted(s.nodes, n) ensures DepsCompleted(t.nodes, n) {
    }
  }

  lemma StepKeepsJobs(s: State, e: Event)
    requires PlanInv(s) && Enabled(s, e)
    ensures JobsInOrder(Next(s, e))
  {
    if !e.Create? {
      StepGrows(s, e);
      StepBringsJobsInOrder(s, e);
      JobsStayInOrder(s, Next(s, e));
    }
  }

  /** A step keeps the plan invariant exactly when it is not such a stale question. */
  lemma StepKeepsPlan(s: State, e: Event)
    requires PlanInv(s) && Enabled(s, e)
    ensures PlanInv(Next(s, e)) <==> !Misfires(s, e)
  {
    var t := Next(s, e);
    StepKeepsGraph(s, e);
    StepKeepsJobs(s, e);
    if Misfires(s, e) {
      StepGrows(s, e);
      assert t.nodes[e.job.node].status == InputRequired;
      assert !DepsCompleted(t.nodes, e.job.node) by {
        var d :| d in s.nodes[e.job.node].deps && !(d in s.nodes && s.nodes[d].status == Completed);
        assert d in t.nodes[e.job.node].deps;
      }
    } else if !e.Create? {
      StepGrows(s, e);
      GrowsKeepsOrder(s.nodes, t.nodes);
    }
  }
}
