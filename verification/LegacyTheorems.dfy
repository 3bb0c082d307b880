/** What every run of the legacy orchestrator keeps, and the two steps that break it. */
module LegacyTheorems {
  import opened Common
  import opened Digraph
  import opened Plan
  import opened Legacy
  import opened Interventions
  import opened LegacyRuns
  import Ids

  // ---- interventions, step by step ----

  /** A second task of the node, or its failure, moves the node while a question about it is pending. */
  ghost predicate Disturbs(s: State, e: Event) {
    (e.Crash? || e.Progress?) && exists k :: Waits(s.book, k, e.id) && s.book[k].kind == Question
  }

  lemma StepKeepsBook(s: State, e: Event)
    requires OnePending(s.book) && Enabled(s, e)
    ensures OnePending(Next(s, e).book)
    ensures !e.Create? ==> OnlyCloses(s.book, Next(s, e).book)
  {
    match e
    case Finish(id, to) => ExpiringOnlyCloses(Move(s.nodes, id, to), s.book, {id});
    case LateFinish(id) => ExpiringOnlyCloses(s.nodes, s.book, {id});
    case HelperAnswers(job) => ExpiringOnlyCloses(Adopt(s, job), s.book, {job.node});
    case Restart(_) => ExpiringOnlyCloses(s.nodes, s.book, {});
    case AskHuman(job, k, qtype, options, multi) =>
      RequestKeepsOnePending(s.book, k, Intervention(job.node, Question, qtype, options, multi, Unanswered));
    case AskCancel(id, k) =>
      RequestKeepsOnePending(s.book, k, Intervention(id, ConfirmCancel, Confirm, [], false, Unanswered));
    case Reply(k, reply) => AcceptKeepsDiscipline(s.nodes, s.book, k, reply);
    case Proceed => ResumeKeepsBook(s.nodes, s.book, s.held.value);
    case _ =>
  }

  /** While the lock holder waits, nothing is pending about the node it is going to move. */
  ghost predicate HeldFree(s: State) {
    s.held.Some? ==> !PendingFor(s.book, s.held.value.node)
  }

  lemma ClosingKeepsFree(book0: Book, book1: Book, node: string)
    requires OnlyCloses(book0, book1) && !PendingFor(book0, node) && book1.Keys == book0.Keys
    ensures !PendingFor(book1, node)
  {
    forall k | k in book1 ensures !Waits(book1, k, node) {
      assert !Waits(book0, k, node);
    }
  }

  /** No step but a locked one opens a question. */
  lemma StepKeepsKeys(s: State, e: Event)
    requires Enabled(s, e) && !Locked(e)
    ensures Next(s, e).book.Keys == s.book.Keys
  {
  }

  lemma StepKeepsHeld(s: State, e: Event)
    requires OnePending(s.book) && HeldFree(s) && Enabled(s, e)
    ensures HeldFree(Next(s, e))
  {
    if e.Reply? {
      AcceptKeepsDiscipline(s.nodes, s.book, e.k, e.reply);
    } else if s.held.Some? {
      StepKeepsBook(s, e);
      StepKeepsKeys(s, e);
      ClosingKeepsFree(s.book, Next(s, e).book, s.held.value.node);
    }
  }

  /** Moving a node and expiring the questions about it keeps questions and waiting nodes together. */
  lemma ExpireAfterMove(nodes: Nodes, moved: Nodes, book: Book, id: string)
    requires QuestionsWait(nodes, book) && forall n :: n in nodes && n != id ==> n in moved && moved[n] == nodes[n]
    ensures QuestionsWait(moved, ExpireAmong(moved, book, {id}))
  {
  }

  lemma WaitingNodesStay(nodes: Nodes, nodes1: Nodes, book: Book)
    requires QuestionsWait(nodes, book)
    requires forall n :: n in nodes && nodes[n].status == InputRequired ==>
               n in nodes1 && nodes1[n].status == InputRequired
    ensures QuestionsWait(nodes1, book)
  {
  }

  lemma ReviseKeepsWaiting(nodes: Nodes, patches: nat, patch: Patch, known: set<string>)
    ensures var a := AddDrafts(nodes, patches, patch.add, known);
            var nodes1 := InvalidateAll(a.nodes, Closure(a.nodes, patch.invalidate));
            forall n :: n in nodes && nodes[n].status == InputRequired ==>
                n in nodes1 && nodes1[n].status == InputRequired
  {
    var a := AddDrafts(nodes, patches, patch.add, known);
    AddedIdsAreFresh(nodes, patches, patch.add, known);
    var closure := Closure(a.nodes, patch.invalidate);
    assert forall n :: n in closure ==> Open(a.nodes, n);
    forall n | n in nodes && nodes[n].status == InputRequired ensures n !in closure {
    }
  }

  lemma DisturbedQuestion(s: State, e: Event)
    requires QuestionsWait(s.nodes, s.book) && Enabled(s, e) && (e.Crash? || e.Progress?)
    ensures QuestionsWait(Next(s, e).nodes, Next(s, e).book) <==> !Disturbs(s, e)
  {
    var t := Next(s, e);
    if Disturbs(s, e) {
      var k :| Waits(s.book, k, e.id) && s.book[k].kind == Question;
      assert k in t.book && t.nodes[e.id].status != InputRequired;
    } else {
      assert forall k :: Waits(s.book, k, e.id) ==> s.book[k].kind != Question;
    }
  }

  lemma LockedStepKeepsQuestions(s: State, e: Event)
    requires OnePending(s.book) && QuestionsWait(s.nodes, s.book) && Enabled(s, e) && Locked(e)
    ensures QuestionsWait(Next(s, e).nodes, Next(s, e).book)
  {
    match e
    case HelperAnswers(job) => ExpireAfterMove(s.nodes, Adopt(s, job), s.book, job.node);
    case Reply(k, reply) => AcceptKeepsDiscipline(s.nodes, s.book, k, reply);
    case Revise(patch, known) =>
      ReviseKeepsWaiting(s.nodes, s.patches, patch, known);
      WaitingNodesStay(s.nodes, Next(s, e).nodes, s.book);
    case _ =>
  }

  /** A pending question keeps its node waiting, unless exactly such a disturbance happens. */
  lemma StepKeepsQuestions(s: State, e: Event)
    requires OnePending(s.book) && QuestionsWait(s.nodes, s.book) && Enabled(s, e)
    requires NoFutureIds(s.nodes.Keys, s.derived) && HeldFree(s)
    ensures QuestionsWait(Next(s, e).nodes, Next(s, e).book) <==> !Disturbs(s, e)
  {
    if Locked(e) {
      LockedStepKeepsQuestions(s, e);
    } else if e.Crash? || e.Progress? {
      DisturbedQuestion(s, e);
    } else {
      match e
      case Finish(id, to) => ExpireAfterMove(s.nodes, Move(s.nodes, id, to), s.book, id);
      case LateFinish(id) => ExpireAfterMove(s.nodes, s.nodes, s.book, id);
      case Proceed => ResumeKeepsDiscipline(s.nodes, s.book, s.held.value);
      case Spawn(parent, suffix, _, _, _, _) =>
        SpawnKeepsNoFutureIds(s.nodes.Keys, s.derived, parent, suffix);
        WaitingNodesStay(s.nodes, Next(s, e).nodes, s.book);
      case _ =>
    }
  }

  // ---- whole runs ----

  ghost predicate Step(s: State, e: Event, t: State) {
    Enabled(s, e) && Next(s, e) == t
  }

  ghost predicate IsRun(states: seq<State>, events: seq<Event>) {
    && |states| == |events| + 1 && states[0] == INITIAL
    && forall i {:trigger events[i]} :: 0 <= i < |events| ==> Step(states[i], events[i], states[i + 1])
  }

  lemma InitialIsFine()
    ensures PlanInv(INITIAL) && OnePending(INITIAL.book) && QuestionsWait(INITIAL.nodes, INITIAL.book)
            && HeldFree(INITIAL)
  {
    RankedIsAcyclic(Deps(INITIAL.nodes), map[]);
  }

  /** Every state of every run without a misfire satisfies the plan invariant. */
  lemma {:induction false} RunsKeepPlan(states: seq<State>, events: seq<Event>, i: nat)
    requires IsRun(states, events) && i < |states|
    requires forall j {:trigger events[j]} :: 0 <= j < i ==> !Misfires(states[j], events[j])
    ensures PlanInv(states[i])
  {
    if i == 0 {
      InitialIsFine();
    } else {
      RunsKeepPlan(states, events, i - 1);
      StepKeepsPlan(states[i - 1], events[i - 1]);
    }
  }

  lemma {:induction false} RunsKeepGraph(states: seq<State>, events: seq<Event>, i: nat)
    requires IsRun(states, events) && i < |states|
    ensures GraphInv(states[i])
  {
    if i == 0 {
      InitialIsFine();
    } else {
      RunsKeepGraph(states, events, i - 1);
      StepKeepsGraph(states[i - 1], events[i - 1]);
    }
  }

  lemma {:induction false} RunsKeepBook(states: seq<State>, events: seq<Event>, i: nat)
    requires IsRun(states, events) && i < |states|
    ensures OnePending(states[i].book) && HeldFree(states[i])
  {
    if i == 0 {
      InitialIsFine();
    } else {
      RunsKeepBook(states, events, i - 1);
      StepKeepsBook(states[i - 1], events[i - 1]);
      StepKeepsHeld(states[i - 1], events[i - 1]);
    }
  }

  lemma {:induction false} RunsKeepQuestions(states: seq<State>, events: seq<Event>, i: nat)
    requires IsRun(states, events) && i < |states|
    requires forall j {:trigger events[j]} :: 0 <= j < i ==> !Disturbs(states[j], events[j])
    ensures QuestionsWait(states[i].nodes, states[i].book)
  {
    if i == 0 {
      InitialIsFine();
    } else {
      RunsKeepQuestions(states, events, i - 1);
      RunsKeepBook(states, events, i - 1);
      RunsKeepGraph(states, events, i - 1);
      StepKeepsQuestions(states[i - 1], events[i - 1]);
    }
  }

  /** In every state of every run a node has at most one pending intervention; while nothing disturbs a
      question, its node waits for input. */
  lemma RunsKeepDiscipline(states: seq<State>, events: seq<Event>, i: nat)
    requires IsRun(states, events) && i < |states|
    ensures OnePending(states[i].book) && HeldFree(states[i])
    ensures (forall j {:trigger events[j]} :: 0 <= j < i ==> !Disturbs(states[j], events[j]))
            ==> QuestionsWait(states[i].nodes, states[i].book)
  {
    RunsKeepBook(states, events, i);
    if forall j {:trigger events[j]} :: 0 <= j < i ==> !Disturbs(states[j], events[j]) {
      RunsKeepQuestions(states, events, i);
    }
  }

  /** Within a turn, an answered or expired intervention never changes again. */
  lemma {:induction false} ClosedStaysClosed(states: seq<State>, events: seq<Event>, i: nat, j: nat, k: string)
    requires IsRun(states, events) && i <= j < |states|
    requires forall m :: i <= m < j ==> !events[m].Create?
    requires k in states[i].book && states[i].book[k].state != Unanswered
    ensures k in states[j].book && states[j].book[k] == states[i].book[k]
  {
    if i < j {
      ClosedStaysClosed(states, events, i, j - 1, k);
      RunsKeepBook(states, events, j - 1);
      StepKeepsBook(states[j - 1], events[j - 1]);
    }
  }

  // ---- how a node may move ----

  /** Only the status changes, as the transition table allows, and a dispatch may count an attempt. */
  ghost predicate MovesTo(n0: Node, n1: Node, dispatched: bool) {
    && n1 == n0.(status := n1.status, attempt := n1.attempt) && CanTransition(n0.status, n1.status)
    && n0.attempt <= n1.attempt <= n0.attempt + if dispatched && n0.status in PENDING then 1 else 0
  }

  ghost predicate AllMove(n0: Nodes, n1: Nodes, dispatched: set<string>) {
    forall n :: n in n0 ==> n in n1 && MovesTo(n0[n], n1[n], n in dispatched)
  }

  lemma MoveIsAllowed(nodes: Nodes, id: string, to: NodeStatus)
    requires id in nodes && CanTransition(nodes[id].status, to)
    ensures AllMove(nodes, Move(nodes, id, to), {})
  {
  }

  lemma CancelIsAllowed(nodes: Nodes, id: string)
    requires id in nodes && CanTransition(nodes[id].status, Canceled)
    ensures AllMove(nodes, Cancel(nodes, id), {})
  {
    CancelsExactly(nodes, id);
  }

  lemma ResumeIsAllowed(nodes: Nodes, book: Book, held: Held)
    ensures AllMove(nodes, Resume(nodes, book, held).nodes, {})
  {
    if !Resume(nodes, book, held).refused {
      if held.Readying? {
        MoveIsAllowed(nodes, held.node, Ready);
      } else {
        CancelIsAllowed(nodes, held.node);
      }
    }
  }

  lemma ReviseIsAllowed(nodes: Nodes, patches: nat, patch: Patch, known: set<string>)
    ensures var a := AddDrafts(nodes, patches, patch.add, known);
            AllMove(nodes, InvalidateAll(a.nodes, Closure(a.nodes, patch.invalidate)), {})
  {
    var a := AddDrafts(nodes, patches, patch.add, known);
    AddedIdsAreFresh(nodes, patches, patch.add, known);
    var closure := Closure(a.nodes, patch.invalidate);
    assert forall n :: n in closure ==> Open(a.nodes, n);
    InvalidatingIsAllowed(nodes, a.nodes, closure);
  }

  lemma InvalidatingIsAllowed(nodes: Nodes, added: Nodes, ids: set<string>)
    requires forall n :: n in nodes ==> n in added && added[n] == nodes[n]
    requires forall n :: n in ids ==> Open(added, n)
    ensures AllMove(nodes, InvalidateAll(added, ids), {})
  {
  }

  lemma ResetIsAllowed(nodes: Nodes, from: set<NodeStatus>, to: string -> NodeStatus)
    requires forall id, status :: status in from ==> CanTransition(status, to(id))
    ensures AllMove(nodes, Reset(nodes, from, to), {})
  {
  }

  lemma TaskStepIsAllowed(s: State, e: Event)
    requires Enabled(s, e) && (e.Retry? || e.Dispatch? || e.Progress? || e.Finish? || e.Crash?)
    ensures AllMove(s.nodes, Next(s, e).nodes, if e.Dispatch? then {e.id} else {})
  {
    match e
    case Retry(id) => MoveIsAllowed(s.nodes, id, Pending);
    case Dispatch(id) =>
    case Progress(id, to) => MoveIsAllowed(s.nodes, id, to);
    case Finish(id, to) => MoveIsAllowed(s.nodes, id, to);
    case Crash(id) =>
      if CanTransition(s.nodes[id].status, NodeStatus.Failed) {
        MoveIsAllowed(s.nodes, id, NodeStatus.Failed);
      }
  }

  /** Within a turn no step makes a transition that the table forbids, removes a node, or changes what a node is. */
  lemma StepsMoveAsAllowed(s: State, e: Event)
    requires GraphInv(s) && Enabled(s, e) && !e.Create?
    ensures AllMove(s.nodes, Next(s, e).nodes, if e.Dispatch? then {e.id} else {})
  {
    if e.Retry? || e.Dispatch? || e.Progress? || e.Finish? || e.Crash? {
      TaskStepIsAllowed(s, e);
    } else {
      match e
      case AskHuman(job, _, _, _, _) => MoveIsAllowed(s.nodes, job.node, InputRequired);
      case HelperAnswers(job) =>
        if job.version == s.version {
          MoveIsAllowed(s.nodes, job.node, Ready);
        }
      case Proceed => ResumeIsAllowed(s.nodes, s.book, s.held.value);
      case Revise(patch, known) => ReviseIsAllowed(s.nodes, s.patches, patch, known);
      case CancelSession => ResetIsAllowed(s.nodes, ACTIVE + {Ready}, _ => Canceled);
      case Restart(remote) => ResetIsAllowed(s.nodes, ACTIVE, id => if id in remote then Recover else Pending);
      case Spawn(parent, suffix, _, _, _, _) => SpawnKeepsNoFutureIds(s.nodes.Keys, s.derived, parent, suffix);
      case _ =>
    }
  }

  lemma EndedCannotMove(n0: Nodes, n1: Nodes, dispatched: set<string>, n: string)
    requires AllMove(n0, n1, dispatched) && n in n0 && n0[n].status in {Completed, Canceled, Invalidated}
    ensures n in n1 && n1[n] == n0[n]
  {
    assert MovesTo(n0[n], n1[n], n in dispatched);
  }

  /** So a completed, cancelled or invalidated node is never touched again within its turn. */
  lemma {:induction false} EndedStaysEnded(states: seq<State>, events: seq<Event>, i: nat, j: nat, n: string)
    requires IsRun(states, events) && i <= j < |states|
    requires forall m :: i <= m < j ==> !events[m].Create?
    requires n in states[i].nodes && states[i].nodes[n].status in {Completed, Canceled, Invalidated}
    ensures n in states[j].nodes && states[j].nodes[n] == states[i].nodes[n]
  {
    if i < j {
      EndedStaysEnded(states, events, i, j - 1, n);
      RunsKeepGraph(states, events, j - 1);
      var s, e := states[j - 1], events[j - 1];
      StepsMoveAsAllowed(s, e);
      EndedCannotMove(s.nodes, Next(s, e).nodes, if e.Dispatch? then {e.id} else {}, n);
    }
  }

  // ---- the two breaking runs ----

  const ALICE := PlanNode("a", "agent", "", [], None)
  const BOB := PlanNode("b", "agent", "", [], None)
  const ALICE_AFTER_BOB := PlanNode("a", "agent", "", ["b"], None)

  lemma ShortIdsAreNotDerived(ids: set<string>)
    requires forall id :: id in ids ==> |id| == 1
    ensures NoFutureIds(ids, 0)
  {
    forall parent, suffix, k: nat | suffix in SUFFIXES && k > 0 ensures DerivedId(parent, suffix, k) !in ids {
      assert |DerivedId(parent, suffix, k)| >= 3;
    }
  }

  lemma OneNodePlan()
    ensures Enabled(INITIAL, Create([ALICE]))
    ensures PlanNodes([ALICE]) == map["a" := Draw(ALICE)]
  {
    RankedIsAcyclic(Edges([ALICE]), map[]);
    assert IdSet([ALICE]) == {"a"};
    ShortIdsAreNotDerived({"a"});
  }

  lemma OrderedPlan(s: State)
    requires s.held.None?
    ensures Enabled(s, Create([BOB, ALICE_AFTER_BOB]))
  {
    var plan := [BOB, ALICE_AFTER_BOB];
    assert Edges(plan) == {("a", "b")};
    RankedIsAcyclic(Edges(plan), map["a" := 1, "b" := 0]);
    assert IdSet(plan) == {"a", "b"};
    ShortIdsAreNotDerived({"a", "b"});
  }

  lemma OrderedNodes()
    ensures PlanNodes([BOB, ALICE_AFTER_BOB]) == map["b" := Draw(BOB), "a" := Draw(ALICE_AFTER_BOB)]
  {
    var plan := [BOB, ALICE_AFTER_BOB];
    assert IdSet(plan) == {"a", "b"};
    assert plan[1..] == [ALICE_AFTER_BOB];
  }

  lemma UnorderedPlan()
    ensures Enabled(INITIAL, Create([ALICE, BOB]))
    ensures PlanNodes([ALICE, BOB]) == map["a" := Draw(ALICE), "b" := Draw(BOB)]
  {
    var plan := [ALICE, BOB];
    assert Edges(plan) == {};
    RankedIsAcyclic(Edges(plan), map[]);
    assert IdSet(plan) == {"a", "b"};
    ShortIdsAreNotDerived({"a", "b"});
    assert plan[1..] == [BOB];
  }

  function Drawn(deps: seq<string>, status: NodeStatus, attempt: nat): Node {
    Node("agent", deps, status, attempt, false, None, "")
  }

  const JOB := Settlement("a", 2)
  const ASKED: Book := map["q" := Intervention("a", Question, Input, [], false, Unanswered)]

  function OnlyAlice(status: NodeStatus, attempt: nat, tasks: nat, settling: set<Settlement>, book: Book): State {
    State(map["a" := Drawn([], status, attempt)], 2, 0, 0, multiset{}["a" := tasks], settling, book, None)
  }

  /** a in the given status with so many tasks, and b in its own with at most one. */
  function Both(a: NodeStatus, attempt: nat, tasks: nat, b: NodeStatus, bAttempt: nat, bTasks: nat,
                settling: set<Settlement>, book: Book): State {
    State(map["a" := Drawn([], a, attempt), "b" := Drawn([], b, bAttempt)], 2, 0, 0,
          multiset{}["a" := tasks]["b" := bTasks],
          settling, book, None)
  }

  lemma AliceIsPlannedAndDispatched()
    ensures Step(INITIAL, Create([ALICE]), OnlyAlice(Pending, 0, 0, {}, map[]))
    ensures Step(OnlyAlice(Pending, 0, 0, {}, map[]), Dispatch("a"), OnlyAlice(Submitted, 1, 1, {}, map[]))
  {
    OneNodePlan();
  }

  lemma AliceAsks()
    ensures Step(OnlyAlice(Submitted, 1, 1, {}, map[]), Finish("a", InputRequired),
                 OnlyAlice(InputRequired, 1, 0, {}, map[]))
    ensures Step(OnlyAlice(InputRequired, 1, 0, {}, map[]), Settle("a"), OnlyAlice(InputRequired, 1, 0, {JOB}, map[]))
  {
  }

  lemma ExtendRun(states: seq<State>, events: seq<Event>, e: Event, t: State)
    returns (states1: seq<State>, events1: seq<Event>)
    requires IsRun(states, events) && Step(states[|events|], e, t)
    ensures IsRun(states1, events1) && states1 == states + [t] && events1 == events + [e]
  {
    states1, events1 := states + [t], events + [e];
    forall i | 0 <= i < |events| + 1 ensures Step((states + [t])[i], (events + [e])[i], (states + [t])[i + 1]) {
      assert i < |events| ==> Step(states[i], events[i], states[i + 1]);
    }
  }

  lemma BothArePlanned()
    ensures Step(INITIAL, Create([ALICE, BOB]), Both(Pending, 0, 0, Pending, 0, 0, {}, map[]))
  {
    UnorderedPlan();
  }

  lemma BothAreDispatched()
    ensures Step(Both(Pending, 0, 0, Pending, 0, 0, {}, map[]), Dispatch("a"),
                 Both(Submitted, 1, 1, Pending, 0, 0, {}, map[]))
    ensures Step(Both(Submitted, 1, 1, Pending, 0, 0, {}, map[]), Dispatch("b"),
                 Both(Submitted, 1, 1, Submitted, 1, 1, {}, map[]))
  {
  }

  lemma BothAreRecovered()
    ensures Step(Both(Submitted, 1, 1, Submitted, 1, 1, {}, map[]), Restart({"a", "b"}),
                 Both(Recover, 1, 0, Recover, 1, 0, {}, map[]))
  {
  }

  lemma BothAreDispatchedAgain()
    ensures Step(Both(Recover, 1, 0, Recover, 1, 0, {}, map[]), Dispatch("a"),
                 Both(Recover, 1, 1, Recover, 1, 0, {}, map[]))
    ensures Step(Both(Recover, 1, 1, Recover, 1, 0, {}, map[]), Dispatch("b"),
                 Both(Recover, 1, 1, Recover, 1, 1, {}, map[]))
  {
  }

  /** b's task ends, which wakes the loop; it finds a still recoverable and starts it again. */
  lemma BobWakesTheLoop()
    ensures Step(Both(Recover, 1, 1, Recover, 1, 1, {}, map[]), Finish("b", Completed),
                 Both(Recover, 1, 1, Completed, 1, 0, {}, map[]))
    ensures Step(Both(Recover, 1, 1, Completed, 1, 0, {}, map[]), Dispatch("a"),
                 Both(Recover, 1, 2, Completed, 1, 0, {}, map[]))
  {
  }

  lemma OneTaskAsks()
    ensures Step(Both(Recover, 1, 2, Completed, 1, 0, {}, map[]), Finish("a", InputRequired),
                 Both(InputRequired, 1, 1, Completed, 1, 0, {}, map[]))
    ensures Step(Both(InputRequired, 1, 1, Completed, 1, 0, {}, map[]), Settle("a"),
                 Both(InputRequired, 1, 1, Completed, 1, 0, {JOB}, map[]))
  {
  }

  lemma SettlementAsks()
    ensures Step(Both(InputRequired, 1, 1, Completed, 1, 0, {JOB}, map[]), AskHuman(JOB, "q", Input, [], false),
                 Both(InputRequired, 1, 1, Completed, 1, 0, {}, ASKED))
  {
  }

  lemma LateReportDisturbs()
    ensures Step(Both(InputRequired, 1, 1, Completed, 1, 0, {}, ASKED), Progress("a", Submitted),
                 Both(Submitted, 1, 1, Completed, 1, 0, {}, ASKED))
    ensures !QuestionsWait(Both(Submitted, 1, 1, Completed, 1, 0, {}, ASKED).nodes, ASKED)
  {
    assert "q" in ASKED;
  }

  lemma BothRun() returns (states: seq<State>, events: seq<Event>)
    ensures IsRun(states, events) && states[|events|] == Both(Submitted, 1, 1, Submitted, 1, 1, {}, map[])
    ensures forall e :: e in events ==> !e.Crash?
  {
    BothArePlanned();
    BothAreDispatched();
    states, events := [INITIAL], [];
    states, events := ExtendRun(states, events, Create([ALICE, BOB]), Both(Pending, 0, 0, Pending, 0, 0, {}, map[]));
    states, events := ExtendRun(states, events, Dispatch("a"), Both(Submitted, 1, 1, Pending, 0, 0, {}, map[]));
    states, events := ExtendRun(states, events, Dispatch("b"), Both(Submitted, 1, 1, Submitted, 1, 1, {}, map[]));
  }

  lemma BothRunAgain() returns (states: seq<State>, events: seq<Event>)
    ensures IsRun(states, events) && states[|events|] == Both(Recover, 1, 1, Recover, 1, 1, {}, map[])
    ensures forall e :: e in events ==> !e.Crash?
  {
    BothAreRecovered();
    BothAreDispatchedAgain();
    states, events := BothRun();
    states, events := ExtendRun(states, events, Restart({"a", "b"}), Both(Recover, 1, 0, Recover, 1, 0, {}, map[]));
    states, events := ExtendRun(states, events, Dispatch("a"), Both(Recover, 1, 1, Recover, 1, 0, {}, map[]));
    states, events := ExtendRun(states, events, Dispatch("b"), Both(Recover, 1, 1, Recover, 1, 1, {}, map[]));
  }

  lemma AliceHasTwoTasks() returns (states: seq<State>, events: seq<Event>)
    ensures IsRun(states, events) && states[|events|] == Both(Recover, 1, 2, Completed, 1, 0, {}, map[])
    ensures forall e :: e in events ==> !e.Crash?
  {
    BobWakesTheLoop();
    states, events := BothRunAgain();
    states, events :=
      ExtendRun(states, events, Finish("b", Completed), Both(Recover, 1, 1, Completed, 1, 0, {}, map[]));
    states, events := ExtendRun(states, events, Dispatch("a"), Both(Recover, 1, 2, Completed, 1, 0, {}, map[]));
  }

  /** No task raises.  A recovered node keeps its status while its task runs, so the loop, woken by another task,
      starts it a second time; one of the two tasks asks, and the other reports submitted under the pending
      question. */
  lemma TwoTasksDisturbAQuestion() returns (states: seq<State>, events: seq<Event>)
    ensures IsRun(states, events) && forall e :: e in events ==> !e.Crash?
    ensures !QuestionsWait(states[|events|].nodes, states[|events|].book)
  {
    OneTaskAsks();
    SettlementAsks();
    LateReportDisturbs();
    states, events := AliceHasTwoTasks();
    states, events :=
      ExtendRun(states, events, Finish("a", InputRequired), Both(InputRequired, 1, 1, Completed, 1, 0, {}, map[]));
    states, events := ExtendRun(states, events, Settle("a"), Both(InputRequired, 1, 1, Completed, 1, 0, {JOB}, map[]));
    states, events := ExtendRun(states, events, AskHuman(JOB, "q", Input, [], false),
                                Both(InputRequired, 1, 1, Completed, 1, 0, {}, ASKED));
    states, events :=
      ExtendRun(states, events, Progress("a", Submitted), Both(Submitted, 1, 1, Completed, 1, 0, {}, ASKED));
  }

  const REPLANNED := State(map["b" := Drawn([], Pending, 0), "a" := Drawn(["b"], Pending, 0)],
                           3, 0, 0, multiset{}, {JOB}, map[], None)

  lemma AliceIsReplanned()
    ensures Step(OnlyAlice(InputRequired, 1, 0, {JOB}, map[]), Create([BOB, ALICE_AFTER_BOB]), REPLANNED)
  {
    OrderedPlan(OnlyAlice(InputRequired, 1, 0, {JOB}, map[]));
    OrderedNodes();
  }

  lemma OldSettlementAsks()
    ensures var ask := AskHuman(JOB, "q", Input, [], false);
            && Enabled(REPLANNED, ask) && Misfires(REPLANNED, ask) && !StartedInOrder(Next(REPLANNED, ask).nodes)
  {
    assert "b" in REPLANNED.nodes["a"].deps;
    var nodes := Next(REPLANNED, AskHuman(JOB, "q", Input, [], false)).nodes;
    assert nodes["a"].status == InputRequired && nodes["b"].status == Pending && nodes["a"].deps == ["b"];
  }

  lemma AliceWaits() returns (states: seq<State>, events: seq<Event>)
    ensures IsRun(states, events) && |events| == 4 && states[4] == OnlyAlice(InputRequired, 1, 0, {JOB}, map[])
  {
    AliceIsPlannedAndDispatched();
    AliceAsks();
    states, events := [INITIAL], [];
    states, events := ExtendRun(states, events, Create([ALICE]), OnlyAlice(Pending, 0, 0, {}, map[]));
    states, events := ExtendRun(states, events, Dispatch("a"), OnlyAlice(Submitted, 1, 1, {}, map[]));
    states, events := ExtendRun(states, events, Finish("a", InputRequired), OnlyAlice(InputRequired, 1, 0, {}, map[]));
    states, events := ExtendRun(states, events, Settle("a"), OnlyAlice(InputRequired, 1, 0, {JOB}, map[]));
  }

  /** A settlement outlives its plan and asks about a node of the next plan that has to wait for b. */
  lemma StaleSettlementMisfires() returns (states: seq<State>, events: seq<Event>)
    ensures IsRun(states, events) && |events| == 6
    ensures Misfires(states[5], events[5]) && !StartedInOrder(states[6].nodes)
  {
    AliceIsReplanned();
    OldSettlementAsks();
    var ask := AskHuman(JOB, "q", Input, [], false);
    states, events := AliceWaits();
    states, events := ExtendRun(states, events, Create([BOB, ALICE_AFTER_BOB]), REPLANNED);
    states, events := ExtendRun(states, events, ask, Next(REPLANNED, ask));
  }

  /** The user may confirm the cancellation of a node whose task is still alive. */
  ghost predicate Confirming(s: State, k: string) {
    && OnePending(s.book) && s.held.None? && k in s.book && s.book[k].state == Unanswered
    && s.book[k].kind == ConfirmCancel && s.book[k].qtype == Confirm && !Stale(s.nodes, s.book[k])
    && s.book[k].node in s.executing
  }

  lemma Confirmed(s: State, k: string)
    requires Confirming(s, k)
    ensures Next(s, Reply(k, Flag(true)))
            == s.(book := SetState(s.book, k, Resolved), held := Some(Cancelling(s.book[k].node, true)))
  {
  }

  lemma CompletesMeanwhile(s: State, k: string, held: Held)
    requires Confirming(s, k)
    ensures var s1, e := s.(book := SetState(s.book, k, Resolved), held := Some(held)),
                         Finish(s.book[k].node, Completed);
            Enabled(s1, e) && Next(s1, e).nodes == Move(s.nodes, s.book[k].node, Completed)
            && Next(s1, e).held == s1.held && k in Next(s1, e).book && Next(s1, e).book[k].state == Resolved
  {
  }

  /** The user confirms, the remote cancellation is awaited, and meanwhile the node completes: the answer stays
      resolved and the cancellation is refused. */
  lemma ConfirmationCanBeRefused(s: State, k: string)
    requires Confirming(s, k)
    ensures var s1 := Next(s, Reply(k, Flag(true)));
            && Enabled(s1, Finish(s.book[k].node, Completed))
            && var s2 := Next(s1, Finish(s.book[k].node, Completed));
               && Enabled(s2, Proceed)
               && var s3 := Next(s2, Proceed);
                  s3.nodes == s2.nodes && s3.book == s2.book && s3.book[k].state == Resolved
  {
    Confirmed(s, k);
    CompletesMeanwhile(s, k, Cancelling(s.book[k].node, true));
  }
}
