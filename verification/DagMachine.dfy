/** Whole runs of the orchestrator: Planner, Executor and Helper rounds in any order the workflow
    graph allows, with arbitrary plans, mentions and completion orders. */
module DagMachine {
  import opened Common
  import opened Digraph
  import opened Plan
  import opened DagSpec
  import opened DagInvariant
  import opened DagProgress

  /** Bookkeeping about the run, not part of the program: how often each id was dispatched, in how many
      Helper rounds assists were wired into it, and which assists a waiting node still owes a dispatch to. */
  datatype Audit = Audit(dispatched: map<string, nat>, rounds: map<string, nat>, wired: map<string, set<string>>)

  datatype Machine = Machine(rt: Runtime, judging: Option<string>, stopped: bool, audit: Audit)

  datatype Event =
    | Exec(plan: Option<seq<PlanNode>>, env: Environment)
    | HelpWith(mentions: seq<(string, string)>)

  const INITIAL := Machine(EMPTY, None, false, Audit(map[], map[], map[]))

  function Count(m: map<string, nat>, id: string): nat {
    if id in m then m[id] else 0
  }

  function Bump(m: map<string, nat>, ids: set<string>): map<string, nat> {
    map id | id in m.Keys + ids :: Count(m, id) + if id in ids then 1 else 0
  }

  function WiredTo(w: map<string, set<string>>, id: string): set<string> {
    if id in w then w[id] else {}
  }

  /** A rewrite keeps the debt of the nodes it keeps, for the assists it keeps or that already delivered. */
  function KeptWires(rt: Runtime, w: map<string, set<string>>, p: seq<PlanNode>): map<string, set<string>> {
    map id | id in w && InPlan(rt.plan, id) && InPlan(p, id) :: set a | a in w[id] && (InPlan(p, a) || a in rt.outputs)
  }

  ghost function Planned(rt: Runtime, plan: Option<seq<PlanNode>>): Runtime {
    if plan.Some? && WellFormed(plan.value, MAX_PLAN_NODES) then ApplyPlan(rt, plan.value) else rt
  }

  ghost function PlannedWires(m: Machine, plan: Option<seq<PlanNode>>): map<string, set<string>> {
    if plan.Some? && WellFormed(plan.value, MAX_PLAN_NODES) then KeptWires(m.rt, m.audit.wired, plan.value)
    else m.audit.wired
  }

  ghost function ExecRound(rt: Runtime, plan: Option<seq<PlanNode>>, env: Environment): Round {
    if plan.Some? && !WellFormed(plan.value, MAX_PLAN_NODES) then Round(rt, BadPlan, [])
    else Execute(Planned(rt, plan), env)
  }

  function SentIds(sent: seq<Sent>): set<string> {
    set s | s in sent :: s.id
  }

  ghost function Next(m: Machine, e: Event): Machine
    requires Enabled(m, e)
  {
    match e
    case Exec(plan, env) =>
      var r := ExecRound(m.rt, plan, env);
      var ids, w := SentIds(r.sent), PlannedWires(m, plan);
      Machine(r.rt,
              if r.route.Judge? then Some(r.route.id) else None,
              !r.route.Judge?,
              Audit(Bump(m.audit.dispatched, ids), m.audit.rounds, map id | id in w && id !in ids :: w[id]))
    case HelpWith(mentions) =>
      var id := m.judging.value;
      var (rt1, execute) := Help(m.rt, id, mentions);
      var audit1 := if execute
                    then Audit(m.audit.dispatched, Bump(m.audit.rounds, {id}),
                               m.audit.wired[id := WiredTo(m.audit.wired, id) + (IdSet(rt1.plan) - IdSet(m.rt.plan))])
                    else m.audit;
      Machine(rt1, None, false, audit1)
  }

  /** The workflow graph alternates Executor and Helper rounds; a plan may come before any Executor round. */
  ghost predicate Enabled(m: Machine, e: Event) {
    && !m.stopped
    && match e
       case Exec(plan, env) =>
         && m.judging.None?
         && (plan.Some? && WellFormed(plan.value, MAX_PLAN_NODES) ==> AllowedPlan(m.rt, plan.value))
         && Feasible(Planned(m.rt, plan), env)
       case HelpWith(mentions) => m.judging.Some?
  }

  ghost predicate Possible(events: seq<Event>)
    decreases |events|, 0
  {
    events != [] ==>
      && Possible(events[..|events| - 1])
      && Enabled(Run(events[..|events| - 1]), events[|events| - 1])
  }

  ghost function Run(events: seq<Event>): Machine
    requires Possible(events)
    decreases |events|, 1
  {
    if events == [] then INITIAL else Next(Run(events[..|events| - 1]), events[|events| - 1])
  }

  // ---- the invariant ----

  ghost predicate DispatchCounted(rt: Runtime, a: Audit, id: string) {
    Count(a.dispatched, id) == Count(a.rounds, id) + if Fired(rt, id) then 1 else 0
  }

  /** Assists owed to id are dependencies of a waiting planned node. */
  ghost predicate WiresOk(rt: Runtime, w: map<string, set<string>>, id: string) {
    WiredTo(w, id) != {} ==>
      && InPlan(rt.plan, id) && id in rt.status && rt.status[id] == WaitingAssist
      && forall a :: a in WiredTo(w, id) ==> a in NodeAt(rt.plan, id).deps
  }

  ghost predicate MachineInv(m: Machine) {
    && Core(m.rt)
    && (!m.stopped ==> RunningOk(m.rt))
    && (m.judging.Some? ==> Judged(m.rt, m.judging.value))
    && (forall id :: DispatchCounted(m.rt, m.audit, id))
    && (forall id :: WiresOk(m.rt, m.audit.wired, id))
  }

  lemma InitialInv()
    ensures MachineInv(INITIAL)
  {
    assert OpenEdges(EMPTY) == {};
    RankedIsAcyclic({}, map[]);
  }

  // ---- Executor rounds ----

  /** Where a round that dispatches takes its messages from. */
  ghost function AtDispatch(rt: Runtime, env: Environment): Runtime {
    Outcome(Collect(rt, env.first), []).rt
  }

  lemma MessageIds(rt: Runtime, ids: seq<string>)
    requires forall id :: id in ids ==> InPlan(rt.plan, id)
    ensures SentIds(Messages(rt, ids)) == set id | id in ids
    ensures forall s :: s in Messages(rt, ids) ==> s.id in ids && s == Message(rt, s.id)
  {
    var ms := Messages(rt, ids);
    forall id ensures id in SentIds(ms) <==> id in ids {
      if id in ids {
        var k :| 0 <= k < |ids| && ids[k] == id;
        assert ms[k] in ms;
      }
    }
  }

  /** What is true of every id after a round that did not reject its plan. */
  ghost predicate RoundEffect(rt: Runtime, r: Round, id: string) {
    && (id in SentIds(r.sent) ==> !Fired(rt, id))
    && (Fired(r.rt, id) <==> Fired(rt, id) || id in SentIds(r.sent))
    && (id in rt.status && rt.status[id] == WaitingAssist && id !in SentIds(r.sent) ==>
          id in r.rt.status && r.rt.status[id] == WaitingAssist)
  }

  lemma ExecuteInv(rt: Runtime, env: Environment)
    requires Inv(rt)
    ensures var r := Execute(rt, env);
            && Core(r.rt) && (!r.route.Abort? ==> Inv(r.rt))
            && (r.route.Judge? ==> Judged(r.rt, r.route.id))
            && r.rt.plan == rt.plan && r.rt.assistSeq == rt.assistSeq
            && rt.outputs.Keys <= r.rt.outputs.Keys
  {
    CollectInv(rt, env.first);
    var rt1 := Collect(rt, env.first);
    OutcomeFacts(rt1, []);
    if rt1.doneRequested {
      CollectInv(rt1, env.drain);
    } else if Outcome(rt1, []).route == NoProgress {
      DispatchInv(AtDispatch(rt, env), env);
    }
  }

  lemma DispatchInv(rt: Runtime, env: Environment)
    requires Inv(rt)
    ensures var r := DispatchAndWait(rt, env);
            && Core(r.rt) && (!r.route.Abort? ==> Inv(r.rt))
            && (r.route.Judge? ==> Judged(r.rt, r.route.id))
            && r.rt.plan == rt.plan && r.rt.assistSeq == rt.assistSeq
            && rt.outputs.Keys <= r.rt.outputs.Keys
  {
    DispatchableFacts(rt);
    WaitingFacts(rt);
    var rt1 := StartAll(rt, Dispatchable(rt));
    CollectInv(rt1, env.second);
    OutcomeFacts(Collect(rt1, env.second), Messages(rt, Dispatchable(rt)));
  }

  /** Messages are built from the state at dispatch, for startable nodes only. */
  lemma ExecuteSent(rt: Runtime, env: Environment)
    requires Inv(rt)
    ensures var rtd := AtDispatch(rt, env);
            && rtd.plan == rt.plan && rt.outputs.Keys <= rtd.outputs.Keys && Inv(rt)
            && forall s :: s in Execute(rt, env).sent ==>
                 s.id in Dispatchable(rtd) && InPlan(rt.plan, s.id) && s == Message(rtd, s.id)
  {
    CollectInv(rt, env.first);
    var rt1 := Collect(rt, env.first);
    OutcomeFacts(rt1, []);
    if !rt1.doneRequested && Outcome(rt1, []).route == NoProgress {
      SentAtDispatch(AtDispatch(rt, env), env);
    }
  }

  lemma SentAtDispatch(rt: Runtime, env: Environment)
    requires Inv(rt)
    ensures forall s :: s in DispatchAndWait(rt, env).sent ==>
              s.id in Dispatchable(rt) && InPlan(rt.plan, s.id) && s == Message(rt, s.id)
  {
    DispatchableFacts(rt);
    var ids := Dispatchable(rt);
    MessageIds(rt, ids);
    OutcomeSends(Collect(StartAll(rt, ids), env.second), Messages(rt, ids));
  }

  lemma OutcomeSends(rt: Runtime, sent: seq<Sent>)
    ensures Outcome(rt, sent).sent == sent
  {
  }

  lemma ExecuteEffect(rt: Runtime, env: Environment, id: string)
    requires Inv(rt)
    ensures RoundEffect(rt, Execute(rt, env), id)
  {
    CollectInv(rt, env.first);
    var rt1 := Collect(rt, env.first);
    OutcomeFacts(rt1, []);
    if rt1.doneRequested {
      CollectInv(rt1, env.drain);
    } else if Outcome(rt1, []).route == NoProgress {
      DispatchEffect(AtDispatch(rt, env), env, id);
    }
  }

  lemma DispatchEffect(rt: Runtime, env: Environment, id: string)
    requires Inv(rt)
    ensures RoundEffect(rt, DispatchAndWait(rt, env), id)
  {
    DispatchableFacts(rt);
    StartEffect(rt, id);
    var ids := Dispatchable(rt);
    MessageIds(rt, ids);
    var rt1 := StartAll(rt, ids);
    CollectInv(rt1, env.second);
    OutcomeFacts(Collect(rt1, env.second), Messages(rt, ids));
  }

  lemma StartEffect(rt: Runtime, id: string)
    requires Inv(rt)
    ensures var ids, rt1 := Dispatchable(rt), StartAll(rt, Dispatchable(rt));
            && Inv(rt1)
            && (id in ids ==> !Fired(rt, id))
            && (Fired(rt1, id) <==> Fired(rt, id) || id in ids)
            && (id in rt.status && rt.status[id] == WaitingAssist && id !in ids ==>
                  id in rt1.status && rt1.status[id] == WaitingAssist && id !in rt1.running)
  {
    DispatchableFacts(rt);
    WaitingFacts(rt);
    assert id in Dispatchable(rt) ==> Startable(rt, NodeAt(rt.plan, id));
  }

  lemma ApplyPlanKeeps(rt: Runtime, w: map<string, set<string>>, p: seq<PlanNode>, id: string)
    requires Inv(rt) && AllowedPlan(rt, p) && WiresOk(rt, w, id)
    ensures Fired(ApplyPlan(rt, p), id) <==> Fired(rt, id)
    ensures WiresOk(ApplyPlan(rt, p), KeptWires(rt, w, p), id)
  {
    if WiredTo(KeptWires(rt, w, p), id) != {} {
      MergeKeepsWires(rt, w, p, id);
    }
  }

  /** A kept waiting node keeps the dependencies it owes. */
  lemma MergeKeepsWires(rt: Runtime, w: map<string, set<string>>, p: seq<PlanNode>, id: string)
    requires Inv(rt) && UniqueIds(p) && WiresOk(rt, w, id) && WiredTo(KeptWires(rt, w, p), id) != {}
    ensures var rt1 := ApplyPlan(rt, p);
            InPlan(rt1.plan, id) && forall a :: a in WiredTo(KeptWires(rt, w, p), id) ==> a in NodeAt(rt1.plan, id).deps
  {
    var rt1, w1 := ApplyPlan(rt, p), KeptWires(rt, w, p);
    if WiredTo(w1, id) != {} {
      MergedIds(rt, p);
      var n := NodeAt(rt1.plan, id);
      var i :| 0 <= i < |p| && rt1.plan[i] == n;
      assert n == MergeNode(rt, IdSet(p), p[i]);
      forall a | a in WiredTo(w1, id) ensures a in n.deps {
        assert a in WiredTo(w, id) && a in NodeAt(rt.plan, id).deps;
        assert a in p[i].deps + NodeAt(rt.plan, id).deps;
      }
    }
  }

  lemma ExecKeepsInv(m: Machine, plan: Option<seq<PlanNode>>, env: Environment)
    requires MachineInv(m) && Enabled(m, Exec(plan, env))
    requires plan.Some? ==> WellFormed(plan.value, MAX_PLAN_NODES)
    ensures MachineInv(Next(m, Exec(plan, env)))
  {
    var m1 := Next(m, Exec(plan, env));
    var rt1 := Planned(m.rt, plan);
    if plan.Some? {
      ApplyPlanInv(m.rt, plan.value);
    }
    ExecuteInv(rt1, env);
    forall id ensures DispatchCounted(m1.rt, m1.audit, id) && WiresOk(m1.rt, m1.audit.wired, id) {
      ExecKeepsAudit(m, plan, env, id);
    }
  }

  lemma ExecKeepsAudit(m: Machine, plan: Option<seq<PlanNode>>, env: Environment, id: string)
    requires MachineInv(m) && Enabled(m, Exec(plan, env))
    requires plan.Some? ==> WellFormed(plan.value, MAX_PLAN_NODES)
    ensures var m1 := Next(m, Exec(plan, env));
            DispatchCounted(m1.rt, m1.audit, id) && WiresOk(m1.rt, m1.audit.wired, id)
  {
    var rt1, w1 := Planned(m.rt, plan), PlannedWires(m, plan);
    assert DispatchCounted(m.rt, m.audit, id) && WiresOk(m.rt, m.audit.wired, id);
    if plan.Some? {
      ApplyPlanInv(m.rt, plan.value);
      ApplyPlanKeeps(m.rt, m.audit.wired, plan.value, id);
    }
    ExecuteInv(rt1, env);
    ExecuteEffect(rt1, env, id);
  }

  lemma RejectedPlanKeepsInv(m: Machine, plan: seq<PlanNode>, env: Environment)
    requires MachineInv(m) && Enabled(m, Exec(Some(plan), env)) && !WellFormed(plan, MAX_PLAN_NODES)
    ensures MachineInv(Next(m, Exec(Some(plan), env)))
  {
    var m1 := Next(m, Exec(Some(plan), env));
    forall id ensures DispatchCounted(m1.rt, m1.audit, id) && WiresOk(m1.rt, m1.audit.wired, id) {
      assert DispatchCounted(m.rt, m.audit, id) && WiresOk(m.rt, m.audit.wired, id);
    }
  }

  // ---- Helper rounds ----

  /** Adding assists one by one keeps the invariant, the parent's place and what it already owed. */
  lemma {:induction false} AddAssistsInv(rt: Runtime, parent: string, cs: seq<(string, string)>)
    requires Inv(rt) && Judged(rt, parent) && CanAddAssists(rt, parent, |cs|)
    ensures var rt1 := AddAssists(rt, parent, cs);
            && Inv(rt1) && InPlan(rt1.plan, parent)
            && |rt1.plan| == |rt.plan| + |cs| && rt1.assistSeq == rt.assistSeq + |cs|
            && rt1.outputs == rt.outputs && rt1.completions == rt.completions
            && rt1.doneRequested == rt.doneRequested && rt1.running == rt.running
            && IdSet(rt.plan) <= IdSet(rt1.plan)
            && (parent in rt1.status && rt1.status[parent] == if cs == [] then Completed else WaitingAssist)
            && DepthOf(rt1, parent) == DepthOf(rt, parent)
  {
    if cs != [] {
      var front, c := cs[..|cs| - 1], cs[|cs| - 1];
      AddAssistsInv(rt, parent, front);
      var rt1 := AddAssists(rt, parent, front);
      AddAssistInv(rt1, parent, c.0, c.1);
      AddAssistFrame(rt1, parent, c.0, c.1);
      AddAssistIds(rt1, parent, c.0, c.1);
    }
  }

  lemma AddAssistFrame(rt: Runtime, parent: string, agent: string, instruction: string)
    requires Inv(rt) && InPlan(rt.plan, parent)
    ensures var rt1 := AddAssist(rt, parent, agent, instruction);
            && |rt1.plan| == |rt.plan| + 1 && rt1.assistSeq == rt.assistSeq + 1
            && rt1.outputs == rt.outputs && rt1.completions == rt.completions
            && rt1.doneRequested == rt.doneRequested && rt1.running == rt.running
            && parent in rt1.status && rt1.status[parent] == WaitingAssist
            && DepthOf(rt1, parent) == DepthOf(rt, parent)
  {
    AssistIdIsFresh(rt, parent);
  }

  lemma AddAssistIds(rt: Runtime, parent: string, agent: string, instruction: string)
    requires InPlan(rt.plan, parent)
    ensures IdSet(AddAssist(rt, parent, agent, instruction).plan)
              == IdSet(rt.plan) + {AssistId(parent, rt.assistSeq + 1)}
  {
    var rt1 := AddAssist(rt, parent, agent, instruction);
    forall id ensures id in IdSet(rt1.plan) <==> id in IdSet(rt.plan) + {AssistId(parent, rt.assistSeq + 1)} {
      if id in IdSet(rt1.plan) {
        var k :| 0 <= k < |rt1.plan| && rt1.plan[k].id == id;
        assert k < |rt.plan| ==> rt.plan[k].id == id && rt.plan[k] in rt.plan;
      }
      if id in IdSet(rt.plan) {
        var k :| 0 <= k < |rt.plan| && rt.plan[k].id == id;
        assert rt1.plan[k].id == id && rt1.plan[k] in rt1.plan;
      }
      assert rt1.plan[|rt.plan|] in rt1.plan;
    }
  }

  /** Wiring leaves every other node alone and only adds dependencies to the parent. */
  lemma AddAssistNodes(rt: Runtime, parent: string, agent: string, instruction: string, id: string)
    requires PlanOk(rt) && IdsOk(rt) && InPlan(rt.plan, parent) && |rt.plan| < MAX_PLAN_NODES && InPlan(rt.plan, id)
    ensures var rt1 := AddAssist(rt, parent, agent, instruction);
            && InPlan(rt1.plan, id)
            && (id != parent ==> NodeAt(rt1.plan, id) == NodeAt(rt.plan, id))
            && (id == parent ==>
                forall d :: d in NodeAt(rt.plan, id).deps || d == AssistId(parent, rt.assistSeq + 1) ==>
                  d in NodeAt(rt1.plan, id).deps)
  {
    var rt1 := AddAssist(rt, parent, agent, instruction);
    AddAssistPlanOk(rt, parent, agent, instruction);
    var i := IndexOf(rt.plan, id);
    assert rt1.plan[i].id == id && rt1.plan[i] in rt1.plan;
    UniqueNode(rt1.plan, rt1.plan[i], NodeAt(rt1.plan, id));
  }

  /** A dependency of id, as far as id is planned. */
  ghost predicate DependsOn(rt: Runtime, id: string, d: string) {
    InPlan(rt.plan, id) && d in NodeAt(rt.plan, id).deps
  }

  lemma AddAssistStep(rt: Runtime, parent: string, c: (string, string), id: string)
    requires Inv(rt) && InPlan(rt.plan, parent) && |rt.plan| < MAX_PLAN_NODES
    ensures var rt1 := AddAssist(rt, parent, c.0, c.1);
            && (InPlan(rt.plan, id) ==> InPlan(rt1.plan, id))
            && (id != parent && id in rt.status ==> id in rt1.status && rt1.status[id] == rt.status[id])
            && (Fired(rt1, id) <==> Fired(rt, id) && id != parent)
            && IdSet(rt1.plan) == IdSet(rt.plan) + {AssistId(parent, rt.assistSeq + 1)}
            && DependsOn(rt1, parent, AssistId(parent, rt.assistSeq + 1))
            && forall d :: DependsOn(rt, id, d) ==> DependsOn(rt1, id, d)
  {
    AssistIdIsFresh(rt, parent);
    AddAssistIds(rt, parent, c.0, c.1);
    AddAssistNodes(rt, parent, c.0, c.1, parent);
    if InPlan(rt.plan, id) {
      AddAssistNodes(rt, parent, c.0, c.1, id);
    }
  }

  /** Only the parent changes status; no dependency is lost and every new assist is one of the parent's. */
  lemma {:induction false} AddAssistsEffect(rt: Runtime, parent: string, cs: seq<(string, string)>, id: string)
    requires Inv(rt) && Judged(rt, parent) && CanAddAssists(rt, parent, |cs|)
    ensures var rt1 := AddAssists(rt, parent, cs);
            && (InPlan(rt.plan, id) ==> InPlan(rt1.plan, id))
            && (id != parent && id in rt.status ==> id in rt1.status && rt1.status[id] == rt.status[id])
            && (Fired(rt1, id) <==> Fired(rt, id) && (id != parent || cs == []))
            && (forall d :: DependsOn(rt, id, d) ==> DependsOn(rt1, id, d))
            && (forall d :: d in IdSet(rt1.plan) && d !in IdSet(rt.plan) ==> DependsOn(rt1, parent, d))
  {
    if cs != [] {
      var front, c := cs[..|cs| - 1], cs[|cs| - 1];
      AddAssistsInv(rt, parent, front);
      AddAssistsEffect(rt, parent, front, id);
      var rt1 := AddAssists(rt, parent, front);
      AddAssistStep(rt1, parent, c, id);
      AddAssistStep(rt1, parent, c, parent);
    }
  }

  lemma HelpKeepsWires(m: Machine, parent: string, cs: seq<(string, string)>, id: string)
    requires MachineInv(m) && m.judging == Some(parent) && !m.stopped
    requires CanAddAssists(m.rt, parent, |cs|) && cs != []
    ensures var rt1 := AddAssists(m.rt, parent, cs);
            var added := IdSet(rt1.plan) - IdSet(m.rt.plan);
            WiresOk(rt1, m.audit.wired[parent := WiredTo(m.audit.wired, parent) + added], id)
  {
    var rt1 := AddAssists(m.rt, parent, cs);
    assert WiresOk(m.rt, m.audit.wired, id);
    AddAssistsInv(m.rt, parent, cs);
    AddAssistsEffect(m.rt, parent, cs, id);
    forall a | a in WiredTo(m.audit.wired, id) ensures DependsOn(rt1, id, a) {
      assert DependsOn(m.rt, id, a);
    }
  }

  lemma HelpKeepsRecords(m: Machine, mentions: seq<(string, string)>, id: string)
    requires MachineInv(m) && Enabled(m, HelpWith(mentions)) && Help(m.rt, m.judging.value, mentions).1
    ensures var m1 := Next(m, HelpWith(mentions));
            DispatchCounted(m1.rt, m1.audit, id) && WiresOk(m1.rt, m1.audit.wired, id)
  {
    var parent := m.judging.value;
    var cs := Candidates(m.rt, NodeAt(m.rt.plan, parent), mentions);
    assert DispatchCounted(m.rt, m.audit, id);
    AddAssistsEffect(m.rt, parent, cs, id);
    HelpKeepsWires(m, parent, cs, id);
  }

  lemma RefusedHelpKeepsRecords(m: Machine, mentions: seq<(string, string)>, id: string)
    requires MachineInv(m) && Enabled(m, HelpWith(mentions)) && !Help(m.rt, m.judging.value, mentions).1
    ensures var m1 := Next(m, HelpWith(mentions));
            DispatchCounted(m1.rt, m1.audit, id) && WiresOk(m1.rt, m1.audit.wired, id)
  {
    assert DispatchCounted(m.rt, m.audit, id) && WiresOk(m.rt, m.audit.wired, id);
  }

  lemma HelpKeepsInv(m: Machine, mentions: seq<(string, string)>)
    requires MachineInv(m) && Enabled(m, HelpWith(mentions))
    ensures MachineInv(Next(m, HelpWith(mentions)))
  {
    var m1, parent := Next(m, HelpWith(mentions)), m.judging.value;
    if Help(m.rt, parent, mentions).1 {
      AddAssistsInv(m.rt, parent, Candidates(m.rt, NodeAt(m.rt.plan, parent), mentions));
      forall id ensures DispatchCounted(m1.rt, m1.audit, id) && WiresOk(m1.rt, m1.audit.wired, id) {
        HelpKeepsRecords(m, mentions, id);
      }
    } else {
      forall id ensures DispatchCounted(m1.rt, m1.audit, id) && WiresOk(m1.rt, m1.audit.wired, id) {
        RefusedHelpKeepsRecords(m, mentions, id);
      }
    }
  }

  lemma StepKeepsInv(m: Machine, e: Event)
    requires MachineInv(m) && Enabled(m, e)
    ensures MachineInv(Next(m, e))
  {
    match e
    case Exec(plan, env) =>
      if plan.Some? && !WellFormed(plan.value, MAX_PLAN_NODES) {
        RejectedPlanKeepsInv(m, plan.value, env);
      } else {
        ExecKeepsInv(m, plan, env);
      }
    case HelpWith(mentions) => HelpKeepsInv(m, mentions);
  }

  /** Every reachable state satisfies the invariant. */
  lemma {:induction false} RunsKeepInv(events: seq<Event>)
    requires Possible(events)
    ensures MachineInv(Run(events))
  {
    if events == [] {
      InitialInv();
    } else {
      RunsKeepInv(events[..|events| - 1]);
      StepKeepsInv(Run(events[..|events| - 1]), events[|events| - 1]);
    }
  }
}
