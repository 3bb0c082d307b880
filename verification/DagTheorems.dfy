/** The promises of the DAG runtime, for every run. */
module DagTheorems {
  import opened Common
  import opened Digraph
  import opened Plan
  import opened DagSpec
  import opened DagInvariant
  import opened DagProgress
  import opened DagMachine

  // ---- progress ----

  /** Unstarted planned work with nothing in flight can always be dispatched, unless a planned node failed. */
  lemma NeverDeadlocked(events: seq<Event>)
    requires Possible(events) && !Run(events).stopped
    requires Run(events).rt.running == []
    requires exists id :: PlannedWith(Run(events).rt, id, {Pending, WaitingAssist})
    ensures Dispatchable(Run(events).rt) != [] || exists id :: PlannedWith(Run(events).rt, id, {Failed})
  {
    RunsKeepInv(events);
    if forall id :: !PlannedWith(Run(events).rt, id, {Failed}) {
      DispatchableNonEmpty(Run(events).rt);
    }
  }

  /** An Executor round with this plan input may come next. */
  ghost predicate MayExecute(m: Machine, plan: Option<seq<PlanNode>>) {
    && !m.stopped && m.judging.None?
    && (plan.Some? ==> WellFormed(plan.value, MAX_PLAN_NODES) && AllowedPlan(m.rt, plan.value))
  }

  /** The next round of a run can raise "dispatch made no progress" exactly when, with its plan applied, nothing
      is queued and a task that was planned away is in flight, or nothing is in flight and nothing can start. */
  lemma StallsExactly(events: seq<Event>, plan: Option<seq<PlanNode>>)
    requires Possible(events) && MayExecute(Run(events), plan)
    ensures (exists env :: Enabled(Run(events), Exec(plan, env))
                           && ExecRound(Run(events).rt, plan, env).route == NoProgress)
            <==> CanStall(Planned(Run(events).rt, plan))
  {
    RunsKeepInv(events);
    var m := Run(events);
    if plan.Some? {
      ApplyPlanInv(m.rt, plan.value);
    }
    var rt := Planned(m.rt, plan);
    CanStallExactly(rt);
    if CanStall(rt) {
      var env :| Feasible(rt, env) && Execute(rt, env).route == NoProgress;
      assert Enabled(m, Exec(plan, env)) && ExecRound(m.rt, plan, env).route == NoProgress;
    }
  }

  /** And it does, for one timing of the tasks, exactly when it has to wait and no task that ends is still planned. */
  lemma StallTiming(events: seq<Event>, plan: Option<seq<PlanNode>>, env: Environment)
    requires Possible(events) && Enabled(Run(events), Exec(plan, env))
    requires plan.Some? ==> WellFormed(plan.value, MAX_PLAN_NODES)
    ensures var rt := Planned(Run(events).rt, plan);
            ExecRound(Run(events).rt, plan, env).route == NoProgress <==>
              Waits(rt, env) && forall id :: id in env.second && id in Waiting(rt, env).running ==> !InPlan(rt.plan, id)
  {
    RunsKeepInv(events);
    if plan.Some? {
      ApplyPlanInv(Run(events).rt, plan.value);
    }
    NoProgressExactly(Planned(Run(events).rt, plan), env);
  }

  // ---- finished work ----

  /** A rewrite never makes a started id dispatchable again. */
  lemma RewriteKeepsFinishedWork(rt: Runtime, p: seq<PlanNode>, id: string)
    requires Inv(rt) && AllowedPlan(rt, p) && Fired(rt, id)
    ensures ApplyPlan(rt, p).status[id] == rt.status[id]
    ensures id !in Dispatchable(ApplyPlan(rt, p))
    ensures ApplyPlan(rt, p).outputs == rt.outputs
  {
    ApplyPlanInv(rt, p);
    DispatchableFacts(ApplyPlan(rt, p));
    StatusKept(rt, p, id);
  }

  /** Each id is dispatched at most once, plus once per Helper round that wired assists into it. */
  lemma DispatchBound(events: seq<Event>, id: string)
    requires Possible(events)
    ensures var a := Run(events).audit; Count(a.dispatched, id) <= Count(a.rounds, id) + 1
  {
    RunsKeepInv(events);
    assert DispatchCounted(Run(events).rt, Run(events).audit, id);
  }

  lemma StepKeepsOutputs(m: Machine, e: Event)
    requires MachineInv(m) && Enabled(m, e)
    ensures m.rt.outputs.Keys <= Next(m, e).rt.outputs.Keys
  {
    match e
    case Exec(plan, env) =>
      if plan.Some? && WellFormed(plan.value, MAX_PLAN_NODES) {
        ApplyPlanInv(m.rt, plan.value);
      }
      ExecuteInv(Planned(m.rt, plan), env);
    case HelpWith(mentions) =>
      var cs := Candidates(m.rt, NodeAt(m.rt.plan, m.judging.value), mentions);
      if Help(m.rt, m.judging.value, mentions).1 {
        AddAssistsInv(m.rt, m.judging.value, cs);
      }
  }

  lemma FrontPossible(events: seq<Event>)
    requires Possible(events) && events != []
    ensures Possible(events[..|events| - 1])
  {
  }

  lemma PrefixPossible(events: seq<Event>, i: nat)
    requires Possible(events) && i <= |events|
    ensures Possible(events[..i])
    decreases |events|
  {
    if i == |events| {
      assert events[..i] == events;
    } else {
      var front := events[..|events| - 1];
      assert front[..i] == events[..i];
      FrontPossible(events);
      PrefixPossible(front, i);
    }
  }

  /** The registry of outputs only grows along a run. */
  lemma {:induction false} OutputsOnlyGrow(events: seq<Event>, i: nat)
    requires Possible(events) && i <= |events|
    ensures Possible(events[..i])
    ensures Run(events[..i]).rt.outputs.Keys <= Run(events).rt.outputs.Keys
    decreases |events|
  {
    PrefixPossible(events, i);
    if i == |events| {
      assert events[..i] == events;
    } else {
      var front := events[..|events| - 1];
      OutputsOnlyGrow(front, i);
      assert front[..i] == events[..i];
      RunsKeepInv(front);
      StepKeepsOutputs(Run(front), events[|events| - 1]);
    }
  }

  // ---- assists ----

  /** No run plans more than MAX_PLAN_NODES nodes or nests assists deeper than MAX_ASSIST_DEPTH. */
  lemma GrowthIsBounded(events: seq<Event>)
    requires Possible(events)
    ensures |Run(events).rt.plan| <= MAX_PLAN_NODES
    ensures forall id :: id in Run(events).rt.assistDepth ==> Run(events).rt.assistDepth[id] <= MAX_ASSIST_DEPTH
  {
    RunsKeepInv(events);
  }

  ghost predicate NoPlanner(events: seq<Event>, i: nat) {
    forall k :: i <= k < |events| ==> events[k].HelpWith? || events[k].plan.None?
  }

  /** How many Helper rounds after position i routed to "execute". */
  ghost function ExecuteRounds(events: seq<Event>, i: nat): nat
    requires Possible(events) && i <= |events|
    decreases |events|
  {
    if i == |events| then 0
    else
      var front, e := events[..|events| - 1], events[|events| - 1];
      var m := Run(front);
      ExecuteRounds(front, i) + if e.HelpWith? && Help(m.rt, m.judging.value, e.mentions).1 then 1 else 0
  }

  /** Between two Planner rounds the Executor and the Helper exchange at most
      MAX_PLAN_NODES - |plan| "execute" rounds. */
  lemma {:induction false} ExecuteRoundsAreBounded(events: seq<Event>, i: nat)
    requires Possible(events) && i <= |events| && NoPlanner(events, i)
    ensures Possible(events[..i])
    ensures |Run(events[..i]).rt.plan| + ExecuteRounds(events, i) <= |Run(events).rt.plan| <= MAX_PLAN_NODES
    decreases |events|
  {
    PrefixPossible(events, i);
    GrowthIsBounded(events);
    if i == |events| {
      assert events[..i] == events;
    } else {
      var front, e := events[..|events| - 1], events[|events| - 1];
      assert front[..i] == events[..i];
      assert NoPlanner(front, i) by {
        forall k | i <= k < |front| ensures front[k].HelpWith? || front[k].plan.None? {
          assert front[k] == events[k];
        }
      }
      ExecuteRoundsAreBounded(front, i);
      RunsKeepInv(front);
      var m := Run(front);
      match e
      case Exec(plan, env) => ExecuteInv(m.rt, env);
      case HelpWith(mentions) =>
        if Help(m.rt, m.judging.value, mentions).1 {
          AddAssistsInv(m.rt, m.judging.value, Candidates(m.rt, NodeAt(m.rt.plan, m.judging.value), mentions));
        }
    }
  }

  // ---- hand-back ----

  /** The machine before each event of a run, and after the last one. */
  ghost predicate IsTrace(events: seq<Event>, ms: seq<Machine>) {
    && |ms| == |events| + 1 && ms[0] == INITIAL
    && forall k {:trigger events[k]} :: 0 <= k < |events| ==>
         Enabled(ms[k], events[k]) && ms[k + 1] == Next(ms[k], events[k])
  }

  lemma TraceFront(events: seq<Event>, ms: seq<Machine>)
    requires IsTrace(events, ms) && events != []
    ensures IsTrace(events[..|events| - 1], ms[..|events|])
  {
    forall k | 0 <= k < |events| - 1
      ensures ms[..|events|][k + 1] == Next(ms[..|events|][k], events[..|events| - 1][k])
    {
      assert events[..|events| - 1][k] == events[k];
    }
  }

  /** Traces and possible event sequences are the same runs. */
  lemma {:induction false} TracesAreRuns(events: seq<Event>, ms: seq<Machine>)
    requires IsTrace(events, ms)
    ensures Possible(events) && Run(events) == ms[|events|]
  {
    if events != [] {
      TraceFront(events, ms);
      TracesAreRuns(events[..|events| - 1], ms[..|events|]);
      assert events[|events| - 1] in events;
    }
  }

  lemma TraceExtends(events: seq<Event>, ms: seq<Machine>, e: Event, ms1: seq<Machine>)
    requires IsTrace(events, ms) && Enabled(ms[|events|], e) && ms1 == ms + [Next(ms[|events|], e)]
    ensures IsTrace(events + [e], ms1)
  {
    forall k | 0 <= k <= |events|
      ensures Enabled(ms1[k], (events + [e])[k]) && ms1[k + 1] == Next(ms1[k], (events + [e])[k])
    {
      if k < |events| {
        assert (events + [e])[k] == events[k];
      }
    }
  }

  lemma PossibleEnds(front: seq<Event>, e: Event)
    requires Possible(front + [e])
    ensures Possible(front) && Enabled(Run(front), e)
  {
    assert (front + [e])[..|front|] == front;
  }

  lemma {:induction false} RunsHaveTraces(events: seq<Event>) returns (ms: seq<Machine>)
    requires Possible(events)
    ensures IsTrace(events, ms)
  {
    if events == [] {
      ms := [INITIAL];
    } else {
      var front, e := events[..|events| - 1], events[|events| - 1];
      assert events == front + [e];
      PossibleEnds(front, e);
      var before := RunsHaveTraces(front);
      TracesAreRuns(front, before);
      ms := before + [Next(Run(front), e)];
      TraceExtends(front, before, e, ms);
    }
  }

  lemma {:induction false} TracesKeepInv(events: seq<Event>, ms: seq<Machine>, k: nat)
    requires IsTrace(events, ms) && k < |ms|
    ensures MachineInv(ms[k])
  {
    if k == 0 {
      InitialInv();
    } else {
      TracesKeepInv(events, ms, k - 1);
      StepKeepsInv(ms[k - 1], events[k - 1]);
    }
  }

  /** What the Executor sends in this step. */
  ghost function SentBy(m: Machine, e: Event): seq<Sent> {
    if e.Exec? then ExecRound(m.rt, e.plan, e.env).sent else []
  }

  /** The step is a Helper round that wires the assist into the node. */
  ghost predicate Wires(m: Machine, e: Event, node: string, assist: string) {
    && e.HelpWith? && m.judging == Some(node) && Help(m.rt, node, e.mentions).1
    && assist in IdSet(Help(m.rt, node, e.mentions).0.plan) - IdSet(m.rt.plan)
  }

  /** The step does not replan, or its plan keeps the node and keeps the assist or comes after its output. */
  ghost predicate PlanKeeps(m: Machine, e: Event, node: string, assist: string) {
    e.Exec? && e.plan.Some? ==>
      && WellFormed(e.plan.value, MAX_PLAN_NODES) && InPlan(e.plan.value, node)
      && (InPlan(e.plan.value, assist) || assist in m.rt.outputs)
  }

  /** The step keeps both planned and sends the node no message. */
  ghost predicate Spares(m: Machine, e: Event, node: string, assist: string) {
    PlanKeeps(m, e, node, assist) && node !in SentIds(SentBy(m, e))
  }

  ghost predicate Owes(m: Machine, node: string, assist: string) {
    assist in WiredTo(m.audit.wired, node)
  }

  lemma PlanKeepsDebt(m: Machine, e: Event, node: string, assist: string)
    requires MachineInv(m) && Owes(m, node, assist) && e.Exec? && PlanKeeps(m, e, node, assist)
    ensures assist in WiredTo(PlannedWires(m, e.plan), node)
  {
    assert WiresOk(m.rt, m.audit.wired, node);
  }

  lemma WiringMakesDebt(m: Machine, e: Event, node: string, assist: string)
    requires Enabled(m, e) && Wires(m, e, node, assist)
    ensures Owes(Next(m, e), node, assist)
  {
  }

  lemma StepKeepsDebt(m: Machine, e: Event, node: string, assist: string)
    requires MachineInv(m) && Enabled(m, e) && Owes(m, node, assist) && Spares(m, e, node, assist)
    ensures Owes(Next(m, e), node, assist)
  {
    if e.Exec? {
      PlanKeepsDebt(m, e, node, assist);
    }
  }

  lemma DebtLastsOneMore(events: seq<Event>, ms: seq<Machine>, k: nat, node: string, assist: string)
    requires IsTrace(events, ms) && k < |events| && Owes(ms[k], node, assist) && Spares(ms[k], events[k], node, assist)
    ensures Owes(ms[k + 1], node, assist)
  {
    TracesKeepInv(events, ms, k);
    StepKeepsDebt(ms[k], events[k], node, assist);
  }

  lemma {:induction false} DebtLasts(events: seq<Event>, ms: seq<Machine>, i: nat, k: nat, node: string, assist: string)
    requires IsTrace(events, ms) && i < k <= |events| && Wires(ms[i], events[i], node, assist)
    requires forall x {:trigger events[x]} :: i < x < k ==> Spares(ms[x], events[x], node, assist)
    ensures Owes(ms[k], node, assist)
  {
    if k == i + 1 {
      WiringMakesDebt(ms[i], events[i], node, assist);
    } else {
      DebtLasts(events, ms, i, k - 1, node, assist);
      DebtLastsOneMore(events, ms, k - 1, node, assist);
    }
  }

  lemma AtDispatchOk(rt: Runtime, env: Environment)
    requires Inv(rt)
    ensures PlanOk(AtDispatch(rt, env))
  {
    CollectInv(rt, env.first);
    OutcomeFacts(Collect(rt, env.first), []);
  }

  /** When a waiting node is dispatched, every assist it is still owed has an output and the message carries it. */
  lemma OwedAreSent(m: Machine, plan: Option<seq<PlanNode>>, env: Environment, s: Sent, assist: string)
    requires MachineInv(m) && Enabled(m, Exec(plan, env))
    requires plan.Some? ==> WellFormed(plan.value, MAX_PLAN_NODES)
    requires s in ExecRound(m.rt, plan, env).sent
    requires assist in WiredTo(PlannedWires(m, plan), s.id)
    ensures var rtd := AtDispatch(Planned(m.rt, plan), env);
            assist in rtd.outputs && DepSection(assist, rtd.outputs[assist]) in s.sections
  {
    var rt1 := Planned(m.rt, plan);
    assert WiresOk(m.rt, m.audit.wired, s.id);
    if plan.Some? {
      ApplyPlanInv(m.rt, plan.value);
      ApplyPlanKeeps(m.rt, m.audit.wired, plan.value, s.id);
    }
    ExecuteSent(rt1, env);
    AtDispatchOk(rt1, env);
    DispatchableFacts(AtDispatch(rt1, env));
  }

  /** Hand-back: once a Helper round has wired an assist into a node, and as long as every later plan keeps the
      node and keeps the assist or comes after its output, the next message to the node is sent only when the
      assist has an output, and contains it. */
  lemma HandBack(events: seq<Event>, ms: seq<Machine>, i: nat, j: nat, s: Sent, assist: string)
    requires IsTrace(events, ms) && i < j < |events| && Wires(ms[i], events[i], s.id, assist)
    requires forall k {:trigger events[k]} :: i < k < j ==> Spares(ms[k], events[k], s.id, assist)
    requires PlanKeeps(ms[j], events[j], s.id, assist) && s in SentBy(ms[j], events[j])
    ensures var rtd := AtDispatch(Planned(ms[j].rt, events[j].plan), events[j].env);
            assist in rtd.outputs && DepSection(assist, rtd.outputs[assist]) in s.sections
  {
    DebtLasts(events, ms, i, j, s.id, assist);
    TracesKeepInv(events, ms, j);
    PlanKeepsDebt(ms[j], events[j], s.id, assist);
    OwedAreSent(ms[j], events[j].plan, events[j].env, s, assist);
  }
}
