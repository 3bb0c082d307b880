/** What every transition of a run keeps. */
module DagInvariant {
  import opened Common
  import opened Digraph
  import opened Plan
  import opened DagSpec
  import Ids

  /** Dependencies among ids that have no output yet.  A merged plan may be cyclic; this part never is. */
  ghost function OpenEdges(rt: Runtime): Graph {
    set n, d | n in rt.plan && d in n.deps && n.id !in rt.outputs && d !in rt.outputs :: (n.id, d)
  }

  /** id is what AddAssist will generate at some later sequence number. */
  ghost predicate FutureAssistId(id: string, k: nat) {
    exists p, j: nat :: j > k && id == AssistId(p, j)
  }

  ghost predicate DepKnown(rt: Runtime, d: string) {
    d in IdSet(rt.plan) || d in rt.outputs
  }

  ghost predicate PlanOk(rt: Runtime) {
    && |rt.plan| <= MAX_PLAN_NODES
    && UniqueIds(rt.plan)
    && (forall n :: n in rt.plan ==> n.id in rt.status)
    && (forall n, d {:trigger n in rt.plan, d in n.deps} :: n in rt.plan && d in n.deps ==> DepKnown(rt, d))
  }

  ghost predicate StatusOk(rt: Runtime) {
    forall id :: id in rt.status ==>
      && rt.status[id] != Cancelled
      && (rt.status[id] in {Completed, WaitingAssist} ==> id in rt.outputs)
  }

  ghost predicate RunningOk(rt: Runtime) {
    && Distinct(rt.running)
    && forall id :: id in rt.running <==> id in rt.status && rt.status[id] == Running
  }

  ghost predicate RecordOk(rt: Runtime, c: Completion) {
    && c.id in rt.status
    && (c.result.Output? ==> rt.status[c.id] == Completed && c.id in rt.outputs && rt.outputs[c.id] == c.result.text)
    && (c.result.Error? ==> rt.status[c.id] == Failed)
  }

  ghost predicate QueueOk(rt: Runtime) {
    && (forall i, j :: 0 <= i < j < |rt.completions| ==> rt.completions[i].id != rt.completions[j].id)
    && (forall c :: c in rt.completions ==> RecordOk(rt, c))
  }

  ghost predicate IdsOk(rt: Runtime) {
    forall id :: id in rt.status ==> !FutureAssistId(id, rt.assistSeq)
  }

  ghost predicate DepthOk(rt: Runtime) {
    forall id :: id in rt.assistDepth ==> rt.assistDepth[id] <= MAX_ASSIST_DEPTH
  }

  /** All of the invariant but the in-flight list, which an abort empties. */
  ghost predicate Core(rt: Runtime) {
    && PlanOk(rt) && StatusOk(rt) && QueueOk(rt) && IdsOk(rt) && DepthOk(rt)
    && Acyclic(OpenEdges(rt))
  }

  ghost predicate Inv(rt: Runtime) {
    Core(rt) && RunningOk(rt)
  }

  /** id has been dispatched and not handed assists since. */
  ghost predicate Fired(rt: Runtime, id: string) {
    id in rt.status && rt.status[id] in {Running, Completed, Failed}
  }

  /** A node that was handed to the Helper. */
  ghost predicate Judged(rt: Runtime, id: string) {
    && InPlan(rt.plan, id) && id in rt.status && rt.status[id] == Completed
    && forall c :: c in rt.completions ==> c.id != id
  }

  /** What is asked of a Planner rewrite: it validates, and it does not name assists that do not exist yet. */
  ghost predicate AllowedPlan(rt: Runtime, p: seq<PlanNode>) {
    && WellFormed(p, MAX_PLAN_NODES)
    && forall n :: n in p ==> !FutureAssistId(n.id, rt.assistSeq)
  }

  // ---- ApplyPlan ----

  lemma MergedIds(rt: Runtime, p: seq<PlanNode>)
    ensures IdSet(ApplyPlan(rt, p).plan) == IdSet(p)
    ensures UniqueIds(p) ==> UniqueIds(ApplyPlan(rt, p).plan)
  {
    var q := ApplyPlan(rt, p).plan;
    forall i | 0 <= i < |p| ensures q[i].id == p[i].id {}
    forall id ensures id in IdSet(q) <==> id in IdSet(p) {
      if id in IdSet(q) {
        var i :| 0 <= i < |q| && q[i].id == id;
        assert p[i] in p;
      }
      if id in IdSet(p) {
        var i :| 0 <= i < |p| && p[i].id == id;
        assert q[i] in q;
      }
    }
  }

  lemma StatusKept(rt: Runtime, p: seq<PlanNode>, id: string)
    requires id in rt.status && rt.status[id] !in {Pending, Cancelled}
    ensures id in NewStatus(rt, p) && NewStatus(rt, p)[id] == rt.status[id]
  {
  }

  lemma ApplyPlanPlanOk(rt: Runtime, p: seq<PlanNode>)
    requires PlanOk(rt) && AllowedPlan(rt, p)
    ensures PlanOk(ApplyPlan(rt, p))
  {
    var rt1 := ApplyPlan(rt, p);
    MergedIds(rt, p);
    forall n | n in rt1.plan ensures n.id in rt1.status && forall d :: d in n.deps ==> DepKnown(rt1, d) {
      var i :| 0 <= i < |p| && rt1.plan[i] == n;
      assert p[i] in p && n.id == p[i].id;
      if InPlan(rt.plan, n.id) {
        assert NodeAt(rt.plan, n.id).id in rt.status;
      }
      forall d | d in n.deps ensures DepKnown(rt1, d) {
        if d in p[i].deps {
          assert (p[i].id, d) in Edges(p);
        }
      }
    }
  }

  lemma ApplyPlanOpenEdges(rt: Runtime, p: seq<PlanNode>)
    requires StatusOk(rt)
    ensures OpenEdges(ApplyPlan(rt, p)) <= Edges(p)
  {
    var rt1 := ApplyPlan(rt, p);
    forall n, d | n in rt1.plan && d in n.deps && n.id !in rt1.outputs && d !in rt1.outputs
      ensures (n.id, d) in Edges(p)
    {
      var i :| 0 <= i < |p| && rt1.plan[i] == n;
      assert p[i] in p && n.deps == p[i].deps;
    }
  }

  lemma ApplyPlanInv(rt: Runtime, p: seq<PlanNode>)
    requires Inv(rt) && AllowedPlan(rt, p)
    ensures Inv(ApplyPlan(rt, p))
  {
    var rt1 := ApplyPlan(rt, p);
    ApplyPlanPlanOk(rt, p);
    ApplyPlanOpenEdges(rt, p);
    SubgraphAcyclic(Edges(p), OpenEdges(rt1));
    forall c | c in rt1.completions ensures RecordOk(rt1, c) {
      assert RecordOk(rt, c);
    }
  }

  // ---- Finish and Collect ----

  lemma FewerOpenEdges(rt: Runtime, rt1: Runtime)
    requires rt1.plan == rt.plan && rt.outputs.Keys <= rt1.outputs.Keys
    requires Acyclic(OpenEdges(rt))
    ensures Acyclic(OpenEdges(rt1))
  {
    SubgraphAcyclic(OpenEdges(rt), OpenEdges(rt1));
  }

  lemma FinishKeepsRecords(rt: Runtime, id: string, result: TaskResult)
    requires QueueOk(rt) && id in rt.status && rt.status[id] == Running
    ensures QueueOk(Finish(rt, id, result))
  {
    forall c | c in rt.completions ensures c.id != id && RecordOk(Finish(rt, id, result), c) {
      assert RecordOk(rt, c);
    }
  }

  lemma FinishKeepsPlan(rt: Runtime, id: string, result: TaskResult)
    requires PlanOk(rt) && id in rt.status
    ensures PlanOk(Finish(rt, id, result))
  {
    var rt1 := Finish(rt, id, result);
    forall n, d | n in rt1.plan && d in n.deps ensures DepKnown(rt1, d) {
      assert DepKnown(rt, d);
    }
  }

  lemma FinishKeepsRunning(rt: Runtime, id: string, result: TaskResult)
    requires RunningOk(rt) && id in rt.running
    ensures RunningOk(Finish(rt, id, result))
    ensures Finish(rt, id, result).running == Without(rt.running, id)
  {
  }

  lemma FinishInv(rt: Runtime, id: string, result: TaskResult)
    requires Inv(rt) && id in rt.running
    ensures Inv(Finish(rt, id, result))
    ensures Finish(rt, id, result).running == Without(rt.running, id)
  {
    assert rt.status[id] == Running;
    FinishKeepsRecords(rt, id, result);
    FinishKeepsPlan(rt, id, result);
    FinishKeepsRunning(rt, id, result);
    FewerOpenEdges(rt, Finish(rt, id, result));
  }

  ghost predicate StillRunning(rt: Runtime, ids: seq<string>, finished: map<string, TaskResult>, x: string) {
    x in rt.running && !(x in ids && x in finished)
  }

  lemma {:induction false} CollectFromInv(rt: Runtime, ids: seq<string>, finished: map<string, TaskResult>)
    requires Inv(rt) && Distinct(ids) && forall x :: x in ids ==> x in rt.running
    ensures Inv(CollectFrom(rt, ids, finished))
    ensures forall x :: x in CollectFrom(rt, ids, finished).running <==> StillRunning(rt, ids, finished, x)
  {
    if ids != [] {
      var front, id := ids[..|ids| - 1], ids[|ids| - 1];
      assert ids == front + [id];
      DistinctLast(front, id);
      CollectFromInv(rt, front, finished);
      var rt1 := CollectFrom(rt, front, finished);
      assert StillRunning(rt, front, finished, id);
      if id in finished {
        FinishInv(rt1, id, finished[id]);
        forall x ensures x in Finish(rt1, id, finished[id]).running <==> StillRunning(rt, ids, finished, x) {
          assert x in rt1.running <==> StillRunning(rt, front, finished, x);
        }
      } else {
        forall x ensures x in rt1.running <==> StillRunning(rt, ids, finished, x) {
          assert x in rt1.running <==> StillRunning(rt, front, finished, x);
        }
      }
    }
  }

  /** Collecting touches nothing but the tasks that ended. */
  lemma {:induction false} CollectFromFrame(rt: Runtime, ids: seq<string>, finished: map<string, TaskResult>)
    requires forall x :: x in ids ==> x in rt.running && x in rt.status && rt.status[x] == Running
    ensures var rt1 := CollectFrom(rt, ids, finished);
            && rt1.plan == rt.plan && rt1.doneRequested == rt.doneRequested
            && rt1.assistSeq == rt.assistSeq && rt1.assistDepth == rt.assistDepth
            && rt.outputs.Keys <= rt1.outputs.Keys
            && rt1.status.Keys == rt.status.Keys
            && (forall x :: x in rt.status && x !in ids ==> rt1.status[x] == rt.status[x])
            && (forall x :: Fired(rt1, x) <==> Fired(rt, x))
  {
    if ids != [] {
      var front, id := ids[..|ids| - 1], ids[|ids| - 1];
      assert ids == front + [id];
      CollectFromFrame(rt, front, finished);
      assert Fired(rt, id);
      if id in finished {
        FinishFrame(CollectFrom(rt, front, finished), id, finished[id]);
      }
    }
  }

  lemma FinishFrame(rt: Runtime, id: string, result: TaskResult)
    requires Fired(rt, id)
    ensures var rt1 := Finish(rt, id, result);
            && rt1.plan == rt.plan && rt1.doneRequested == rt.doneRequested
            && rt1.assistSeq == rt.assistSeq && rt1.assistDepth == rt.assistDepth
            && rt.outputs.Keys <= rt1.outputs.Keys && rt1.status.Keys == rt.status.Keys
            && (forall x :: x in rt.status && x != id ==> rt1.status[x] == rt.status[x])
            && (forall x :: Fired(rt1, x) <==> Fired(rt, x))
  {
  }

  // ---- Pop ----

  lemma {:induction false} PopInv(rt: Runtime)
    requires Inv(rt)
    ensures var (rt1, rec) := PopCompletion(rt);
            && Inv(rt1)
            && rt1 == rt.(completions := rt1.completions)
            && (rec.Some? ==>
                  && rec.value in rt.completions && Judgable(rt, rec.value.id) && RecordOk(rt, rec.value)
                  && forall c :: c in rt1.completions ==> c.id != rec.value.id)
            && (rec.None? ==> rt1.completions == [] && forall c :: c in rt.completions ==> !Judgable(rt, c.id))
    decreases |rt.completions|
  {
    if rt.completions != [] {
      var rt1 := rt.(completions := rt.completions[1..]);
      assert rt.completions == [rt.completions[0]] + rt1.completions;
      assert OpenEdges(rt1) == OpenEdges(rt);
      forall c | c in rt1.completions ensures RecordOk(rt1, c) && c.id != rt.completions[0].id {
        assert RecordOk(rt, c);
      }
      assert RecordOk(rt, rt.completions[0]);
      assert forall n, d :: n in rt.plan && d in n.deps ==> (DepKnown(rt1, d) <==> DepKnown(rt, d));
      assert Inv(rt1);
      if !Judgable(rt1, rt.completions[0].id) {
        PopInv(rt1);
      }
    }
  }

  lemma {:induction false} FirstFailureFinds(rt: Runtime, recs: seq<Completion>)
    ensures FirstFailure(rt, recs).None? <==> forall c :: c in recs ==> !(c.result.Error? && Judgable(rt, c.id))
    ensures FirstFailure(rt, recs).Some? ==>
              var f := FirstFailure(rt, recs).value; f in recs && f.result.Error? && Judgable(rt, f.id)
  {
    if recs != [] {
      assert recs == [recs[0]] + recs[1..];
      FirstFailureFinds(rt, recs[1..]);
    }
  }

  // ---- Start ----

  lemma StartInv(rt: Runtime, id: string)
    requires Inv(rt) && id in rt.status && rt.status[id] in {Pending, WaitingAssist}
    ensures Inv(Start(rt, id))
  {
    var rt1 := Start(rt, id);
    assert OpenEdges(rt1) == OpenEdges(rt);
    assert id !in rt.running;
    forall n, d | n in rt1.plan && d in n.deps ensures DepKnown(rt1, d) {
      assert DepKnown(rt, d);
    }
    forall c | c in rt.completions ensures RecordOk(rt1, c) {
      assert RecordOk(rt, c);
    }
  }

  lemma {:induction false} StartAllInv(rt: Runtime, ids: seq<string>)
    requires Inv(rt) && Distinct(ids)
    requires forall id :: id in ids ==> id in rt.status && rt.status[id] in {Pending, WaitingAssist}
    ensures Inv(StartAll(rt, ids))
    ensures StartAll(rt, ids) == rt.(status := StartAll(rt, ids).status, running := rt.running + ids)
    ensures StartAll(rt, ids).status.Keys == rt.status.Keys
    ensures forall id :: id in rt.status ==>
              StartAll(rt, ids).status[id] == if id in ids then Running else rt.status[id]
  {
    if ids != [] {
      var front, id := ids[..|ids| - 1], ids[|ids| - 1];
      assert ids == front + [id];
      DistinctLast(front, id);
      StartAllInv(rt, front);
      StartInv(StartAll(rt, front), id);
      assert rt.running + ids == rt.running + front + [id];
    } else {
      assert rt.running + ids == rt.running;
    }
  }

  lemma {:induction false} StartableDistinct(rt: Runtime, plan: seq<PlanNode>)
    requires UniqueIds(plan)
    ensures Distinct(StartableIds(rt, plan))
  {
    if plan != [] {
      var front, last := plan[..|plan| - 1], plan[|plan| - 1];
      StartableDistinct(rt, front);
      assert last.id !in StartableIds(rt, front) by {
        forall n | n in front ensures n.id != last.id {
          var k :| 0 <= k < |front| && front[k] == n;
          assert plan[k] == n;
        }
      }
    }
  }

  lemma UniqueNode(plan: seq<PlanNode>, n: PlanNode, m: PlanNode)
    requires UniqueIds(plan) && n in plan && m in plan && n.id == m.id
    ensures n == m
  {
    var i :| 0 <= i < |plan| && plan[i] == n;
    var j :| 0 <= j < |plan| && plan[j] == m;
  }

  /** The ids to dispatch: each once, planned, and started only when every dependency has an output. */
  lemma DispatchableFacts(rt: Runtime)
    requires PlanOk(rt)
    ensures Distinct(Dispatchable(rt))
    ensures forall id :: id in Dispatchable(rt) <==> InPlan(rt.plan, id) && Startable(rt, NodeAt(rt.plan, id))
  {
    StartableDistinct(rt, rt.plan);
    forall id ensures id in Dispatchable(rt) <==> InPlan(rt.plan, id) && Startable(rt, NodeAt(rt.plan, id)) {
      if id in Dispatchable(rt) {
        var n :| n in rt.plan && n.id == id && Startable(rt, n);
        UniqueNode(rt.plan, n, NodeAt(rt.plan, id));
      }
    }
  }

  // ---- AddAssist ----

  /** Freshness of a generated id is a consequence, not an assumption. */
  lemma AssistIdIsFresh(rt: Runtime, parent: string)
    requires IdsOk(rt)
    ensures AssistId(parent, rt.assistSeq + 1) !in rt.status
  {
    assert FutureAssistId(AssistId(parent, rt.assistSeq + 1), rt.assistSeq);
  }

  lemma AssistIdsDiffer(p: string, m: nat, q: string, n: nat)
    requires AssistId(p, m) == AssistId(q, n)
    ensures m == n
  {
    var s, t := p + "-assist", q + "-assist";
    assert s[|s| - 1] == 't' && t[|t| - 1] == 't';
    Ids.GeneratedIdsDiffer(s, m, t, n);
  }

  lemma CurrentIsNotFuture(parent: string, k: nat)
    ensures !FutureAssistId(AssistId(parent, k), k)
  {
    forall p, j: nat | j > k ensures AssistId(p, j) != AssistId(parent, k) {
      if AssistId(p, j) == AssistId(parent, k) {
        AssistIdsDiffer(p, j, parent, k);
      }
    }
  }

  lemma IdsOkAfterAssist(rt: Runtime, parent: string)
    requires IdsOk(rt)
    ensures forall id :: id in rt.status || id == AssistId(parent, rt.assistSeq + 1) ==>
              !FutureAssistId(id, rt.assistSeq + 1)
  {
    CurrentIsNotFuture(parent, rt.assistSeq + 1);
    assert forall id :: FutureAssistId(id, rt.assistSeq + 1) ==> FutureAssistId(id, rt.assistSeq);
  }

  /** Node k of the plan once the assist has been added. */
  lemma AddAssistNode(rt: Runtime, parent: string, agent: string, instruction: string, k: nat)
    requires InPlan(rt.plan, parent)
    ensures var (plan1, assist) := (AddAssist(rt, parent, agent, instruction).plan, AssistId(parent, rt.assistSeq + 1));
            && |plan1| == |rt.plan| + 1
            && (k < |rt.plan| ==> plan1[k].id == rt.plan[k].id && rt.plan[k] in rt.plan
                                  && forall d :: d in plan1[k].deps ==> d in rt.plan[k].deps || d == assist)
            && (k == |rt.plan| ==> plan1[k].id == assist && plan1[k].deps == [])
  {
  }

  lemma AddAssistKeepsIds(rt: Runtime, parent: string, agent: string, instruction: string)
    requires InPlan(rt.plan, parent)
    ensures IdSet(AddAssist(rt, parent, agent, instruction).plan)
              == IdSet(rt.plan) + {AssistId(parent, rt.assistSeq + 1)}
  {
    var plan1, assist := AddAssist(rt, parent, agent, instruction).plan, AssistId(parent, rt.assistSeq + 1);
    forall id ensures id in IdSet(plan1) <==> id in IdSet(rt.plan) + {assist} {
      if id in IdSet(plan1) {
        var k :| 0 <= k < |plan1| && plan1[k].id == id;
        AddAssistNode(rt, parent, agent, instruction, k);
      }
      if id in IdSet(rt.plan) {
        var k :| 0 <= k < |rt.plan| && rt.plan[k].id == id;
        AddAssistNode(rt, parent, agent, instruction, k);
        assert plan1[k] in plan1;
      }
      if id == assist {
        AddAssistNode(rt, parent, agent, instruction, |rt.plan|);
        assert plan1[|rt.plan|] in plan1;
      }
    }
  }

  lemma AddAssistUniqueIds(rt: Runtime, parent: string, agent: string, instruction: string)
    requires PlanOk(rt) && IdsOk(rt) && InPlan(rt.plan, parent)
    ensures UniqueIds(AddAssist(rt, parent, agent, instruction).plan)
  {
    var plan1 := AddAssist(rt, parent, agent, instruction).plan;
    AssistIdIsFresh(rt, parent);
    forall i, j | 0 <= i < j < |plan1| ensures plan1[i].id != plan1[j].id {
      AddAssistNode(rt, parent, agent, instruction, i);
      AddAssistNode(rt, parent, agent, instruction, j);
    }
  }

  lemma AddAssistPlanOk(rt: Runtime, parent: string, agent: string, instruction: string)
    requires PlanOk(rt) && IdsOk(rt) && InPlan(rt.plan, parent) && |rt.plan| < MAX_PLAN_NODES
    ensures PlanOk(AddAssist(rt, parent, agent, instruction))
  {
    var rt1 := AddAssist(rt, parent, agent, instruction);
    AddAssistUniqueIds(rt, parent, agent, instruction);
    AddAssistKeepsIds(rt, parent, agent, instruction);
    forall n | n in rt1.plan ensures n.id in rt1.status && forall d :: d in n.deps ==> DepKnown(rt1, d) {
      var k :| 0 <= k < |rt1.plan| && rt1.plan[k] == n;
      AddAssistNode(rt, parent, agent, instruction, k);
      forall d | d in n.deps ensures DepKnown(rt1, d) {
        assert d in IdSet(rt1.plan) || DepKnown(rt, d);
      }
    }
  }

  lemma AddAssistOpenEdges(rt: Runtime, parent: string, agent: string, instruction: string)
    requires InPlan(rt.plan, parent) && parent in rt.outputs
    ensures OpenEdges(AddAssist(rt, parent, agent, instruction)) <= OpenEdges(rt)
  {
    var rt1 := AddAssist(rt, parent, agent, instruction);
    forall n, d | n in rt1.plan && d in n.deps && n.id !in rt1.outputs && d !in rt1.outputs
      ensures (n.id, d) in OpenEdges(rt)
    {
      var k :| 0 <= k < |rt1.plan| && rt1.plan[k] == n;
      assert k < |rt.plan| && k != IndexOf(rt.plan, parent) && rt.plan[k] == n;
    }
  }

  lemma AddAssistKeepsStatus(rt: Runtime, parent: string, agent: string, instruction: string)
    requires StatusOk(rt) && RunningOk(rt) && InPlan(rt.plan, parent)
    requires parent in rt.status && rt.status[parent] in {Completed, WaitingAssist}
    requires AssistId(parent, rt.assistSeq + 1) !in rt.status
    ensures StatusOk(AddAssist(rt, parent, agent, instruction)) && RunningOk(AddAssist(rt, parent, agent, instruction))
  {
  }

  lemma AddAssistKeepsIdsOk(rt: Runtime, parent: string, agent: string, instruction: string)
    requires IdsOk(rt) && InPlan(rt.plan, parent) && parent in rt.status
    ensures IdsOk(AddAssist(rt, parent, agent, instruction))
  {
    var rt1 := AddAssist(rt, parent, agent, instruction);
    IdsOkAfterAssist(rt, parent);
    forall id | id in rt1.status ensures !FutureAssistId(id, rt1.assistSeq) {
      assert id in rt.status || id == AssistId(parent, rt.assistSeq + 1);
    }
  }

  lemma AddAssistKeepsQueue(rt: Runtime, parent: string, agent: string, instruction: string)
    requires QueueOk(rt) && IdsOk(rt) && InPlan(rt.plan, parent)
    requires forall c :: c in rt.completions ==> c.id != parent
    ensures QueueOk(AddAssist(rt, parent, agent, instruction))
  {
    AssistIdIsFresh(rt, parent);
    forall c | c in rt.completions ensures RecordOk(AddAssist(rt, parent, agent, instruction), c) {
      assert RecordOk(rt, c);
    }
  }

  lemma AddAssistInv(rt: Runtime, parent: string, agent: string, instruction: string)
    requires Inv(rt) && InPlan(rt.plan, parent) && |rt.plan| < MAX_PLAN_NODES
    requires DepthOf(rt, parent) + 1 <= MAX_ASSIST_DEPTH
    requires rt.status[parent] in {Completed, WaitingAssist}
    requires forall c :: c in rt.completions ==> c.id != parent
    ensures Inv(AddAssist(rt, parent, agent, instruction))
  {
    AddAssistPlanOk(rt, parent, agent, instruction);
    AssistIdIsFresh(rt, parent);
    AddAssistKeepsStatus(rt, parent, agent, instruction);
    AddAssistKeepsIdsOk(rt, parent, agent, instruction);
    AddAssistKeepsQueue(rt, parent, agent, instruction);
    AddAssistOpenEdges(rt, parent, agent, instruction);
    SubgraphAcyclic(OpenEdges(rt), OpenEdges(AddAssist(rt, parent, agent, instruction)));
  }
}
