/** The mutable runtime of src/new_choirworks/orchestrator/runtime.py with the Executor's and the Helper's
    rounds, each method proved against the function of the same name in DagSpec. */
module DagRuntime {
  import opened Common
  import opened Plan
  import opened DagSpec
  import opened DagInvariant
  import opened DagProgress
  import opened DagMachine

  class Dag {
    var plan: seq<PlanNode>
    var nodeStatus: map<string, Status>
    var nodeOutputs: map<string, string>
    var runningTasks: seq<string>
    var completions: seq<Completion>
    var doneRequested: bool
    var assistSeq: nat
    var assistDepth: map<string, nat>

    /** The state as a value. */
    function State(): Runtime
      reads this
    {
      Runtime(plan, nodeStatus, nodeOutputs, runningTasks, completions, doneRequested, assistSeq, assistDepth)
    }

    constructor ()
      ensures State() == EMPTY && Inv(State())
    {
      plan, nodeStatus, nodeOutputs, runningTasks := [], map[], map[], [];
      completions, doneRequested, assistSeq, assistDepth := [], false, 0, map[];
      new;
      InitialInv();
    }

    /** Diff by id against a validated plan; a plan that does not validate changes nothing. */
    method ApplyPlan(newPlan: seq<PlanNode>) returns (verdict: Verdict)
      modifies this
      ensures verdict == Accepted <==> WellFormed(newPlan, MAX_PLAN_NODES)
      ensures State() == if verdict == Accepted then DagSpec.ApplyPlan(old(State()), newPlan) else old(State())
    {
      ghost var was := State();
      verdict := ValidatePlan(newPlan, MAX_PLAN_NODES);
      if verdict != Accepted {
        return;
      }
      doneRequested := newPlan == [];
      if doneRequested {
        completions := [];
      }
      var newIds := IdSet(newPlan);
      var nodes: seq<PlanNode> := [];
      for i := 0 to |newPlan|
        invariant State() == was.(doneRequested := newPlan == [], status := nodeStatus,
                                  completions := if newPlan == [] then [] else was.completions)
        invariant nodeStatus == NewStatus(was, newPlan[..i])
        invariant nodes == MergeFrom(was, newIds, newPlan[..i])
      {
        MergeOneMore(was, newPlan, i);
        var node := newPlan[i];
        if !InPlan(plan, node.id) {
          if node.id !in nodeStatus || nodeStatus[node.id] in {Pending, Cancelled} {
            nodeStatus := nodeStatus[node.id := Pending];
          }
        } else {
          var waiting := node.id in nodeStatus && nodeStatus[node.id] == WaitingAssist;
          node := MergeOldNode(NodeAt(plan, node.id), node, waiting, newIds);
        }
        nodes := nodes + [node];
      }
      assert newPlan[..|newPlan|] == newPlan;
      plan := nodes;
    }

    method MergeOldNode(o: PlanNode, n: PlanNode, waiting: bool, newIds: set<string>) returns (r: PlanNode)
      ensures r == MergeInto(o, n, waiting, newIds + nodeOutputs.Keys)
    {
      r := n;
      if o.assistFor.Some? && n.assistFor.None? {
        r := r.(assistFor := o.assistFor);
      }
      if waiting {
        var merged := MergeDependencies(n.deps + o.deps, newIds);
        r := r.(deps := merged);
      }
    }

    method MergeDependencies(deps: seq<string>, newIds: set<string>) returns (merged: seq<string>)
      ensures merged == MergeDeps(deps, newIds + nodeOutputs.Keys)
    {
      merged := [];
      for i := 0 to |deps|
        invariant merged == MergeDeps(deps[..i], newIds + nodeOutputs.Keys)
      {
        assert deps[..i + 1][..i] == deps[..i];
        if deps[i] !in merged && (deps[i] in newIds || deps[i] in nodeOutputs) {
          merged := merged + [deps[i]];
        }
      }
      assert deps[..|deps|] == deps;
    }

    method Dispatchable() returns (ids: seq<string>)
      ensures ids == DagSpec.Dispatchable(State())
    {
      ids := [];
      for i := 0 to |plan|
        invariant ids == StartableIds(State(), plan[..i])
      {
        assert plan[..i + 1][..i] == plan[..i];
        var node := plan[i];
        if node.id in nodeStatus && nodeStatus[node.id] in {Pending, WaitingAssist} {
          if forall dep | dep in node.deps :: dep in nodeOutputs {
            ids := ids + [node.id];
          }
        }
      }
      assert plan[..|plan|] == plan;
    }

    method RecordResult(id: string, result: TaskResult)
      modifies this
      ensures State() == Record(old(State()), id, result)
    {
      match result {
        case Output(text) =>
          nodeStatus := nodeStatus[id := Completed];
          nodeOutputs := nodeOutputs[id := text];
        case Error(_) =>
          nodeStatus := nodeStatus[id := Failed];
      }
      if !doneRequested && InPlan(plan, id) {
        completions := completions + [Completion(id, result)];
      }
    }

    method PopCompletion() returns (rec: Option<Completion>)
      modifies this`completions
      ensures (State(), rec) == DagSpec.PopCompletion(old(State()))
    {
      while completions != []
        invariant State() == old(State()).(completions := completions)
        invariant DagSpec.PopCompletion(State()) == DagSpec.PopCompletion(old(State()))
        decreases |completions|
      {
        var first := completions[0];
        completions := completions[1..];
        if Judgable(State(), first.id) {
          return Some(first);
        }
      }
      rec := None;
    }

    /** Wire one assist into its parent: it starts at once, and the parent waits for its output. */
    method AddAssist(parent: string, agent: string, instruction: string) returns (assist: string)
      requires InPlan(plan, parent)
      modifies this
      ensures assist == AssistId(parent, old(assistSeq) + 1)
      ensures State() == DagSpec.AddAssist(old(State()), parent, agent, instruction)
    {
      assistSeq := assistSeq + 1;
      assist := AssistId(parent, assistSeq);
      var i := IndexOf(plan, parent);
      assistDepth := assistDepth[assist := DepthOf(State(), parent) + 1];
      plan := plan[i := WireAssist(plan[i], assist)] + [AssistNode(parent, assist, agent, instruction)];
      nodeStatus := nodeStatus[assist := Pending];
      nodeStatus := nodeStatus[parent := WaitingAssist];
    }

    /** Start every dispatchable node; each message is built before the next node starts. */
    method DispatchReady() returns (sent: seq<Sent>)
      requires Inv(State())
      modifies this
      ensures var rt := old(State());
              sent == Messages(rt, DagSpec.Dispatchable(rt)) && State() == StartAll(rt, DagSpec.Dispatchable(rt))
    {
      DispatchableFacts(State());
      var ids := Dispatchable();
      sent := StartEach(ids);
    }

    method StartEach(ids: seq<string>) returns (sent: seq<Sent>)
      requires forall id :: id in ids ==> InPlan(plan, id)
      modifies this
      ensures sent == Messages(old(State()), ids) && State() == StartAll(old(State()), ids)
    {
      ghost var was := State();
      sent := [];
      for i := 0 to |ids|
        invariant State() == StartAll(was, ids[..i])
        invariant plan == was.plan && nodeOutputs == was.outputs
        invariant sent == Messages(was, ids[..i])
      {
        StartOneMore(was, ids, i);
        var node := NodeAt(plan, ids[i]);
        var message := Sent(ids[i], node.agent, node.instruction, DepSections(nodeOutputs, node.deps));
        nodeStatus := nodeStatus[ids[i] := Running];
        runningTasks := runningTasks + [ids[i]];
        sent := sent + [message];
      }
      assert ids[..|ids|] == ids;
    }

    /** Move the in-flight tasks that ended into the boundary queue. */
    method CollectDone(finished: map<string, TaskResult>)
      modifies this
      ensures State() == Collect(old(State()), finished)
    {
      ghost var was := State();
      var ids := runningTasks;
      for i := 0 to |ids|
        invariant State() == CollectFrom(was, ids[..i], finished)
      {
        assert ids[..i + 1][..i] == ids[..i];
        if ids[i] in finished {
          runningTasks := Without(runningTasks, ids[i]);
          RecordResult(ids[i], finished[ids[i]]);
        }
      }
      assert ids[..|ids|] == ids;
    }

    /** A failed planned node ends the run and drops what is in flight. */
    method AbortIfFailed() returns (failed: Option<string>)
      modifies this
      ensures var f := FailedCompletion(old(State()));
              && failed == (if f.Some? then Some(f.value.id) else None)
              && State() == if f.Some? then old(State()).(running := []) else old(State())
    {
      for i := 0 to |completions|
        invariant State() == old(State())
        invariant FailedCompletion(State()) == FirstFailure(State(), completions[i..])
      {
        if completions[i].result.Error? && Judgable(State(), completions[i].id) {
          failed := Some(completions[i].id);
          runningTasks := [];
          return;
        }
      }
      failed := None;
    }

    /** The judging end of a round: abort, hand one completion over, or find none. */
    method RouteCompletion() returns (route: Route)
      modifies this
      ensures State() == Outcome(old(State()), []).rt && route == Outcome(old(State()), []).route
    {
      var failed := AbortIfFailed();
      if failed.Some? {
        return Abort(failed.value);
      }
      var rec := PopCompletion();
      route := if rec.Some? then Judge(rec.value.id) else NoProgress;
    }

    /** One Executor round. */
    method ExecutorRound(newPlan: Option<seq<PlanNode>>, env: Environment) returns (route: Route, sent: seq<Sent>)
      requires Inv(State())
      requires newPlan.Some? && WellFormed(newPlan.value, MAX_PLAN_NODES) ==> AllowedPlan(State(), newPlan.value)
      modifies this
      ensures Round(State(), route, sent) == ExecRound(old(State()), newPlan, env)
    {
      sent := [];
      if newPlan.Some? {
        ghost var was := State();
        var verdict := ApplyPlan(newPlan.value);
        if verdict != Accepted {
          return BadPlan, [];
        }
        ApplyPlanInv(was, newPlan.value);
      }
      route, sent := Execute(env);
    }

    method Execute(env: Environment) returns (route: Route, sent: seq<Sent>)
      requires Inv(State())
      modifies this
      ensures Round(State(), route, sent) == DagSpec.Execute(old(State()), env)
    {
      sent := [];
      CollectInv(State(), env.first);
      CollectDone(env.first);
      if doneRequested {
        CollectDone(env.drain);
        return Done, [];
      }
      OutcomeFacts(State(), []);
      route := RouteCompletion();
      if route == NoProgress {
        route, sent := DispatchAndWait(env);
      }
    }

    method DispatchAndWait(env: Environment) returns (route: Route, sent: seq<Sent>)
      requires Inv(State())
      modifies this
      ensures Round(State(), route, sent) == DagSpec.DispatchAndWait(old(State()), env)
    {
      sent := DispatchReady();
      if !HasWork(State()) {
        return Done, sent;
      }
      CollectDone(env.second);
      route := RouteCompletion();
    }

    /** One Helper round: assists for the judged node's mentions, or on to the Planner. */
    method HelperRound(id: string, mentions: seq<(string, string)>) returns (execute: bool)
      modifies this
      ensures (State(), execute) == Help(old(State()), id, mentions)
    {
      if !InPlan(plan, id) {
        return false;
      }
      ghost var was := State();
      var candidates := FilterMentions(NodeAt(plan, id), mentions);
      if candidates == [] || !CanAddAssists(State(), id, |candidates|) {
        return false;
      }
      AddAll(id, candidates);
      execute := true;
    }

    method AddAll(id: string, candidates: seq<(string, string)>)
      requires InPlan(plan, id)
      modifies this
      ensures State() == AddAssists(old(State()), id, candidates)
    {
      for i := 0 to |candidates|
        invariant State() == AddAssists(old(State()), id, candidates[..i])
      {
        assert candidates[..i + 1][..i] == candidates[..i];
        var _ := AddAssist(id, candidates[i].0, candidates[i].1);
      }
      assert candidates[..|candidates|] == candidates;
    }

    method FilterMentions(parent: PlanNode, mentions: seq<(string, string)>) returns (candidates: seq<(string, string)>)
      ensures candidates == Candidates(State(), parent, mentions)
    {
      var seen: set<string> := {};
      candidates := [];
      for i := 0 to |mentions|
        invariant forall a :: a in seen <==> a != parent.agent && exists k :: 0 <= k < i && mentions[k].0 == a
        invariant candidates == Candidates(State(), parent, mentions[..i])
      {
        assert mentions[..i + 1][..i] == mentions[..i];
        var agent := mentions[i].0;
        if agent == parent.agent || agent in seen {
          continue;
        }
        seen := seen + {agent};
        if HasAssistFor(plan, parent.id, agent) {
          continue;
        }
        candidates := candidates + [mentions[i]];
      }
      assert mentions[..|mentions|] == mentions;
    }
  }

  lemma StartOneMore(rt: Runtime, ids: seq<string>, i: nat)
    requires i < |ids| && forall id :: id in ids ==> InPlan(rt.plan, id)
    ensures InPlan(rt.plan, ids[i])
    ensures StartAll(rt, ids[..i + 1]) == Start(StartAll(rt, ids[..i]), ids[i])
    ensures Messages(rt, ids[..i + 1]) == Messages(rt, ids[..i]) + [Message(rt, ids[i])]
  {
    assert ids[i] in ids;
    assert ids[..i + 1] == ids[..i] + [ids[i]];
    StartLast(rt, ids[..i], ids[i]);
    SendLast(rt, ids[..i], ids[i]);
  }

  lemma StartLast(rt: Runtime, ids: seq<string>, id: string)
    ensures StartAll(rt, ids + [id]) == Start(StartAll(rt, ids), id)
  {
    assert (ids + [id])[..|ids|] == ids;
  }

  lemma SendLast(rt: Runtime, ids: seq<string>, id: string)
    requires forall x :: x in ids + [id] ==> InPlan(rt.plan, x)
    ensures forall x :: x in ids ==> InPlan(rt.plan, x)
    ensures InPlan(rt.plan, id) && Messages(rt, ids + [id]) == Messages(rt, ids) + [Message(rt, id)]
  {
    assert id in ids + [id] && forall x :: x in ids ==> x in ids + [id];
  }

  lemma MergeOneMore(rt: Runtime, p: seq<PlanNode>, i: nat)
    requires i < |p| && UniqueIds(p)
    ensures p[..i + 1] == p[..i] + [p[i]]
    ensures p[i].id !in IdSet(p[..i])
    ensures MergeFrom(rt, IdSet(p), p[..i + 1]) == MergeFrom(rt, IdSet(p), p[..i]) + [MergeNode(rt, IdSet(p), p[i])]
    ensures NewStatus(rt, p[..i + 1]) ==
              if !InPlan(rt.plan, p[i].id) && (p[i].id !in rt.status || rt.status[p[i].id] in {Pending, Cancelled})
              then NewStatus(rt, p[..i])[p[i].id := Pending]
              else NewStatus(rt, p[..i])
    ensures p[i].id in NewStatus(rt, p[..i]) <==> p[i].id in rt.status
    ensures p[i].id in rt.status ==> NewStatus(rt, p[..i])[p[i].id] == rt.status[p[i].id]
  {
    TakeOneMore(p, i);
    assert UniqueIds(p[..i + 1]);
    LastIdIsNew(p[..i], p[i]);
    MergeLast(rt, IdSet(p), p[..i], p[i]);
    NewStatusElsewhere(rt, p[..i], p[i].id);
    NewStatusStep(rt, p[..i], p[..i + 1], p[i].id);
  }

  lemma MergeLast(rt: Runtime, newIds: set<string>, nodes: seq<PlanNode>, n: PlanNode)
    ensures MergeFrom(rt, newIds, nodes + [n]) == MergeFrom(rt, newIds, nodes) + [MergeNode(rt, newIds, n)]
  {
  }

  lemma NewStatusElsewhere(rt: Runtime, p: seq<PlanNode>, id: string)
    requires id !in IdSet(p)
    ensures id in NewStatus(rt, p) <==> id in rt.status
    ensures id in rt.status ==> NewStatus(rt, p)[id] == rt.status[id]
  {
  }

  lemma NewStatusStep(rt: Runtime, p: seq<PlanNode>, q: seq<PlanNode>, id: string)
    requires IdSet(q) == IdSet(p) + {id}
    ensures NewStatus(rt, q) ==
              if !InPlan(rt.plan, id) && (id !in rt.status || rt.status[id] in {Pending, Cancelled})
              then NewStatus(rt, p)[id := Pending]
              else NewStatus(rt, p)
  {
  }
}
