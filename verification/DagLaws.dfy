/** What the operations of the DAG runtime do, said about their inputs alone: rewrites, dispatching, collecting,
    judging, and wiring assists, with the nesting depth of assists over whole runs. */
module DagLaws {
  import opened Common
  import opened Plan
  import opened DagSpec
  import opened DagInvariant
  import opened DagProgress
  import opened DagMachine
  import opened DagTheorems
  import Ids

  // ---- rewrites ----

  /** Members come in the order of their first occurrence in deps, each once. */
  ghost predicate ByFirstOccurrence(m: seq<string>, deps: seq<string>) {
    forall i, j {:trigger m[i], m[j]} :: 0 <= i < j < |m| ==>
        exists a :: 0 <= a < |deps| && deps[a] == m[i] && m[j] !in deps[..a + 1]
  }

  lemma {:induction false} MergedInOrder(deps: seq<string>, keep: set<string>)
    ensures ByFirstOccurrence(MergeDeps(deps, keep), deps)
  {
    if deps != [] {
      var front, last := deps[..|deps| - 1], deps[|deps| - 1];
      MergedInOrder(front, keep);
      var m := MergeDeps(deps, keep);
      forall i, j | 0 <= i < j < |m| ensures exists a :: 0 <= a < |deps| && deps[a] == m[i] && m[j] !in deps[..a + 1] {
        if j < |MergeDeps(front, keep)| {
          var a :| 0 <= a < |front| && front[a] == m[i] && m[j] !in front[..a + 1];
          assert front[..a + 1] == deps[..a + 1] && deps[a] == m[i];
        } else {
          assert m[i] in front;
          var a :| 0 <= a < |front| && front[a] == m[i];
          assert deps[a] == m[i];
          assert forall x :: x in deps[..a + 1] ==> x in front;
          assert m[j] == last && last !in MergeDeps(front, keep) && last in keep;
        }
      }
    }
  }

  /** The node the Planner wrote, merged with the old node of its id. */
  ghost predicate Rewritten(n: PlanNode, written: PlanNode, o: PlanNode, waiting: bool, keep: set<string>) {
    && n.id == written.id && n.agent == written.agent && n.instruction == written.instruction
    && n.assistFor == (if written.assistFor.Some? then written.assistFor else o.assistFor)
    && if waiting then
         && (forall d :: d in n.deps <==> (d in written.deps || d in o.deps) && d in keep)
         && ByFirstOccurrence(n.deps, written.deps + o.deps)
       else n.deps == written.deps
  }

  /** Each node of the new plan is the Planner's, in the Planner's order.  Only the assist wiring of an old node
      with the same id is kept: whom it assists, and, while it waits, the dependencies that can still be met. */
  lemma RewriteAdoptsThePlan(rt: Runtime, p: seq<PlanNode>, k: nat)
    requires UniqueIds(rt.plan) && k < |p|
    ensures |ApplyPlan(rt, p).plan| == |p|
    ensures var n := ApplyPlan(rt, p).plan[k];
            && ((forall o :: o in rt.plan ==> o.id != p[k].id) ==> n == p[k])
            && forall o :: o in rt.plan && o.id == p[k].id ==>
                 Rewritten(n, p[k], o, p[k].id in rt.status && rt.status[p[k].id] == WaitingAssist,
                           IdSet(p) + rt.outputs.Keys)
  {
    var n := ApplyPlan(rt, p).plan[k];
    assert n == MergeNode(rt, IdSet(p), p[k]);
    forall o | o in rt.plan && o.id == p[k].id
      ensures Rewritten(n, p[k], o, p[k].id in rt.status && rt.status[p[k].id] == WaitingAssist,
                        IdSet(p) + rt.outputs.Keys)
    {
      UniqueNode(rt.plan, o, NodeAt(rt.plan, p[k].id));
      MergedInOrder(p[k].deps + o.deps, IdSet(p) + rt.outputs.Keys);
    }
  }

  /** Of the rest of the state a rewrite only makes new ids pending and, when it declares completion, empties the
      queue.  An id that comes back keeps the status it has, unless it was never started. */
  lemma RewriteKeepsTheRest(rt: Runtime, p: seq<PlanNode>)
    ensures var rt1 := ApplyPlan(rt, p);
            && rt1.outputs == rt.outputs && rt1.running == rt.running
            && rt1.assistSeq == rt.assistSeq && rt1.assistDepth == rt.assistDepth
            && (rt1.doneRequested <==> p == [])
            && rt1.completions == (if p == [] then [] else rt.completions)
            && (forall id :: id in rt1.status <==>
                  id in rt.status || ((exists n :: n in p && n.id == id) && !exists o :: o in rt.plan && o.id == id))
            && forall id :: id in rt1.status ==>
                 rt1.status[id] == if id !in rt.status then Pending
                                   else if rt.status[id] == Cancelled && id in IdSet(p) && id !in IdSet(rt.plan)
                                   then Pending
                                   else rt.status[id]
  {
  }

  // ---- dispatching ----

  /** The node may start: it is pending or waits for assists, and every dependency has an output. */
  ghost predicate MayStart(rt: Runtime, n: PlanNode) {
    && n.id in rt.status && (rt.status[n.id] == Pending || rt.status[n.id] == WaitingAssist)
    && forall k :: 0 <= k < |n.deps| ==> n.deps[k] in rt.outputs
  }

  /** The nodes that start are the plan's startable ones, in plan order. */
  lemma {:induction false} StartsInPlanOrder(rt: Runtime, plan: seq<PlanNode>) returns (at: seq<nat>)
    ensures |at| == |StartableIds(rt, plan)| && Ascending(at)
    ensures forall i :: 0 <= i < |at| ==> at[i] < |plan| && StartableIds(rt, plan)[i] == plan[at[i]].id
    ensures forall k :: 0 <= k < |plan| ==> (k in at <==> MayStart(rt, plan[k]))
  {
    if plan == [] {
      at := [];
    } else {
      var front, last := plan[..|plan| - 1], plan[|plan| - 1];
      at := StartsInPlanOrder(rt, front);
      assert MayStart(rt, last) <==> Startable(rt, last);
      if MayStart(rt, last) {
        at := at + [|front|];
      }
    }
  }

  /** A dispatch: the node's own agent and instruction, and the output of each dependency, in dependency order. */
  ghost predicate Carries(s: Sent, n: PlanNode, outputs: map<string, string>) {
    && s.id == n.id && s.agent == n.agent && s.instruction == n.instruction && |s.sections| == |n.deps|
    && forall k :: 0 <= k < |n.deps| ==>
         n.deps[k] in outputs && s.sections[k] == "[" + n.deps[k] + " output]\n" + outputs[n.deps[k]]
  }

  lemma {:induction false} SectionsExactly(outputs: map<string, string>, deps: seq<string>)
    requires forall k :: 0 <= k < |deps| ==> deps[k] in outputs
    ensures |DepSections(outputs, deps)| == |deps|
    ensures forall k :: 0 <= k < |deps| ==>
              DepSections(outputs, deps)[k] == "[" + deps[k] + " output]\n" + outputs[deps[k]]
  {
    if deps != [] {
      SectionsExactly(outputs, deps[..|deps| - 1]);
    }
  }

  /** A round that gets as far as dispatching sends exactly the startable nodes of its plan their messages. */
  lemma RoundSends(rt: Runtime, env: Environment) returns (at: seq<nat>)
    requires Inv(rt) && !rt.doneRequested && Outcome(Collect(rt, env.first), []).route == NoProgress
    ensures var rtd, sent := AtDispatch(rt, env), Execute(rt, env).sent;
            && |at| == |sent| && Ascending(at)
            && (forall i :: 0 <= i < |at| ==> at[i] < |rtd.plan| && Carries(sent[i], rtd.plan[at[i]], rtd.outputs))
            && (forall k :: 0 <= k < |rtd.plan| ==> (k in at <==> MayStart(rtd, rtd.plan[k])))
  {
    CollectInv(rt, env.first);
    OutcomeFacts(Collect(rt, env.first), []);
    var rtd := AtDispatch(rt, env);
    at := StartsInPlanOrder(rtd, rtd.plan);
    OutcomeSends(Collect(StartAll(rtd, Dispatchable(rtd)), env.second), Messages(rtd, Dispatchable(rtd)));
    assert Execute(rt, env).sent == Messages(rtd, Dispatchable(rtd));
    forall i | 0 <= i < |at| ensures Carries(Messages(rtd, Dispatchable(rtd))[i], rtd.plan[at[i]], rtd.outputs) {
      assert at[i] in at;
      MessageCarries(rtd, rtd.plan[at[i]]);
    }
  }

  lemma MessageCarries(rt: Runtime, n: PlanNode)
    requires UniqueIds(rt.plan) && n in rt.plan && MayStart(rt, n)
    ensures Carries(Message(rt, n.id), n, rt.outputs)
  {
    UniqueNode(rt.plan, n, NodeAt(rt.plan, n.id));
    SectionsExactly(rt.outputs, n.deps);
  }

  /** A round that judges, aborts or has been told to finish sends nothing. */
  lemma OtherRoundsSendNothing(rt: Runtime, env: Environment)
    requires Inv(rt) && (rt.doneRequested || Outcome(Collect(rt, env.first), []).route != NoProgress)
    ensures Execute(rt, env).sent == []
  {
    CollectInv(rt, env.first);
    OutcomeFacts(Collect(rt, env.first), []);
  }

  /** Nothing planned is pending or waiting. */
  ghost predicate NothingLeft(rt: Runtime) {
    forall n :: n in rt.plan ==> n.id in rt.status && rt.status[n.id] != Pending && rt.status[n.id] != WaitingAssist
  }

  /** The run is over exactly when completion was declared, or when nothing planned is queued, whatever was in
      flight has ended and had been planned away, and no planned node is pending or waiting. */
  lemma DoneExactly(rt: Runtime, env: Environment)
    requires Inv(rt)
    ensures Execute(rt, env).route == Done <==>
              rt.doneRequested
              || ((forall c :: c in rt.completions ==> c.id !in IdSet(rt.plan))
                  && (forall id :: id in rt.running ==> id in env.first && id !in IdSet(rt.plan))
                  && NothingLeft(rt))
  {
    FirstPassExactly(rt, env);
    if !rt.doneRequested {
      OutcomeIsNotDone(Collect(rt, env.first));
      if Outcome(Collect(rt, env.first), []).route == NoProgress {
        DoneInTheSecondPass(rt, env);
      }
    }
  }

  lemma OutcomeIsNotDone(rt: Runtime)
    ensures Outcome(rt, []).route != Done
  {
  }

  lemma DoneInTheSecondPass(rt: Runtime, env: Environment)
    requires Inv(rt) && !rt.doneRequested && Outcome(Collect(rt, env.first), []).route == NoProgress
    ensures Execute(rt, env).route == Done <==> (forall id :: id in rt.running ==> id in env.first) && NothingLeft(rt)
  {
    FirstPassExactly(rt, env);
    CollectInv(rt, env.first);
    var rt1 := Collect(rt, env.first);
    OutcomeFacts(rt1, []);
    var rt2 := rt1.(completions := []);
    assert Outcome(rt1, []).rt == rt2;
    assert Execute(rt, env) == DispatchAndWait(rt2, env);
    DoneAfterDispatch(rt2, env);
    PendingStays(rt, env.first);
    assert NothingLeft(rt2) <==> NothingLeft(rt1);
    NoMembers(rt1.running);
  }

  lemma NoMembers(s: seq<string>)
    ensures s == [] <==> forall x :: x !in s
  {
    if s != [] {
      assert s[0] in s;
    }
  }

  lemma PendingStays(rt: Runtime, finished: map<string, TaskResult>)
    requires Inv(rt) && forall id :: id in rt.running && id in finished ==> !InPlan(rt.plan, id)
    ensures NothingLeft(Collect(rt, finished)) <==> NothingLeft(rt)
  {
    CollectInv(rt, finished);
    var rt1 := Collect(rt, finished);
    forall n | n in rt.plan
      ensures n.id in rt1.status
      ensures rt1.status[n.id] in {Pending, WaitingAssist} <==> rt.status[n.id] in {Pending, WaitingAssist}
    {
      if n.id in rt.running {
        assert rt.status[n.id] == Running && n.id in rt1.running;
      }
    }
  }

  lemma DoneAfterDispatch(rt: Runtime, env: Environment)
    requires Inv(rt)
    ensures DispatchAndWait(rt, env).route == Done <==> rt.running == [] && NothingLeft(rt)
  {
    WorkAfterDispatch(rt);
    WaitedIsNotDone(Collect(StartAll(rt, Dispatchable(rt)), env.second), Messages(rt, Dispatchable(rt)));
  }

  lemma WaitedIsNotDone(rt: Runtime, sent: seq<Sent>)
    ensures Outcome(rt, sent).route != Done
  {
  }

  lemma WorkAfterDispatch(rt: Runtime)
    requires Inv(rt)
    ensures HasWork(StartAll(rt, Dispatchable(rt))) <==> !(rt.running == [] && NothingLeft(rt))
  {
    if Dispatchable(rt) != [] {
      WaitingFacts(rt);
      DispatchableFacts(rt);
      var id := Dispatchable(rt)[0];
      assert id in Dispatchable(rt) && Startable(rt, NodeAt(rt.plan, id));
      assert !NothingLeft(rt);
    } else {
      assert StartAll(rt, Dispatchable(rt)) == rt;
      WorkMeans(rt);
    }
  }

  lemma WorkMeans(rt: Runtime)
    requires PlanOk(rt)
    ensures HasWork(rt) <==> !(rt.running == [] && NothingLeft(rt))
  {
  }

  /** The result of a task is in the records. */
  ghost predicate Entered(rt: Runtime, id: string, result: TaskResult) {
    && id in rt.status && rt.status[id] == (if result.Output? then Completed else Failed)
    && (result.Output? ==> id in rt.outputs && rt.outputs[id] == result.text)
  }

  lemma CollectEnters(rt: Runtime, finished: map<string, TaskResult>, id: string)
    requires Inv(rt)
    ensures id in rt.running && id in finished ==> Entered(Collect(rt, finished), id, finished[id])
    ensures forall result :: !(id in rt.running && id in finished) && Entered(rt, id, result) ==>
              Entered(Collect(rt, finished), id, result)
  {
    CollectSetsStatus(rt, rt.running, finished);
    CollectEntersOutputs(rt, rt.running, finished);
    assert Ended(rt.running, finished, id) <==> id in rt.running && id in finished;
  }

  /** Once completion was declared a round waits for everything in flight and enters every result. */
  lemma DrainsEverything(rt: Runtime, env: Environment)
    requires Inv(rt) && rt.doneRequested && Feasible(rt, env)
    ensures Execute(rt, env).route == Done && Execute(rt, env).rt.running == []
    ensures forall id :: id in rt.running ==>
              && (id in env.first || id in env.drain)
              && Entered(Execute(rt, env).rt, id, if id in env.first then env.first[id] else env.drain[id])
  {
    CollectInv(rt, env.first);
    var rt1 := Collect(rt, env.first);
    CollectInv(rt1, env.drain);
    NoMembers(Collect(rt1, env.drain).running);
    forall id | id in rt.running
      ensures (id in env.first || id in env.drain)
              && Entered(Collect(rt1, env.drain), id, if id in env.first then env.first[id] else env.drain[id])
    {
      CollectEnters(rt, env.first, id);
      CollectEnters(rt1, env.drain, id);
    }
  }

  // ---- collecting and judging ----

  ghost predicate Ended(ids: seq<string>, finished: map<string, TaskResult>, id: string) {
    id in ids && id in finished
  }

  /** Every task that ended is entered with its result, planned or not; no other status changes. */
  lemma {:induction false} CollectSetsStatus(rt: Runtime, ids: seq<string>, finished: map<string, TaskResult>)
    requires forall id :: id in ids ==> id in rt.status
    ensures var rt1 := CollectFrom(rt, ids, finished);
            && rt1.status.Keys == rt.status.Keys
            && forall id :: id in rt.status ==>
                 rt1.status[id] == if !Ended(ids, finished, id) then rt.status[id]
                                   else if finished[id].Output? then Completed else Failed
  {
    if ids != [] {
      var front, id := ids[..|ids| - 1], ids[|ids| - 1];
      assert ids == front + [id];
      CollectSetsStatus(rt, front, finished);
      EndedOneMore(front, id, finished);
      if id in finished {
        FinishSetsStatus(CollectFrom(rt, front, finished), id, finished[id]);
      }
    }
  }

  lemma EndedOneMore(ids: seq<string>, id: string, finished: map<string, TaskResult>)
    ensures forall x :: Ended(ids + [id], finished, x) <==> Ended(ids, finished, x) || (x == id && id in finished)
  {
  }

  lemma FinishSetsStatus(rt: Runtime, id: string, result: TaskResult)
    ensures Finish(rt, id, result).status == rt.status[id := if result.Output? then Completed else Failed]
  {
  }

  ghost function EndedOutputs(ids: seq<string>, finished: map<string, TaskResult>): map<string, string> {
    map id | id in finished && Ended(ids, finished, id) && finished[id].Output? :: finished[id].text
  }

  lemma OneMoreOutput(ids: seq<string>, id: string, finished: map<string, TaskResult>)
    ensures EndedOutputs(ids + [id], finished)
            == if id in finished && finished[id].Output? then EndedOutputs(ids, finished)[id := finished[id].text]
               else EndedOutputs(ids, finished)
  {
    assert forall x :: x in ids + [id] <==> x in ids || x == id;
  }

  /** So is every output. */
  lemma {:induction false} CollectEntersOutputs(rt: Runtime, ids: seq<string>, finished: map<string, TaskResult>)
    ensures CollectFrom(rt, ids, finished).outputs == rt.outputs + EndedOutputs(ids, finished)
  {
    if ids == [] {
      assert rt.outputs + map[] == rt.outputs;
    } else {
      var front, id := ids[..|ids| - 1], ids[|ids| - 1];
      assert ids == front + [id];
      CollectEntersOutputs(rt, front, finished);
      OneMoreOutput(front, id, finished);
      var e := EndedOutputs(front, finished);
      if id in finished && finished[id].Output? {
        assert (rt.outputs + e)[id := finished[id].text] == rt.outputs + e[id := finished[id].text];
      }
    }
  }

  /** The queue grows by the planned ones, in the order in which the tasks were started. */
  lemma {:induction false} CollectQueues(rt: Runtime, ids: seq<string>, finished: map<string, TaskResult>)
    returns (at: seq<nat>)
    requires !rt.doneRequested
    ensures var rt1 := CollectFrom(rt, ids, finished);
            && rt1.plan == rt.plan && !rt1.doneRequested
            && |rt1.completions| == |rt.completions| + |at| && rt1.completions[..|rt.completions|] == rt.completions
            && Ascending(at)
            && (forall i :: 0 <= i < |at| ==>
                  at[i] < |ids| && ids[at[i]] in finished
                  && rt1.completions[|rt.completions| + i] == Completion(ids[at[i]], finished[ids[at[i]]]))
            && (forall k :: 0 <= k < |ids| ==> (k in at <==> ids[k] in finished && ids[k] in IdSet(rt.plan)))
  {
    if ids == [] {
      at := [];
    } else {
      var front, id := ids[..|ids| - 1], ids[|ids| - 1];
      at := CollectQueues(rt, front, finished);
      if id in finished && id in IdSet(rt.plan) {
        at := at + [|front|];
      }
    }
  }

  /** What is left in flight, in order. */
  lemma CollectLeaves(rt: Runtime, finished: map<string, TaskResult>)
    requires Inv(rt)
    ensures forall id :: id in Collect(rt, finished).running <==> id in rt.running && id !in finished
    ensures Distinct(Collect(rt, finished).running)
  {
    CollectInv(rt, finished);
  }

  /** Queue entry k is about a planned node. */
  ghost predicate AboutPlan(rt: Runtime, k: nat)
    requires k < |rt.completions|
  {
    rt.completions[k].id in IdSet(rt.plan)
  }

  /** The first planned entry is taken; it and everything before it leave the queue. */
  lemma {:induction false} PopTakesTheFirst(rt: Runtime, k: nat)
    requires !rt.doneRequested && k < |rt.completions| && AboutPlan(rt, k)
    requires forall j :: 0 <= j < k ==> !AboutPlan(rt, j)
    ensures PopCompletion(rt) == (rt.(completions := rt.completions[k + 1..]), Some(rt.completions[k]))
    decreases k
  {
    var rt1 := rt.(completions := rt.completions[1..]);
    if k > 0 {
      assert !AboutPlan(rt, 0);
      forall j | 0 <= j < k - 1 ensures !AboutPlan(rt1, j) {
        assert !AboutPlan(rt, j + 1);
      }
      PopTakesTheFirst(rt1, k - 1);
      assert rt1.completions[k..] == rt.completions[k + 1..];
    }
  }

  lemma {:induction false} FailureIsTheFirst(rt: Runtime, recs: seq<Completion>, k: nat)
    requires !rt.doneRequested && k < |recs| && recs[k].result.Error? && recs[k].id in IdSet(rt.plan)
    requires forall j :: 0 <= j < k ==> !(recs[j].result.Error? && recs[j].id in IdSet(rt.plan))
    ensures FirstFailure(rt, recs) == Some(recs[k])
  {
    if k > 0 {
      FailureIsTheFirst(rt, recs[1..], k - 1);
    }
  }

  /** With something planned in the queue a round aborts with the first planned failure, if there is one, and
      drops what is in flight. */
  lemma AbortsWithTheFirstFailure(rt: Runtime, sent: seq<Sent>, k: nat)
    requires !rt.doneRequested && k < |rt.completions| && AboutPlan(rt, k) && rt.completions[k].result.Error?
    requires forall j :: 0 <= j < k && AboutPlan(rt, j) ==> rt.completions[j].result.Output?
    ensures Outcome(rt, sent) == Round(rt.(running := []), Abort(rt.completions[k].id), sent)
  {
    forall j | 0 <= j < k ensures !(rt.completions[j].result.Error? && rt.completions[j].id in IdSet(rt.plan)) {
      assert AboutPlan(rt, j) ==> rt.completions[j].result.Output?;
    }
    FailureIsTheFirst(rt, rt.completions, k);
  }

  /** Otherwise it hands over the first planned entry. */
  lemma JudgesTheFirst(rt: Runtime, sent: seq<Sent>, k: nat)
    requires !rt.doneRequested && k < |rt.completions| && AboutPlan(rt, k)
    requires forall j :: 0 <= j < |rt.completions| && AboutPlan(rt, j) ==> j >= k && rt.completions[j].result.Output?
    ensures Outcome(rt, sent)
            == Round(rt.(completions := rt.completions[k + 1..]), Judge(rt.completions[k].id), sent)
  {
    FirstFailureFinds(rt, rt.completions);
    forall c | c in rt.completions ensures !(c.result.Error? && Judgable(rt, c.id)) {
      var j :| 0 <= j < |rt.completions| && rt.completions[j] == c;
      assert AboutPlan(rt, j) ==> c.result.Output?;
    }
    PopTakesTheFirst(rt, k);
  }

  // ---- wiring one assist ----

  /** Ids with an output or a recorded depth have a status. */
  ghost predicate OnlyKnownIds(rt: Runtime) {
    rt.outputs.Keys <= rt.status.Keys && rt.assistDepth.Keys <= rt.status.Keys
  }

  function AssistInstruction(instruction: string, of: string): string {
    instruction + "\n\n[" + of + " output]\n" + ("{{output:" + of + "}}")
  }

  lemma DependenciesAreKnown(rt: Runtime, n: PlanNode)
    requires PlanOk(rt) && OnlyKnownIds(rt) && n in rt.plan
    ensures forall d :: d in n.deps ==> d in rt.status
  {
    forall d | d in n.deps ensures d in rt.status {
      assert DepKnown(rt, d);
    }
  }

  /** Wiring an assist that is not a dependency yet. */
  lemma WireExactly(n: PlanNode, a: string)
    requires a !in n.deps
    ensures WireAssist(n, a) == n.(deps := n.deps + [a], instruction := AssistInstruction(n.instruction, a))
  {
  }

  lemma NextAssistIsNoDependency(rt: Runtime, parent: string, n: PlanNode)
    requires PlanOk(rt) && IdsOk(rt) && OnlyKnownIds(rt) && n in rt.plan
    ensures AssistId(parent, rt.assistSeq + 1) !in n.deps
  {
    AssistIdIsFresh(rt, parent);
    DependenciesAreKnown(rt, n);
  }

  lemma AddAssistNodesExactly(rt: Runtime, parent: string, agent: string, instruction: string)
    requires PlanOk(rt) && IdsOk(rt) && OnlyKnownIds(rt) && InPlan(rt.plan, parent)
    ensures var plan1, a := AddAssist(rt, parent, agent, instruction).plan, AssistId(parent, rt.assistSeq + 1);
            && |plan1| == |rt.plan| + 1
            && plan1[|rt.plan|] == PlanNode(a, agent, AssistInstruction(instruction, parent), [], Some(parent))
            && OnlyParentWired(rt.plan, plan1, parent, a)
  {
    var i, a := IndexOf(rt.plan, parent), AssistId(parent, rt.assistSeq + 1);
    NextAssistIsNoDependency(rt, parent, rt.plan[i]);
    WireParent(rt.plan, parent, i, a, AssistNode(parent, a, agent, instruction));
  }

  /** The parent has a as its last dependency and quotes its output; the other nodes are as they were. */
  ghost predicate OnlyParentWired(plan: seq<PlanNode>, plan1: seq<PlanNode>, parent: string, a: string)
    requires |plan| <= |plan1|
  {
    forall k :: 0 <= k < |plan| ==>
      plan1[k] == if plan[k].id != parent then plan[k]
                  else plan[k].(deps := plan[k].deps + [a], instruction := AssistInstruction(plan[k].instruction, a))
  }

  lemma WireParent(plan: seq<PlanNode>, parent: string, i: nat, a: string, assist: PlanNode)
    requires UniqueIds(plan) && i < |plan| && plan[i].id == parent && a !in plan[i].deps
    ensures OnlyParentWired(plan, plan[i := WireAssist(plan[i], a)] + [assist], parent, a)
  {
    WireExactly(plan[i], a);
  }

  /** The parent's instruction and dependencies grow by the assist, and the parent waits.  The assist is a new
      pending node at the end of the plan, without dependencies, one level deeper than its parent. */
  lemma AddAssistExactly(rt: Runtime, parent: string, agent: string, instruction: string)
    requires PlanOk(rt) && IdsOk(rt) && OnlyKnownIds(rt) && InPlan(rt.plan, parent)
    ensures var rt1, a := AddAssist(rt, parent, agent, instruction), parent + "-assist" + Ids.Dec(rt.assistSeq + 1);
            && rt1.plan[|rt.plan|..] == [PlanNode(a, agent, AssistInstruction(instruction, parent), [], Some(parent))]
            && OnlyParentWired(rt.plan, rt1.plan, parent, a)
            && a !in rt.status && rt1.status == rt.status[a := Pending][parent := WaitingAssist]
            && rt1.assistDepth
                 == rt.assistDepth[a := (if parent in rt.assistDepth then rt.assistDepth[parent] else 0) + 1]
            && rt1 == rt.(plan := rt1.plan, status := rt1.status, assistDepth := rt1.assistDepth,
                          assistSeq := rt.assistSeq + 1)
  {
    AssistIdIsFresh(rt, parent);
    AddAssistNodesExactly(rt, parent, agent, instruction);
  }

  // ---- Helper rounds ----

  /** Mention k asks for an assist: of another agent, not mentioned before, that does not assist the node yet. */
  ghost predicate Asks(rt: Runtime, parent: PlanNode, mentions: seq<(string, string)>, k: nat)
    requires k < |mentions|
  {
    && mentions[k].0 != parent.agent
    && (forall j :: 0 <= j < k ==> mentions[j].0 != mentions[k].0)
    && forall n :: n in rt.plan ==> n.assistFor != Some(parent.id) || n.agent != mentions[k].0
  }

  lemma {:induction false} CandidatesExactly(rt: Runtime, parent: PlanNode, mentions: seq<(string, string)>)
    returns (at: seq<nat>)
    ensures |at| == |Candidates(rt, parent, mentions)| && Ascending(at)
    ensures forall i :: 0 <= i < |at| ==> at[i] < |mentions| && Candidates(rt, parent, mentions)[i] == mentions[at[i]]
    ensures forall k :: 0 <= k < |mentions| ==> (k in at <==> Asks(rt, parent, mentions, k))
  {
    if mentions == [] {
      at := [];
    } else {
      var front, m := mentions[..|mentions| - 1], mentions[|mentions| - 1];
      at := CandidatesExactly(rt, parent, front);
      assert forall k :: 0 <= k < |front| ==> (Asks(rt, parent, mentions, k) <==> Asks(rt, parent, front, k));
      if Asks(rt, parent, mentions, |front|) {
        at := at + [|front|];
      }
    }
  }

  /** The ids of a round's assists. */
  ghost function RoundIds(parent: string, assistSeq: nat, n: nat): (r: seq<string>)
    ensures |r| == n
  {
    if n == 0 then [] else RoundIds(parent, assistSeq, n - 1) + [parent + "-assist" + Ids.Dec(assistSeq + n)]
  }

  ghost function WithReferences(instruction: string, ids: seq<string>): string {
    if ids == [] then instruction
    else AssistInstruction(WithReferences(instruction, ids[..|ids| - 1]), ids[|ids| - 1])
  }

  /** The plan after assists for these requests have been wired into the parent. */
  ghost predicate WiredPlan(rt: Runtime, plan1: seq<PlanNode>, parent: string, cs: seq<(string, string)>) {
    var ids := RoundIds(parent, rt.assistSeq, |cs|);
    && |plan1| == |rt.plan| + |cs|
    && (forall k {:trigger plan1[k]} :: 0 <= k < |rt.plan| ==>
          plan1[k] == if rt.plan[k].id != parent then rt.plan[k]
                      else rt.plan[k].(deps := rt.plan[k].deps + ids,
                                       instruction := WithReferences(rt.plan[k].instruction, ids)))
    && forall i {:trigger cs[i]} :: 0 <= i < |cs| ==>
         plan1[|rt.plan| + i] == PlanNode(ids[i], cs[i].0, AssistInstruction(cs[i].1, parent), [], Some(parent))
  }

  /** The assists are new and pending, the parent waits, and no other status changes. */
  ghost predicate WiredStatus(rt: Runtime, rt1: Runtime, parent: string, n: nat) {
    var ids := RoundIds(parent, rt.assistSeq, n);
    && (forall id :: id in rt1.status <==> id in rt.status || id in ids)
    && (forall id :: id in ids ==> id !in rt.status && id in rt1.status && rt1.status[id] == Pending)
    && (forall id :: id in rt.status && id != parent ==> id in rt1.status && rt1.status[id] == rt.status[id])
    && (n > 0 ==> parent in rt1.status && rt1.status[parent] == WaitingAssist)
  }

  /** The assists are one level deeper than the parent, and no other recorded depth changes. */
  ghost predicate WiredDepth(rt: Runtime, rt1: Runtime, parent: string, n: nat) {
    && (forall id :: id in RoundIds(parent, rt.assistSeq, n) ==>
          id in rt1.assistDepth && rt1.assistDepth[id] == DepthOf(rt, parent) + 1)
    && (forall id :: id in rt.status ==> DepthOf(rt1, id) == DepthOf(rt, id))
  }

  ghost predicate WiredRest(rt: Runtime, rt1: Runtime, parent: string, n: nat) {
    && rt1 == rt.(plan := rt1.plan, status := rt1.status, assistDepth := rt1.assistDepth, assistSeq := rt.assistSeq + n)
    && WiredStatus(rt, rt1, parent, n) && WiredDepth(rt, rt1, parent, n) && OnlyKnownIds(rt1)
  }

  lemma ParentStaysPut(rt: Runtime, plan1: seq<PlanNode>, parent: string, cs: seq<(string, string)>)
    requires WiredPlan(rt, plan1, parent, cs) && UniqueIds(plan1) && InPlan(rt.plan, parent)
    ensures forall k :: |rt.plan| <= k < |plan1| ==> plan1[k].id != parent
  {
    var p := IndexOf(rt.plan, parent);
    assert plan1[p].id == parent;
  }

  lemma WireOldNode(rt: Runtime, rt1: Runtime, parent: string, front: seq<(string, string)>, c: (string, string),
                    k: nat)
    requires PlanOk(rt1) && IdsOk(rt1) && OnlyKnownIds(rt1) && InPlan(rt1.plan, parent)
    requires WiredPlan(rt, rt1.plan, parent, front) && rt1.assistSeq == rt.assistSeq + |front| && k < |rt.plan|
    ensures var ids := RoundIds(parent, rt.assistSeq, |front| + 1);
            AddAssist(rt1, parent, c.0, c.1).plan[k]
            == if rt.plan[k].id != parent then rt.plan[k]
               else rt.plan[k].(deps := rt.plan[k].deps + ids,
                                instruction := WithReferences(rt.plan[k].instruction, ids))
  {
    var ids0, ids := RoundIds(parent, rt.assistSeq, |front|), RoundIds(parent, rt.assistSeq, |front| + 1);
    assert ids[..|ids| - 1] == ids0;
    AddAssistNodesExactly(rt1, parent, c.0, c.1);
    Associates(rt.plan[k].deps, ids0, [ids[|front|]]);
  }

  lemma WireNewNode(rt: Runtime, rt1: Runtime, parent: string, front: seq<(string, string)>, c: (string, string),
                    i: nat)
    requires PlanOk(rt1) && IdsOk(rt1) && OnlyKnownIds(rt1) && InPlan(rt1.plan, parent) && InPlan(rt.plan, parent)
    requires WiredPlan(rt, rt1.plan, parent, front) && rt1.assistSeq == rt.assistSeq + |front| && i <= |front|
    ensures var ids, a := RoundIds(parent, rt.assistSeq, |front| + 1), (front + [c])[i];
            AddAssist(rt1, parent, c.0, c.1).plan[|rt.plan| + i]
            == PlanNode(ids[i], a.0, AssistInstruction(a.1, parent), [], Some(parent))
  {
    var ids0, ids := RoundIds(parent, rt.assistSeq, |front|), RoundIds(parent, rt.assistSeq, |front| + 1);
    AddAssistNodesExactly(rt1, parent, c.0, c.1);
    if i < |front| {
      assert (front + [c])[i] == front[i] && ids[i] == ids0[i];
      ParentStaysPut(rt, rt1.plan, parent, front);
    }
  }

  lemma WireOneMore(rt: Runtime, rt1: Runtime, parent: string, front: seq<(string, string)>, c: (string, string))
    requires PlanOk(rt1) && IdsOk(rt1) && OnlyKnownIds(rt1) && InPlan(rt1.plan, parent) && InPlan(rt.plan, parent)
    requires WiredPlan(rt, rt1.plan, parent, front) && rt1.assistSeq == rt.assistSeq + |front|
    ensures WiredPlan(rt, AddAssist(rt1, parent, c.0, c.1).plan, parent, front + [c])
  {
    var cs, plan2 := front + [c], AddAssist(rt1, parent, c.0, c.1).plan;
    var ids := RoundIds(parent, rt.assistSeq, |cs|);
    forall k {:trigger plan2[k]} | 0 <= k < |rt.plan|
      ensures plan2[k] == if rt.plan[k].id != parent then rt.plan[k]
                          else rt.plan[k].(deps := rt.plan[k].deps + ids,
                                           instruction := WithReferences(rt.plan[k].instruction, ids))
    {
      WireOldNode(rt, rt1, parent, front, c, k);
    }
    forall i {:trigger cs[i]} | 0 <= i < |cs|
      ensures plan2[|rt.plan| + i] == PlanNode(ids[i], cs[i].0, AssistInstruction(cs[i].1, parent), [], Some(parent))
    {
      WireNewNode(rt, rt1, parent, front, c, i);
    }
  }

  lemma RoundIdsOneMore(parent: string, assistSeq: nat, n: nat)
    ensures var ids, a := RoundIds(parent, assistSeq, n), parent + "-assist" + Ids.Dec(assistSeq + n + 1);
            forall id :: id in RoundIds(parent, assistSeq, n + 1) <==> id in ids || id == a
  {
  }

  lemma WireStatusOneMore(rt: Runtime, rt1: Runtime, parent: string, n: nat, a: string, rt2: Runtime)
    requires parent in rt.status && WiredStatus(rt, rt1, parent, n)
    requires a == parent + "-assist" + Ids.Dec(rt.assistSeq + n + 1) && a !in rt1.status
    requires rt2.status == rt1.status[a := Pending][parent := WaitingAssist]
    ensures WiredStatus(rt, rt2, parent, n + 1)
  {
    RoundIdsOneMore(parent, rt.assistSeq, n);
  }

  lemma WireDepthOneMore(rt: Runtime, rt1: Runtime, parent: string, n: nat, a: string, rt2: Runtime)
    requires parent in rt.status && WiredStatus(rt, rt1, parent, n) && WiredDepth(rt, rt1, parent, n)
    requires a == parent + "-assist" + Ids.Dec(rt.assistSeq + n + 1) && a !in rt1.status
    requires rt2.assistDepth == rt1.assistDepth[a := DepthOf(rt1, parent) + 1]
    ensures WiredDepth(rt, rt2, parent, n + 1)
  {
    RoundIdsOneMore(parent, rt.assistSeq, n);
    forall id | id in rt.status ensures DepthOf(rt2, id) == DepthOf(rt, id) {
      assert id in rt1.status;
    }
  }

  lemma WireRestOneMore(rt: Runtime, rt1: Runtime, parent: string, n: nat, c: (string, string))
    requires PlanOk(rt1) && IdsOk(rt1) && InPlan(rt1.plan, parent) && parent in rt.status
    requires WiredRest(rt, rt1, parent, n)
    ensures WiredRest(rt, AddAssist(rt1, parent, c.0, c.1), parent, n + 1)
  {
    AddAssistExactly(rt1, parent, c.0, c.1);
    var rt2, a := AddAssist(rt1, parent, c.0, c.1), parent + "-assist" + Ids.Dec(rt1.assistSeq + 1);
    WireStatusOneMore(rt, rt1, parent, n, a, rt2);
    WireDepthOneMore(rt, rt1, parent, n, a, rt2);
  }

  lemma AssistsOneMore(rt: Runtime, parent: string, front: seq<(string, string)>, c: (string, string))
    requires Inv(rt) && OnlyKnownIds(rt) && Judged(rt, parent) && CanAddAssists(rt, parent, |front| + 1)
    requires WiredPlan(rt, AddAssists(rt, parent, front).plan, parent, front)
    requires WiredRest(rt, AddAssists(rt, parent, front), parent, |front|)
    ensures var rt2 := AddAssist(AddAssists(rt, parent, front), parent, c.0, c.1);
            WiredPlan(rt, rt2.plan, parent, front + [c]) && WiredRest(rt, rt2, parent, |front| + 1)
  {
    AddAssistsInv(rt, parent, front);
    WireOneMore(rt, AddAssists(rt, parent, front), parent, front, c);
    WireRestOneMore(rt, AddAssists(rt, parent, front), parent, |front|, c);
  }

  lemma {:induction false} AssistsExactly(rt: Runtime, parent: string, cs: seq<(string, string)>)
    requires Inv(rt) && OnlyKnownIds(rt) && Judged(rt, parent) && CanAddAssists(rt, parent, |cs|)
    ensures WiredPlan(rt, AddAssists(rt, parent, cs).plan, parent, cs)
    ensures WiredRest(rt, AddAssists(rt, parent, cs), parent, |cs|)
  {
    if cs == [] {
      NothingWired(rt, parent);
    } else {
      var front, c := cs[..|cs| - 1], cs[|cs| - 1];
      assert cs == front + [c];
      AssistsExactly(rt, parent, front);
      AssistsOneMore(rt, parent, front, c);
      AddAssistsLast(rt, parent, front, c);
    }
  }

  lemma AddAssistsLast(rt: Runtime, parent: string, front: seq<(string, string)>, c: (string, string))
    requires InPlan(rt.plan, parent)
    ensures AddAssists(rt, parent, front + [c]) == AddAssist(AddAssists(rt, parent, front), parent, c.0, c.1)
  {
    assert (front + [c])[..|front|] == front;
  }

  lemma NothingWired(rt: Runtime, parent: string)
    requires OnlyKnownIds(rt) && InPlan(rt.plan, parent) && parent in rt.status
    ensures WiredPlan(rt, rt.plan, parent, []) && WiredRest(rt, rt, parent, 0)
  {
    forall k | 0 <= k < |rt.plan|
      ensures rt.plan[k].(deps := rt.plan[k].deps + [], instruction := rt.plan[k].instruction) == rt.plan[k]
    {
      assert rt.plan[k].deps + [] == rt.plan[k].deps;
    }
  }

  /** A Helper round: it routes to the Executor exactly when some mention asks for an assist and neither the depth
      limit nor the plan's capacity stands against all that do; then each of them is wired in, in order, and
      otherwise nothing changes. */
  lemma HelpExactly(rt: Runtime, id: string, mentions: seq<(string, string)>)
    returns (at: seq<nat>, asked: seq<(string, string)>)
    requires Inv(rt) && OnlyKnownIds(rt) && Judged(rt, id)
    ensures |asked| == |at| && Ascending(at)
    ensures forall i :: 0 <= i < |at| ==> at[i] < |mentions| && asked[i] == mentions[at[i]]
    ensures forall k :: 0 <= k < |mentions| ==> (k in at <==> Asks(rt, NodeAt(rt.plan, id), mentions, k))
    ensures Help(rt, id, mentions).1 <==>
              at != [] && DepthOf(rt, id) < MAX_ASSIST_DEPTH && |rt.plan| + |at| <= MAX_PLAN_NODES
    ensures var (rt1, execute) := Help(rt, id, mentions);
            if execute then WiredPlan(rt, rt1.plan, id, asked) && WiredRest(rt, rt1, id, |asked|) else rt1 == rt
  {
    asked := Candidates(rt, NodeAt(rt.plan, id), mentions);
    at := CandidatesExactly(rt, NodeAt(rt.plan, id), mentions);
    if Help(rt, id, mentions).1 {
      AssistsExactly(rt, id, asked);
    }
  }

  // ---- nesting ----

  lemma ExecuteKeepsDepths(rt: Runtime, env: Environment)
    requires Inv(rt)
    ensures var rt1 := Execute(rt, env).rt;
            && rt1.assistDepth == rt.assistDepth && rt1.status.Keys == rt.status.Keys
            && (rt.outputs.Keys <= rt.status.Keys ==> rt1.outputs.Keys <= rt1.status.Keys)
  {
    CollectKeepsDepths(rt, env.first);
    CollectInv(rt, env.first);
    var rt1 := Collect(rt, env.first);
    OutcomeFacts(rt1, []);
    if rt1.doneRequested {
      CollectKeepsDepths(rt1, env.drain);
    } else if Outcome(rt1, []).route == NoProgress {
      DispatchKeepsDepths(Outcome(rt1, []).rt, env);
    }
  }

  lemma CollectKeepsDepths(rt: Runtime, finished: map<string, TaskResult>)
    requires Inv(rt)
    ensures var rt1 := Collect(rt, finished);
            && rt1.assistDepth == rt.assistDepth && rt1.status.Keys == rt.status.Keys
            && (rt.outputs.Keys <= rt.status.Keys ==> rt1.outputs.Keys <= rt1.status.Keys)
  {
    CollectInv(rt, finished);
    CollectEntersOutputs(rt, rt.running, finished);
  }

  lemma DispatchKeepsDepths(rt: Runtime, env: Environment)
    requires Inv(rt)
    ensures var rt1 := DispatchAndWait(rt, env).rt;
            && rt1.assistDepth == rt.assistDepth && rt1.status.Keys == rt.status.Keys
            && (rt.outputs.Keys <= rt.status.Keys ==> rt1.outputs.Keys <= rt1.status.Keys)
  {
    WaitingFacts(rt);
    var rt1 := StartAll(rt, Dispatchable(rt));
    CollectKeepsDepths(rt1, env.second);
    CollectInv(rt1, env.second);
    OutcomeFacts(Collect(rt1, env.second), Messages(rt, Dispatchable(rt)));
  }

  /** A depth, once recorded or left at nought, stays as long as its id is known. */
  ghost predicate DepthsStay(rt: Runtime, rt1: Runtime) {
    && rt.status.Keys <= rt1.status.Keys
    && forall id :: id in rt.status ==> DepthOf(rt1, id) == DepthOf(rt, id)
  }

  lemma StepKeepsDepths(m: Machine, e: Event)
    requires MachineInv(m) && Enabled(m, e) && OnlyKnownIds(m.rt)
    ensures OnlyKnownIds(Next(m, e).rt) && DepthsStay(m.rt, Next(m, e).rt)
  {
    match e
    case Exec(plan, env) =>
      if plan.Some? && WellFormed(plan.value, MAX_PLAN_NODES) {
        ApplyPlanInv(m.rt, plan.value);
        RewriteKeepsTheRest(m.rt, plan.value);
      }
      if plan.None? || WellFormed(plan.value, MAX_PLAN_NODES) {
        ExecuteKeepsDepths(DagMachine.Planned(m.rt, plan), env);
      }
    case HelpWith(mentions) =>
      var at, asked := HelpExactly(m.rt, m.judging.value, mentions);
  }

  lemma WiringDeepens(m: Machine, e: Event, node: string, assist: string)
    requires MachineInv(m) && Enabled(m, e) && OnlyKnownIds(m.rt) && Wires(m, e, node, assist)
    ensures node in m.rt.status && assist in Next(m, e).rt.status
    ensures DepthOf(Next(m, e).rt, assist) == DepthOf(m.rt, node) + 1
  {
    var at, asked := HelpExactly(m.rt, node, e.mentions);
    var rt1, ids := Next(m, e).rt, RoundIds(node, m.rt.assistSeq, |asked|);
    NewIdsAreAssists(m.rt, rt1.plan, node, asked);
    assert assist in ids;
  }

  lemma OldNodesKeepTheirIds(rt: Runtime, plan1: seq<PlanNode>, parent: string, cs: seq<(string, string)>)
    requires WiredPlan(rt, plan1, parent, cs)
    ensures forall k :: 0 <= k < |rt.plan| ==> plan1[k].id in IdSet(rt.plan)
  {
    forall k | 0 <= k < |rt.plan| ensures plan1[k].id in IdSet(rt.plan) {
      assert rt.plan[k] in rt.plan && plan1[k].id == rt.plan[k].id;
    }
  }

  lemma NewIdsAreAssists(rt: Runtime, plan1: seq<PlanNode>, parent: string, cs: seq<(string, string)>)
    requires WiredPlan(rt, plan1, parent, cs)
    ensures forall id :: id in IdSet(plan1) - IdSet(rt.plan) ==> id in RoundIds(parent, rt.assistSeq, |cs|)
  {
    OldNodesKeepTheirIds(rt, plan1, parent, cs);
    forall id | id in IdSet(plan1) - IdSet(rt.plan) ensures id in RoundIds(parent, rt.assistSeq, |cs|) {
      var k :| 0 <= k < |plan1| && plan1[k].id == id;
      var i := k - |rt.plan|;
      assert cs[i].0 == plan1[|rt.plan| + i].agent
             && plan1[|rt.plan| + i].id == RoundIds(parent, rt.assistSeq, |cs|)[i];
    }
  }

  lemma {:induction false} TracesKnowTheirIds(events: seq<Event>, ms: seq<Machine>, k: nat)
    requires IsTrace(events, ms) && k < |ms|
    ensures OnlyKnownIds(ms[k].rt)
  {
    if k > 0 {
      TracesKnowTheirIds(events, ms, k - 1);
      TracesKeepInv(events, ms, k - 1);
      StepKeepsDepths(ms[k - 1], events[k - 1]);
    }
  }

  lemma DepthsStayOnce(events: seq<Event>, ms: seq<Machine>, k: nat)
    requires IsTrace(events, ms) && k < |events|
    ensures DepthsStay(ms[k].rt, ms[k + 1].rt)
  {
    TracesKnowTheirIds(events, ms, k);
    TracesKeepInv(events, ms, k);
    StepKeepsDepths(ms[k], events[k]);
  }

  lemma {:induction false} DepthsStayAlong(events: seq<Event>, ms: seq<Machine>, i: nat, k: nat)
    requires IsTrace(events, ms) && i <= k < |ms|
    ensures DepthsStay(ms[i].rt, ms[k].rt)
  {
    if i < k {
      DepthsStayAlong(events, ms, i, k - 1);
      DepthsStayOnce(events, ms, k - 1);
    }
  }

  /** At some point of the run the assist was wired into the node. */
  ghost predicate WiredInto(events: seq<Event>, ms: seq<Machine>, node: string, assist: string)
    requires IsTrace(events, ms)
  {
    exists j {:trigger events[j]} :: 0 <= j < |events| && Wires(ms[j], events[j], node, assist)
  }

  lemma WiredAtIsDeeper(events: seq<Event>, ms: seq<Machine>, j: nat, node: string, assist: string)
    requires IsTrace(events, ms) && j < |events| && Wires(ms[j], events[j], node, assist)
    ensures node in ms[j].rt.status && assist in ms[j + 1].rt.status
    ensures DepthOf(ms[j + 1].rt, assist) == DepthOf(ms[j].rt, node) + 1
  {
    TracesKeepInv(events, ms, j);
    TracesKnowTheirIds(events, ms, j);
    WiringDeepens(ms[j], events[j], node, assist);
  }

  lemma WiredIsDeeper(events: seq<Event>, ms: seq<Machine>, node: string, assist: string)
    requires IsTrace(events, ms) && WiredInto(events, ms, node, assist)
    ensures DepthOf(ms[|events|].rt, assist) == DepthOf(ms[|events|].rt, node) + 1
  {
    var j {:trigger events[j]} :| 0 <= j < |events| && Wires(ms[j], events[j], node, assist);
    WiredAtIsDeeper(events, ms, j, node, assist);
    DepthsStayAlong(events, ms, j, |events|);
    DepthsStayAlong(events, ms, j + 1, |events|);
  }

  /** Each of these ids was wired into the one before it. */
  ghost predicate Chain(events: seq<Event>, ms: seq<Machine>, ids: seq<string>)
    requires IsTrace(events, ms)
  {
    ids != [] && forall i {:trigger ids[i]} :: 0 < i < |ids| ==> WiredInto(events, ms, ids[i - 1], ids[i])
  }

  lemma ChainFront(events: seq<Event>, ms: seq<Machine>, ids: seq<string>)
    requires IsTrace(events, ms) && Chain(events, ms, ids) && |ids| > 1
    ensures Chain(events, ms, ids[..|ids| - 1]) && WiredInto(events, ms, ids[|ids| - 2], ids[|ids| - 1])
  {
    var front := ids[..|ids| - 1];
    forall i {:trigger front[i]} | 0 < i < |front| ensures WiredInto(events, ms, front[i - 1], front[i]) {
      assert front[i] == ids[i] && front[i - 1] == ids[i - 1];
    }
    assert ids[|ids| - 1] in ids;
  }

  lemma {:induction false} ChainDepth(events: seq<Event>, ms: seq<Machine>, ids: seq<string>)
    requires IsTrace(events, ms) && Chain(events, ms, ids)
    ensures DepthOf(ms[|events|].rt, ids[|ids| - 1]) == DepthOf(ms[|events|].rt, ids[0]) + |ids| - 1
  {
    if |ids| > 1 {
      ChainFront(events, ms, ids);
      ChainDepth(events, ms, ids[..|ids| - 1]);
      WiredIsDeeper(events, ms, ids[|ids| - 2], ids[|ids| - 1]);
    }
  }

  /** Assists of assists of assists: in no run is one nested deeper than MAX_ASSIST_DEPTH. */
  lemma NestingIsBounded(events: seq<Event>, ms: seq<Machine>, ids: seq<string>)
    requires IsTrace(events, ms) && Chain(events, ms, ids)
    ensures |ids| - 1 <= MAX_ASSIST_DEPTH
  {
    ChainDepth(events, ms, ids);
    TracesKeepInv(events, ms, |events|);
  }
}
