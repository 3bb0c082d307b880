/** The state of one orchestration run and what each of its transitions does, on values.
    DagRuntime.dfy holds the mutable class that is proved against these functions. */
module DagSpec {
  import opened Common
  import opened Digraph
  import opened Plan
  import Ids

  const MAX_ASSIST_DEPTH := 3
  const MAX_PLAN_NODES := 20

  datatype Status = Pending | Running | WaitingAssist | Completed | Failed | Cancelled

  /** How a node run ended: its output, or the error it raised. */
  datatype TaskResult = Output(text: string) | Error(message: string)

  /** A boundary event waiting to be judged. */
  datatype Completion = Completion(id: string, result: TaskResult)

  datatype Runtime = Runtime(
    plan: seq<PlanNode>,
    status: map<string, Status>,
    outputs: map<string, string>,
    running: seq<string>,
    completions: seq<Completion>,
    doneRequested: bool,
    assistSeq: nat,
    assistDepth: map<string, nat>)

  const EMPTY := Runtime([], map[], map[], [], [], false, 0, map[])

  // ---- plan ----

  predicate InPlan(plan: seq<PlanNode>, id: string) {
    id in IdSet(plan)
  }

  /** Where the first node with this id stands. */
  function IndexOf(plan: seq<PlanNode>, id: string): (i: nat)
    requires InPlan(plan, id)
    ensures i < |plan| && plan[i].id == id && forall j :: 0 <= j < i ==> plan[j].id != id
  {
    if plan[0].id == id then 0
    else
      assert plan == [plan[0]] + plan[1..];
      1 + IndexOf(plan[1..], id)
  }

  function NodeAt(plan: seq<PlanNode>, id: string): (n: PlanNode)
    requires InPlan(plan, id)
    ensures n in plan && n.id == id
  {
    plan[IndexOf(plan, id)]
  }

  function NewStatus(rt: Runtime, newPlan: seq<PlanNode>): map<string, Status> {
    rt.status + map id | id in IdSet(newPlan) && !InPlan(rt.plan, id)
                         && (id !in rt.status || rt.status[id] in {Pending, Cancelled}) :: Pending
  }

  /** deps without repetitions, keeping only members of keep. */
  function MergeDeps(deps: seq<string>, keep: set<string>): (m: seq<string>)
    ensures forall d :: d in m <==> d in deps && d in keep
  {
    if deps == [] then []
    else
      var front, last := MergeDeps(deps[..|deps| - 1], keep), deps[|deps| - 1];
      if last !in front && last in keep then front + [last] else front
  }

  /** Node n of the new plan, knowing its predecessor o in the old one. */
  function MergeInto(o: PlanNode, n: PlanNode, waiting: bool, keep: set<string>): PlanNode {
    n.(assistFor := if o.assistFor.Some? && n.assistFor.None? then o.assistFor else n.assistFor,
       deps := if waiting then MergeDeps(n.deps + o.deps, keep) else n.deps)
  }

  function MergeNode(rt: Runtime, newIds: set<string>, n: PlanNode): PlanNode {
    if !InPlan(rt.plan, n.id) then n
    else
      var waiting := n.id in rt.status && rt.status[n.id] == WaitingAssist;
      MergeInto(NodeAt(rt.plan, n.id), n, waiting, newIds + rt.outputs.Keys)
  }

  function MergeFrom(rt: Runtime, newIds: set<string>, nodes: seq<PlanNode>): (r: seq<PlanNode>)
    ensures |r| == |nodes|
    ensures forall i :: 0 <= i < |r| ==> r[i] == MergeNode(rt, newIds, nodes[i])
  {
    seq(|nodes|, i requires 0 <= i < |nodes| => MergeNode(rt, newIds, nodes[i]))
  }

  /** Replace the plan by the Planner's complete new plan, diffing by id. */
  function ApplyPlan(rt: Runtime, newPlan: seq<PlanNode>): Runtime {
    rt.(doneRequested := newPlan == [],
        completions := if newPlan == [] then [] else rt.completions,
        status := NewStatus(rt, newPlan),
        plan := MergeFrom(rt, IdSet(newPlan), newPlan))
  }

  // ---- dispatch ----

  predicate Startable(rt: Runtime, n: PlanNode) {
    && n.id in rt.status
    && rt.status[n.id] in {Pending, WaitingAssist}
    && forall d :: d in n.deps ==> d in rt.outputs
  }

  function StartableIds(rt: Runtime, plan: seq<PlanNode>): (ids: seq<string>)
    ensures forall id :: id in ids <==> exists n :: n in plan && n.id == id && Startable(rt, n)
  {
    if plan == [] then []
    else
      var front, last := plan[..|plan| - 1], plan[|plan| - 1];
      assert plan == front + [last];
      StartableIds(rt, front) + if Startable(rt, last) then [last.id] else []
  }

  function Dispatchable(rt: Runtime): seq<string> {
    StartableIds(rt, rt.plan)
  }

  predicate HasWork(rt: Runtime) {
    || rt.running != []
    || exists n :: n in rt.plan && n.id in rt.status && rt.status[n.id] in {Pending, WaitingAssist}
  }

  /** The part of the dispatch message that carries dependency outputs, in dependency order. */
  function DepSections(outputs: map<string, string>, deps: seq<string>): (r: seq<string>)
    ensures forall d :: d in deps && d in outputs ==> DepSection(d, outputs[d]) in r
  {
    if deps == [] then []
    else
      var front, last := deps[..|deps| - 1], deps[|deps| - 1];
      assert deps == front + [last];
      DepSections(outputs, front) + if last in outputs then [DepSection(last, outputs[last])] else []
  }

  function DepSection(dep: string, output: string): string {
    "[" + dep + " output]\n" + output
  }

  /** One started task: the node, the agent that runs it and the message it was sent. */
  datatype Sent = Sent(id: string, agent: string, instruction: string, sections: seq<string>)

  function Message(rt: Runtime, id: string): Sent
    requires InPlan(rt.plan, id)
  {
    var n := NodeAt(rt.plan, id);
    Sent(id, n.agent, n.instruction, DepSections(rt.outputs, n.deps))
  }

  function Start(rt: Runtime, id: string): Runtime {
    rt.(status := rt.status[id := Running], running := rt.running + [id])
  }

  function StartAll(rt: Runtime, ids: seq<string>): Runtime {
    if ids == [] then rt else Start(StartAll(rt, ids[..|ids| - 1]), ids[|ids| - 1])
  }

  // ---- boundary events ----

  predicate Judgable(rt: Runtime, id: string) {
    !rt.doneRequested && InPlan(rt.plan, id)
  }

  function Record(rt: Runtime, id: string, result: TaskResult): Runtime {
    var rt1 := if result.Output?
               then rt.(status := rt.status[id := Completed], outputs := rt.outputs[id := result.text])
               else rt.(status := rt.status[id := Failed]);
    if Judgable(rt, id) then rt1.(completions := rt1.completions + [Completion(id, result)]) else rt1
  }

  /** A finished task leaves the in-flight list and is recorded. */
  function Finish(rt: Runtime, id: string, result: TaskResult): Runtime {
    Record(rt.(running := Without(rt.running, id)), id, result)
  }

  function CollectFrom(rt: Runtime, ids: seq<string>, finished: map<string, TaskResult>): Runtime {
    if ids == [] then rt
    else
      var rt1 := CollectFrom(rt, ids[..|ids| - 1], finished);
      var id := ids[|ids| - 1];
      if id in finished then Finish(rt1, id, finished[id]) else rt1
  }

  function Collect(rt: Runtime, finished: map<string, TaskResult>): Runtime {
    CollectFrom(rt, rt.running, finished)
  }

  function PopCompletion(rt: Runtime): (Runtime, Option<Completion>)
    decreases |rt.completions|
  {
    if rt.completions == [] then (rt, None)
    else
      var rec, rt1 := rt.completions[0], rt.(completions := rt.completions[1..]);
      if Judgable(rt1, rec.id) then (rt1, Some(rec)) else PopCompletion(rt1)
  }

  function FirstFailure(rt: Runtime, recs: seq<Completion>): Option<Completion> {
    if recs == [] then None
    else if recs[0].result.Error? && Judgable(rt, recs[0].id) then Some(recs[0])
    else FirstFailure(rt, recs[1..])
  }

  function FailedCompletion(rt: Runtime): Option<Completion> {
    FirstFailure(rt, rt.completions)
  }

  // ---- assists ----

  function AssistId(parent: string, n: nat): string {
    parent + "-assist" + Ids.Dec(n)
  }

  function OutputRef(id: string): string {
    "{{output:" + id + "}}"
  }

  predicate HasAssistFor(plan: seq<PlanNode>, parent: string, agent: string) {
    exists n :: n in plan && n.assistFor == Some(parent) && n.agent == agent
  }

  function DepthOf(rt: Runtime, id: string): nat {
    if id in rt.assistDepth then rt.assistDepth[id] else 0
  }

  predicate CanAddAssists(rt: Runtime, parent: string, count: nat) {
    DepthOf(rt, parent) + 1 <= MAX_ASSIST_DEPTH && |rt.plan| + count <= MAX_PLAN_NODES
  }

  /** The parent's node once an assist is wired into it. */
  function WireAssist(n: PlanNode, assist: string): PlanNode {
    n.(deps := if assist in n.deps then n.deps else n.deps + [assist],
       instruction := n.instruction + "\n\n[" + assist + " output]\n" + OutputRef(assist))
  }

  function AssistNode(parent: string, assist: string, agent: string, instruction: string): PlanNode {
    PlanNode(assist, agent, instruction + "\n\n[" + parent + " output]\n" + OutputRef(parent), [], Some(parent))
  }

  function AddAssist(rt: Runtime, parent: string, agent: string, instruction: string): Runtime
    requires InPlan(rt.plan, parent)
  {
    var assist := AssistId(parent, rt.assistSeq + 1);
    var i := IndexOf(rt.plan, parent);
    rt.(assistSeq := rt.assistSeq + 1,
        plan := rt.plan[i := WireAssist(rt.plan[i], assist)] + [AssistNode(parent, assist, agent, instruction)],
        status := rt.status[assist := Pending][parent := WaitingAssist],
        assistDepth := rt.assistDepth[assist := DepthOf(rt, parent) + 1])
  }

  // ---- one Executor round ----

  /** Which in-flight tasks have ended when the round starts, after it waited, and (for a drain) at last. */
  datatype Environment = Environment(first: map<string, TaskResult>, second: map<string, TaskResult>,
                                     drain: map<string, TaskResult>)

  datatype Route =
    | Judge(id: string)          // one completion goes to the Helper
    | Done                       // no pending and no running work, or the Planner declared completion
    | Abort(id: string)          // a planned node failed: in-flight tasks are dropped
    | NoProgress                 // "dispatch made no progress"
    | BadPlan                    // the Planner's plan was rejected

  datatype Round = Round(rt: Runtime, route: Route, sent: seq<Sent>)

  function Messages(rt: Runtime, ids: seq<string>): (r: seq<Sent>)
    requires forall id :: id in ids ==> InPlan(rt.plan, id)
    ensures |r| == |ids| && forall i :: 0 <= i < |r| ==> r[i] == Message(rt, ids[i])
  {
    seq(|ids|, i requires 0 <= i < |ids| => Message(rt, ids[i]))
  }

  function Outcome(rt: Runtime, sent: seq<Sent>): Round {
    match FailedCompletion(rt)
    case Some(f) => Round(rt.(running := []), Abort(f.id), sent)
    case None =>
      var (rt1, rec) := PopCompletion(rt);
      match rec
      case Some(c) => Round(rt1, Judge(c.id), sent)
      case None => Round(rt1, NoProgress, sent)
  }

  function DispatchAndWait(rt: Runtime, env: Environment): Round {
    var sent := Messages(rt, Dispatchable(rt));
    var rt1 := StartAll(rt, Dispatchable(rt));
    if !HasWork(rt1) then Round(rt1, Done, sent)
    else Outcome(Collect(rt1, env.second), sent)
  }

  /** The round after the plan input has been applied. */
  function Execute(rt: Runtime, env: Environment): Round {
    var rt1 := Collect(rt, env.first);
    if rt1.doneRequested then Round(Collect(rt1, env.drain), Done, [])
    else
      var r := Outcome(rt1, []);
      if r.route != NoProgress then r else DispatchAndWait(r.rt, env)
  }

  /** What asyncio guarantees: only in-flight tasks end, waiting ends one of them, draining ends them all. */
  ghost predicate Feasible(rt: Runtime, env: Environment) {
    var rt1 := Collect(rt, env.first);
    && (forall id :: id in env.first ==> id in rt.running)
    && (rt1.doneRequested ==> forall id :: id in rt1.running ==> id in env.drain)
    && var r := Outcome(rt1, []);
       var rt2 := StartAll(r.rt, Dispatchable(r.rt));
       !rt1.doneRequested && r.route == NoProgress && rt2.running != [] ==>
         && (forall id :: id in env.second ==> id in rt2.running)
         && env.second != map[]
  }

  // ---- one Helper round ----

  /** Mentions worth an assist: not the node's own agent, not repeated, not already assisting it. */
  function Candidates(rt: Runtime, parent: PlanNode, mentions: seq<(string, string)>): (r: seq<(string, string)>)
    ensures forall i :: 0 <= i < |r| ==>
              r[i] in mentions && r[i].0 != parent.agent && !HasAssistFor(rt.plan, parent.id, r[i].0)
    ensures forall i, j :: 0 <= i < j < |r| ==> r[i].0 != r[j].0
  {
    if mentions == [] then []
    else
      var front, m := mentions[..|mentions| - 1], mentions[|mentions| - 1];
      assert mentions == front + [m];
      var r := Candidates(rt, parent, front);
      if m.0 == parent.agent || (exists k :: 0 <= k < |front| && front[k].0 == m.0)
        || HasAssistFor(rt.plan, parent.id, m.0)
      then r
      else r + [m]
  }

  function AddAssists(rt: Runtime, parent: string, cs: seq<(string, string)>): Runtime
    requires InPlan(rt.plan, parent)
    ensures InPlan(AddAssists(rt, parent, cs).plan, parent)
  {
    if cs == [] then rt
    else
      var rt1 := AddAssists(rt, parent, cs[..|cs| - 1]);
      var rt2 := AddAssist(rt1, parent, cs[|cs| - 1].0, cs[|cs| - 1].1);
      assert rt2.plan[IndexOf(rt1.plan, parent)].id == parent;
      rt2
  }

  /** Helper: wire assists into the judged node ("execute"), or hand over to the Planner. */
  function Help(rt: Runtime, id: string, mentions: seq<(string, string)>): (Runtime, bool) {
    if !InPlan(rt.plan, id) then (rt, false)
    else
      var cs := Candidates(rt, NodeAt(rt.plan, id), mentions);
      if cs == [] || !CanAddAssists(rt, id, |cs|) then (rt, false)
      else (AddAssists(rt, id, cs), true)
  }
}
