/** Join nodes: a node that waits until every predecessor has completed. */
module Join {
  import opened Common
  import opened WorkflowGraph

  datatype Status = Running | Completed

  type Inputs = map<string, Option<string>>

  /** inputs holds the triggers buffered for the join node so far. */
  datatype State = State(status: map<string, Status>, outputs: map<string, string>, inputs: seq<Inputs>)

  datatype Event = Start(name: string) | Finish(name: string, output: Option<string>, routes: set<string>)

  function Predecessors(edges: seq<Edge>, target: string): set<string> {
    set e | e in edges && e.target == target :: e.source
  }

  predicate AllDone(preds: set<string>, status: map<string, Status>) {
    forall p :: p in preds ==> p == START || (p in status && status[p] == Completed)
  }

  function Get(outputs: map<string, string>, p: string): Option<string> {
    if p in outputs then Some(outputs[p]) else None
  }

  function Gathered(preds: set<string>, outputs: map<string, string>): Inputs {
    map p | p in preds :: Get(outputs, p)
  }

  function Barrier(preds: set<string>, s: State): State {
    if AllDone(preds, s.status) then s.(inputs := s.inputs + [Gathered(preds, s.outputs)]) else s
  }

  /** The barrier is consulted once per fired edge into the join node. */
  function Consult(preds: set<string>, s: State, times: nat): State {
    if times == 0 then s else Barrier(preds, Consult(preds, s, times - 1))
  }

  /** How many fired edges of a completed node lead into the target. */
  function Notices(edges: seq<Edge>, target: string, name: string, routes: set<string>): nat {
    multiset(NextNodes(edges, name, routes))[target]
  }

  /** Seeding: START counts as completed, with the workflow's input as its output. */
  function Seeded(edges: seq<Edge>, target: string, input: string): State {
    var k := EdgeCount(edges, START, target, |edges|);
    Consult(Predecessors(edges, target), State(map[], if k > 0 then map[START := input] else map[], []), k)
  }

  /** A node of the graph starts, or completes and leaves its output. */
  function Noted(s: State, e: Event): State {
    match e
    case Start(n) => s.(status := s.status[n := Running])
    case Finish(n, output, _) =>
      s.(status := s.status[n := Completed],
         outputs := if output.Some? then s.outputs[n := output.value] else s.outputs)
  }

  /** A completed node also notifies the join node along the edges that fire. */
  function Step(edges: seq<Edge>, target: string, s: State, e: Event): State {
    Consult(Predecessors(edges, target), Noted(s, e), if e.Finish? then Notices(edges, target, e.name, e.routes) else 0)
  }

  function Run(edges: seq<Edge>, target: string, input: string, log: seq<Event>): State {
    if log == [] then Seeded(edges, target, input)
    else Step(edges, target, Run(edges, target, input, log[..|log| - 1]), log[|log| - 1])
  }

  // ---- the class ----

  class Joiner {
    const edges: seq<Edge>
    const target: string
    var status: map<string, Status>
    var outputs: map<string, string>
    var inputs: seq<Inputs>

    function Value(): State
      reads this
    {
      State(status, outputs, inputs)
    }

    constructor (edges: seq<Edge>, target: string, input: string)
      ensures this.edges == edges && this.target == target && Value() == Seeded(edges, target, input)
    {
      this.edges, this.target := edges, target;
      status, outputs, inputs := map[], map[], [];
      new;
      SeedStartTriggers(input);
    }

    method SeedStartTriggers(input: string)
      requires Value() == State(map[], map[], [])
      modifies this
      ensures Value() == Seeded(edges, target, input)
    {
      ghost var preds := Predecessors(edges, target);
      ghost var seeded := State(map[], map[START := input], []);
      for i := 0 to |edges|
        invariant var k := EdgeCount(edges, START, target, i);
                  Value() == Consult(preds, if k > 0 then seeded else State(map[], map[], []), k)
        invariant status == map[]
        invariant EdgeCount(edges, START, target, i) == 0 ==> inputs == []
      {
        if edges[i].source == START && edges[i].target == target {
          SeedsAgree(preds, input, EdgeCount(edges, START, target, i), Value());
          outputs := outputs[START := input];
          BufferBarrierTrigger();
        }
      }
    }

    method BufferBarrierTrigger()
      modifies this`inputs
      ensures Value() == Barrier(Predecessors(edges, target), old(Value()))
    {
      var predecessors := Predecessors(edges, target);
      if !AllDone(predecessors, status) {
        return;
      }
      inputs := inputs + [Gathered(predecessors, outputs)];
    }

    method StartNode(name: string)
      modifies this`status
      ensures Value() == Step(edges, target, old(Value()), Start(name))
    {
      status := status[name := Running];
    }

    method HandleCompletion(name: string, output: Option<string>, routes: set<string>)
      modifies this
      ensures Value() == Step(edges, target, old(Value()), Finish(name, output, routes))
    {
      status := status[name := Completed];
      if output.Some? {
        outputs := outputs[name := output.value];
      }
      BufferDownstreamTriggers(name, routes);
    }

    method BufferDownstreamTriggers(name: string, routes: set<string>)
      modifies this`inputs
      ensures Value() == Consult(Predecessors(edges, target), old(Value()), Notices(edges, target, name, routes))
    {
      var next := GetNextPendingNodes(edges, name, routes);
      for i := 0 to |next|
        invariant Value() == Consult(Predecessors(edges, target), old(Value()), multiset(next[..i])[target])
      {
        assert next[..i + 1] == next[..i] + [next[i]];
        if next[i] == target {
          BufferBarrierTrigger();
        }
      }
      assert next[..|next|] == next;
    }
  }

  lemma {:induction false} ConsultKeeps(preds: set<string>, s: State, k: nat)
    ensures Consult(preds, s, k) == s.(inputs := Consult(preds, s, k).inputs)
    ensures |Consult(preds, s, k).inputs| == |s.inputs| + if AllDone(preds, s.status) then k else 0
    ensures forall i :: 0 <= i < |s.inputs| ==> Consult(preds, s, k).inputs[i] == s.inputs[i]
    ensures forall i :: |s.inputs| <= i < |Consult(preds, s, k).inputs| ==>
              Consult(preds, s, k).inputs[i] == Gathered(preds, s.outputs)
  {
    if k > 0 {
      ConsultKeeps(preds, s, k - 1);
    }
  }

  lemma SeedsAgree(preds: set<string>, input: string, k: nat, s: State)
    requires s == Consult(preds, State(map[], if k > 0 then map[START := input] else map[], []), k)
    ensures s.(outputs := s.outputs[START := input]) == Consult(preds, State(map[], map[START := input], []), k)
  {
    ConsultKeeps(preds, State(map[], map[START := input], []), k);
    assert map[START := input][START := input] == map[START := input];
  }

  // ---- one run per predecessor ----

  function FinishedIn(log: seq<Event>): set<string> {
    set e | e in log && e.Finish? :: e.name
  }

  function OutputIn(log: seq<Event>, p: string): Option<string> {
    if log == [] then None
    else
      var last := log[|log| - 1];
      if last.Finish? && last.name == p && last.output.Some? then last.output else OutputIn(log[..|log| - 1], p)
  }

  /** No predecessor does anything after it has completed, and START never runs. */
  ghost predicate RunsOnce(preds: set<string>, log: seq<Event>) {
    && (forall e :: e in log ==> e.name != START)
    && (forall i, j :: 0 <= i < j < |log| && log[i].Finish? && log[i].name in preds ==> log[j].name != log[i].name)
  }

  ghost predicate Complete(preds: set<string>, log: seq<Event>) {
    preds <= FinishedIn(log) + {START}
  }

  function Expected(preds: set<string>, input: string, log: seq<Event>): Inputs {
    map p | p in preds :: if p == START then Some(input) else OutputIn(log, p)
  }

  /** How many edges into the target the predecessor that completed last has fired. */
  function LastNotices(edges: seq<Edge>, target: string, log: seq<Event>): nat {
    if log == [] then EdgeCount(edges, START, target, |edges|)
    else
      var last := log[|log| - 1];
      if last.Finish? && last.name in Predecessors(edges, target) then Notices(edges, target, last.name, last.routes)
      else LastNotices(edges, target, log[..|log| - 1])
  }

  ghost predicate Tracks(preds: set<string>, input: string, log: seq<Event>, s: State) {
    && (forall p :: p in preds && p != START ==> (p in FinishedIn(log) <==> p in s.status && s.status[p] == Completed))
    && (forall p :: p in preds ==> Get(s.outputs, p) == if p == START then Some(input) else OutputIn(log, p))
  }

  lemma OneMoreFinished(log: seq<Event>, e: Event)
    ensures FinishedIn(log + [e]) == FinishedIn(log) + if e.Finish? then {e.name} else {}
  {
  }

  /** A predecessor's event comes before its completion has been seen. */
  lemma LastIsNew(preds: set<string>, front: seq<Event>, last: Event)
    requires RunsOnce(preds, front + [last])
    ensures last.name in preds ==> last.name !in FinishedIn(front)
  {
    var log := front + [last];
    forall e | e in front && e.Finish? && e.name in preds ensures e.name != last.name {
      var i :| 0 <= i < |front| && front[i] == e;
      assert log[i] == e && log[|front|] == last;
    }
  }

  lemma {:induction false} StartEdges(edges: seq<Edge>, target: string, k: nat)
    requires k <= |edges|
    ensures EdgeCount(edges, START, target, k) > 0 <==>
              exists i :: 0 <= i < k && edges[i].source == START && edges[i].target == target
  {
    if k > 0 {
      StartEdges(edges, target, k - 1);
    }
  }

  lemma SeedTracks(edges: seq<Edge>, target: string, input: string)
    ensures Tracks(Predecessors(edges, target), input, [], Seeded(edges, target, input))
  {
    var preds, k := Predecessors(edges, target), EdgeCount(edges, START, target, |edges|);
    StartEdges(edges, target, |edges|);
    ConsultKeeps(preds, State(map[], if k > 0 then map[START := input] else map[], []), k);
    if START in preds {
      var e :| e in edges && e.target == target && e.source == START;
      var i :| 0 <= i < |edges| && edges[i] == e;
      assert k > 0;
    }
  }

  lemma NotedTracks(preds: set<string>, input: string, s: State, front: seq<Event>, last: Event)
    requires RunsOnce(preds, front + [last]) && Tracks(preds, input, front, s)
    ensures Tracks(preds, input, front + [last], Noted(s, last))
  {
    var log := front + [last];
    assert log[..|front|] == front && log[|front|] == last && last in log;
    OneMoreFinished(front, last);
    LastIsNew(preds, front, last);
    forall p | p in preds && p != last.name ensures OutputIn(log, p) == OutputIn(front, p) {
    }
    if last.name in preds {
      NeverFinished(front, last.name);
    }
  }

  lemma StepTracks(edges: seq<Edge>, target: string, input: string, s: State, front: seq<Event>, last: Event)
    requires var preds := Predecessors(edges, target); RunsOnce(preds, front + [last]) && Tracks(preds, input, front, s)
    ensures Tracks(Predecessors(edges, target), input, front + [last], Step(edges, target, s, last))
  {
    var preds := Predecessors(edges, target);
    NotedTracks(preds, input, s, front, last);
    ConsultKeeps(preds, Noted(s, last), if last.Finish? then Notices(edges, target, last.name, last.routes) else 0);
  }

  /** Once all have completed the join node is given the expected inputs. */
  lemma TracksDone(preds: set<string>, input: string, log: seq<Event>, s: State)
    requires Tracks(preds, input, log, s)
    ensures AllDone(preds, s.status) <==> Complete(preds, log)
    ensures Gathered(preds, s.outputs) == Expected(preds, input, log)
  {
  }

  lemma {:induction false} NeverFinished(log: seq<Event>, p: string)
    requires p !in FinishedIn(log)
    ensures OutputIn(log, p) == None
  {
    if log != [] {
      assert log[|log| - 1] in log;
      NeverFinished(log[..|log| - 1], p);
    }
  }

  lemma {:induction false} RunTracks(edges: seq<Edge>, target: string, input: string, log: seq<Event>)
    requires RunsOnce(Predecessors(edges, target), log)
    ensures Tracks(Predecessors(edges, target), input, log, Run(edges, target, input, log))
  {
    if log == [] {
      SeedTracks(edges, target, input);
    } else {
      var front, last := log[..|log| - 1], log[|log| - 1];
      assert log == front + [last];
      FrontRunsOnce(Predecessors(edges, target), front, last);
      RunTracks(edges, target, input, front);
      StepTracks(edges, target, input, Run(edges, target, input, front), front, last);
    }
  }

  /** Only predecessors notify. */
  lemma OthersDoNotNotify(edges: seq<Edge>, target: string, name: string, routes: set<string>)
    requires name !in Predecessors(edges, target)
    ensures Notices(edges, target, name, routes) == 0
  {
    LeavingAreEdges(edges, name);
    MatchedAreTargets(Leaving(edges, name), routes);
    assert !IsTarget(Leaving(edges, name), target);
    assert target !in NextNodes(edges, name, routes);
  }

  /** The triggers so far: none while a predecessor is missing, then one for every edge the last one fired. */
  ghost predicate Triggered(edges: seq<Edge>, target: string, input: string, log: seq<Event>) {
    var preds, inputs := Predecessors(edges, target), Run(edges, target, input, log).inputs;
    && |inputs| == (if Complete(preds, log) then LastNotices(edges, target, log) else 0)
    && forall i :: 0 <= i < |inputs| ==> inputs[i] == Expected(preds, input, log)
  }

  lemma SeedTriggers(edges: seq<Edge>, target: string, input: string)
    requires Predecessors(edges, target) != {}
    ensures Triggered(edges, target, input, [])
  {
    var preds, k := Predecessors(edges, target), EdgeCount(edges, START, target, |edges|);
    var s := State(map[], if k > 0 then map[START := input] else map[], []);
    ConsultKeeps(preds, s, k);
    SeedTracks(edges, target, input);
    TracksDone(preds, input, [], Seeded(edges, target, input));
  }

  /** The completion of a predecessor triggers the join node if it was the last one missing. */
  lemma PredecessorTriggers(edges: seq<Edge>, target: string, input: string, front: seq<Event>, last: Event)
    requires RunsOnce(Predecessors(edges, target), front + [last]) && Triggered(edges, target, input, front)
    requires last.Finish? && last.name in Predecessors(edges, target)
    ensures Triggered(edges, target, input, front + [last])
  {
    var preds, log := Predecessors(edges, target), front + [last];
    assert log[..|front|] == front && log[|front|] == last;
    PredecessorWasMissing(preds, front, last);
    var s := Run(edges, target, input, front);
    FrontRunsOnce(preds, front, last);
    RunTracks(edges, target, input, front);
    NotedTracks(preds, input, s, front, last);
    TracksDone(preds, input, log, Noted(s, last));
    ConsultKeeps(preds, Noted(s, last), Notices(edges, target, last.name, last.routes));
  }

  lemma PredecessorWasMissing(preds: set<string>, front: seq<Event>, last: Event)
    requires RunsOnce(preds, front + [last]) && last.name in preds
    ensures !Complete(preds, front)
  {
    LastIsNew(preds, front, last);
    assert (front + [last])[|front|] == last && last in front + [last];
  }

  lemma FrontRunsOnce(preds: set<string>, front: seq<Event>, last: Event)
    requires RunsOnce(preds, front + [last])
    ensures RunsOnce(preds, front)
  {
    var log := front + [last];
    assert forall i :: 0 <= i < |front| ==> front[i] == log[i];
  }

  lemma OtherEvent(edges: seq<Edge>, target: string, input: string, front: seq<Event>, last: Event)
    requires last.Start? || last.name !in Predecessors(edges, target)
    requires Triggered(edges, target, input, front)
    ensures Triggered(edges, target, input, front + [last])
  {
    var preds, log := Predecessors(edges, target), front + [last];
    assert log[..|front|] == front && log[|front|] == last;
    OneMoreFinished(front, last);
    if last.Finish? {
      OthersDoNotNotify(edges, target, last.name, last.routes);
    }
    assert Expected(preds, input, log) == Expected(preds, input, front);
  }

  /** Whatever the order of completions and the routes: while a predecessor is missing nothing is triggered, and
      the last one triggers the join node once for every edge it fires into it, with every output. */
  lemma {:induction false} JoinsExactly(edges: seq<Edge>, target: string, input: string, log: seq<Event>)
    requires Predecessors(edges, target) != {} && RunsOnce(Predecessors(edges, target), log)
    ensures Triggered(edges, target, input, log)
  {
    if log == [] {
      SeedTriggers(edges, target, input);
    } else {
      var front, last := log[..|log| - 1], log[|log| - 1];
      assert log == front + [last];
      FrontRunsOnce(Predecessors(edges, target), front, last);
      JoinsExactly(edges, target, input, front);
      if last.Finish? && last.name in Predecessors(edges, target) {
        PredecessorTriggers(edges, target, input, front, last);
      } else {
        OtherEvent(edges, target, input, front, last);
      }
    }
  }

  /** No two edges join the same nodes. */
  ghost predicate Simple(edges: seq<Edge>) {
    forall i, j :: 0 <= i < j < |edges| ==> edges[i].source != edges[j].source || edges[i].target != edges[j].target
  }

  lemma {:induction false} SimpleCounts(edges: seq<Edge>, p: string, n: string, k: nat)
    requires k <= |edges| && Simple(edges)
    ensures EdgeCount(edges, p, n, k)
            == if exists i :: 0 <= i < k && edges[i].source == p && edges[i].target == n then 1 else 0
  {
    if k > 0 {
      SimpleCounts(edges, p, n, k - 1);
    }
  }

  lemma {:induction false} LastNotifiesOnce(edges: seq<Edge>, target: string, log: seq<Event>)
    requires AllUnconditional(edges) && Simple(edges) && Complete(Predecessors(edges, target), log)
    requires Predecessors(edges, target) != {}
    ensures LastNotices(edges, target, log) == 1
  {
    var preds := Predecessors(edges, target);
    if log == [] {
      assert START in preds;
      OneEdge(edges, START, target);
    } else {
      var front, last := log[..|log| - 1], log[|log| - 1];
      assert log == front + [last];
      if last.Finish? && last.name in preds {
        UnconditionalNext(edges, last.name, last.routes);
        OneEdge(edges, last.name, target);
      } else {
        OneMoreFinished(front, last);
        LastNotifiesOnce(edges, target, front);
      }
    }
  }

  lemma OneEdge(edges: seq<Edge>, p: string, target: string)
    requires Simple(edges) && p in Predecessors(edges, target)
    ensures EdgeCount(edges, p, target, |edges|) == 1
  {
    SimpleCounts(edges, p, target, |edges|);
    var e :| e in edges && e.target == target && e.source == p;
    var i :| 0 <= i < |edges| && edges[i] == e;
  }

  /** Without routes the join node is triggered exactly once, by the last of its predecessors, with every output. */
  lemma JoinsOnce(edges: seq<Edge>, target: string, input: string, log: seq<Event>)
    requires AllUnconditional(edges) && Simple(edges)
    requires Predecessors(edges, target) != {} && RunsOnce(Predecessors(edges, target), log)
    ensures Run(edges, target, input, log).inputs
         == if Complete(Predecessors(edges, target), log) then [Expected(Predecessors(edges, target), input, log)]
            else []
  {
    JoinsExactly(edges, target, input, log);
    if Complete(Predecessors(edges, target), log) {
      LastNotifiesOnce(edges, target, log);
    }
  }

  // ---- repeated runs ----

  const TWO_EDGES := [Edge("a", "j", Always), Edge("b", "j", Always)]
  const A_RUNS := [Start("a"), Finish("a", None, {})]
  const B_RUNS := [Start("b"), Finish("b", None, {})]

  /** With a predecessor that runs twice, the number of triggers depends on the schedule. */
  lemma RepeatedRunsDependOnTheSchedule(input: string)
    ensures |Run(TWO_EDGES, "j", input, A_RUNS + A_RUNS + B_RUNS).inputs| == 1
    ensures |Run(TWO_EDGES, "j", input, A_RUNS + B_RUNS + A_RUNS).inputs| == 2
  {
    TwoPredecessors(input);
    OneRound(input, [], "a");
    assert [] + A_RUNS == A_RUNS;
    OneRound(input, A_RUNS, "a");
    OneRound(input, A_RUNS + A_RUNS, "b");
    OneRound(input, A_RUNS, "b");
    OneRound(input, A_RUNS + B_RUNS, "a");
  }

  lemma TwoPredecessors(input: string)
    ensures Predecessors(TWO_EDGES, "j") == {"a", "b"} && Simple(TWO_EDGES) && AllUnconditional(TWO_EDGES)
    ensures Run(TWO_EDGES, "j", input, []) == State(map[], map[], [])
  {
    assert TWO_EDGES[0] in TWO_EDGES && TWO_EDGES[1] in TWO_EDGES;
    StartEdges(TWO_EDGES, "j", 2);
  }

  lemma OneRound(input: string, log: seq<Event>, n: string)
    requires n in {"a", "b"}
    ensures var s, t := Run(TWO_EDGES, "j", input, log),
                        Run(TWO_EDGES, "j", input, log + [Start(n), Finish(n, None, {})]);
            && t.status == s.status[n := Completed]
            && |t.inputs| == |s.inputs| + if AllDone({"a", "b"}, t.status) then 1 else 0
  {
    var all := log + [Start(n), Finish(n, None, {})];
    assert all[..|all| - 1] == log + [Start(n)];
    assert (log + [Start(n)])[..|log|] == log;
    var s := Run(TWO_EDGES, "j", input, log);
    assert s.status[n := Running][n := Completed] == s.status[n := Completed];
    TwoPredecessors(input);
    UnconditionalNext(TWO_EDGES, n, {});
    OneEdge(TWO_EDGES, n, "j");
    ConsultKeeps({"a", "b"}, s.(status := s.status[n := Completed]), 1);
  }
}
