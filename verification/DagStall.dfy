/** A run that raises "dispatch made no progress": two nodes are in flight, one ends and is judged, the
    Planner replaces the other by a new node, and the replaced one is the next to end. */
module DagStall {
  import opened Common
  import opened Digraph
  import opened Plan
  import opened DagSpec
  import opened DagInvariant
  import opened DagProgress
  import opened DagMachine
  import Ids

  function Node(id: string): PlanNode {
    PlanNode(id, "writer", "work", [], None)
  }

  const A := Node("a")
  const B := Node("b")
  const C := Node("c")

  const RUN_TWO: seq<PlanNode> := [A, B]
  const REPLACE: seq<PlanNode> := [C]

  const A_ENDS := Environment(map[], map["a" := Output("")], map[])
  const B_ENDS := Environment(map[], map["b" := Output("")], map[])

  const STALL := [Exec(Some(RUN_TWO), A_ENDS), HelpWith([]), Exec(Some(REPLACE), B_ENDS)]

  const AFTER_FIRST :=
    Runtime(RUN_TWO, map["a" := Completed, "b" := Running], map["a" := ""], ["b"], [], false, 0, map[])

  lemma ShortIdsAreNotGenerated(id: string, k: nat)
    requires |id| == 1
    ensures !FutureAssistId(id, k)
  {
    forall p, j: nat ensures id != AssistId(p, j) {
      assert |AssistId(p, j)| >= 7;
    }
  }

  lemma PlansAreAllowed(rt: Runtime)
    ensures AllowedPlan(rt, RUN_TWO) && AllowedPlan(rt, REPLACE)
  {
    assert Edges(RUN_TWO) == {} && Edges(REPLACE) == {};
    RankedIsAcyclic({}, map[]);
    ShortIdsAreNotGenerated("a", rt.assistSeq);
    ShortIdsAreNotGenerated("b", rt.assistSeq);
    ShortIdsAreNotGenerated("c", rt.assistSeq);
    assert "a" != "b";
  }

  lemma StartableOne(rt: Runtime, n: PlanNode)
    requires Startable(rt, n)
    ensures StartableIds(rt, [n]) == [n.id]
  {
    assert [n][..0] == [];
  }

  lemma StartableTwo(rt: Runtime, n: PlanNode, m: PlanNode)
    requires Startable(rt, n) && Startable(rt, m)
    ensures StartableIds(rt, [n, m]) == [n.id, m.id]
  {
    assert [n, m][..1] == [n];
    StartableOne(rt, n);
  }

  lemma StartOne(rt: Runtime, x: string)
    ensures StartAll(rt, [x]) == Start(rt, x)
  {
    assert [x][..0] == [];
  }

  lemma StartTwo(rt: Runtime, x: string, y: string)
    ensures StartAll(rt, [x, y]) == Start(Start(rt, x), y)
  {
    assert [x, y][..1] == [x];
    StartOne(rt, x);
  }

  lemma CollectTwo(rt: Runtime, x: string, y: string, finished: map<string, TaskResult>)
    requires x in finished || y in finished
    ensures CollectFrom(rt, [x, y], finished) ==
              var rt1 := if x in finished then Finish(rt, x, finished[x]) else rt;
              if y in finished then Finish(rt1, y, finished[y]) else rt1
  {
    assert [x, y][..1] == [x] && [x][..0] == [];
    assert CollectFrom(rt, [x], finished) == if x in finished then Finish(rt, x, finished[x]) else rt;
  }

  lemma PlanIds()
    ensures IdSet(RUN_TWO) == {"a", "b"} && IdSet(REPLACE) == {"c"}
  {
    assert A in RUN_TWO && B in RUN_TWO && C in REPLACE;
    assert IdSet(RUN_TWO) == {"a", "b"};
    assert IdSet(REPLACE) == {"c"};
  }

  lemma FirstPlan()
    ensures ApplyPlan(EMPTY, RUN_TWO) == EMPTY.(plan := [A, B], status := map["a" := Pending, "b" := Pending])
  {
    PlanIds();
    assert MergeFrom(EMPTY, {"a", "b"}, RUN_TWO) == [A, B];
    assert NewStatus(EMPTY, RUN_TWO) == map["a" := Pending, "b" := Pending];
  }

  lemma SecondPlan()
    ensures ApplyPlan(AFTER_FIRST, REPLACE)
            == AFTER_FIRST.(plan := [C], status := map["a" := Completed, "b" := Running, "c" := Pending])
  {
    PlanIds();
    assert MergeFrom(AFTER_FIRST, {"c"}, REPLACE) == [C];
    assert NewStatus(AFTER_FIRST, REPLACE) == map["a" := Completed, "b" := Running, "c" := Pending];
  }

  /** With nothing ended and nothing queued a round goes straight to dispatching. */
  lemma QuietStart(rt: Runtime, env: Environment)
    requires env.first == map[] && rt.completions == [] && !rt.doneRequested
    ensures Execute(rt, env) == DispatchAndWait(rt, env)
    ensures (forall id :: id in env.second ==> id in StartAll(rt, Dispatchable(rt)).running) && env.second != map[]
            ==> Feasible(rt, env)
  {
    CollectNothing(rt, rt.running);
    assert Collect(rt, env.first) == rt;
    assert Outcome(rt, []) == Round(rt, NoProgress, []);
  }

  lemma FirstRound()
    ensures var rt := ApplyPlan(EMPTY, RUN_TWO);
            Execute(rt, A_ENDS).rt == AFTER_FIRST && Execute(rt, A_ENDS).route == Judge("a") && Feasible(rt, A_ENDS)
  {
    FirstPlan();
    var rt := EMPTY.(plan := [A, B], status := map["a" := Pending, "b" := Pending]);
    assert "a" in A_ENDS.second;
    QuietStart(rt, A_ENDS);
    FirstDispatch(rt);
    FirstStart(rt);
    FirstWait(rt, StartAll(rt, Dispatchable(rt)));
  }

  lemma FirstDispatch(rt: Runtime)
    requires rt.plan == [A, B] && rt.status == map["a" := Pending, "b" := Pending]
    ensures Dispatchable(rt) == ["a", "b"]
  {
    StartableTwo(rt, A, B);
  }

  lemma FirstStart(rt: Runtime)
    requires rt.running == [] && rt.status == map["a" := Pending, "b" := Pending]
    ensures StartAll(rt, ["a", "b"]) == rt.(status := map["a" := Running, "b" := Running], running := ["a", "b"])
  {
    StartTwo(rt, "a", "b");
    assert rt.status["a" := Running]["b" := Running] == map["a" := Running, "b" := Running];
  }

  lemma FirstPop(sent: seq<Sent>)
    ensures Outcome(AFTER_FIRST.(completions := [Completion("a", Output(""))]), sent)
              == Round(AFTER_FIRST, Judge("a"), sent)
  {
    PlanIds();
    var rt := AFTER_FIRST.(completions := [Completion("a", Output(""))]);
    assert rt.completions[1..] == [];
    assert FirstFailure(rt, rt.completions[1..]) == None;
    assert FailedCompletion(rt) == None;
    assert PopCompletion(rt) == (AFTER_FIRST, Some(Completion("a", Output(""))));
  }

  lemma FirstWait(rt: Runtime, rt1: Runtime)
    requires rt1 == EMPTY.(plan := [A, B], status := map["a" := Running, "b" := Running], running := ["a", "b"])
    requires rt.plan == rt1.plan && Dispatchable(rt) == ["a", "b"]
    ensures var sent := Messages(rt, Dispatchable(rt));
            Outcome(Collect(rt1, A_ENDS.second), sent) == Round(AFTER_FIRST, Judge("a"), sent)
  {
    PlanIds();
    CollectTwo(rt1, "a", "b", A_ENDS.second);
    assert "a" != "b";
    assert Without(["a", "b"], "a") == ["b"] by {
      assert ["a", "b"][..1] == ["a"] && ["a"][..0] == [];
    }
    var rt2 := AFTER_FIRST.(completions := [Completion("a", Output(""))]);
    assert Collect(rt1, A_ENDS.second) == rt2;
    FirstPop(Messages(rt, Dispatchable(rt)));
  }

  lemma SecondDispatch(rt: Runtime)
    requires rt == AFTER_FIRST.(plan := [C], status := map["a" := Completed, "b" := Running, "c" := Pending])
    ensures Dispatchable(rt) == ["c"]
    ensures StartAll(rt, Dispatchable(rt)) == rt.(status := rt.status["c" := Running], running := ["b", "c"])
  {
    assert Dispatchable(rt) == ["c"] by {
      StartableOne(rt, C);
    }
    StartOne(rt, "c");
    assert rt.running + ["c"] == ["b", "c"];
  }

  lemma SecondWait(rt: Runtime, rt1: Runtime)
    requires rt1.plan == [C] && rt1.completions == [] && rt1.running == ["b", "c"] && !rt1.doneRequested
    ensures Collect(rt1, B_ENDS.second).completions == []
  {
    CollectTwo(rt1, "b", "c", B_ENDS.second);
    assert "b" != "c";
    assert !InPlan(rt1.plan, "b");
  }

  lemma SecondRound()
    ensures var rt := ApplyPlan(AFTER_FIRST, REPLACE);
            Execute(rt, B_ENDS).route == NoProgress && Feasible(rt, B_ENDS)
            && forall id :: !PlannedWith(rt, id, {Failed})
  {
    SecondPlan();
    var rt := AFTER_FIRST.(plan := [C], status := map["a" := Completed, "b" := Running, "c" := Pending]);
    assert "b" in B_ENDS.second;
    QuietStart(rt, B_ENDS);
    SecondDispatch(rt);
    SecondWait(rt, StartAll(rt, Dispatchable(rt)));
  }

  lemma FirstStep()
    ensures Possible([STALL[0]]) && Run([STALL[0]]).rt == AFTER_FIRST && Run([STALL[0]]).judging == Some("a")
    ensures !Run([STALL[0]]).stopped
  {
    var one := [STALL[0]];
    assert one[..0] == [];
    PlansAreAllowed(EMPTY);
    FirstRound();
    assert Possible([]) && Run([]) == INITIAL;
    assert Planned(EMPTY, Some(RUN_TWO)) == ApplyPlan(EMPTY, RUN_TWO);
    assert Enabled(INITIAL, STALL[0]);
  }

  lemma SecondStep()
    ensures var two := [STALL[0], STALL[1]];
            Possible(two) && Run(two).rt == AFTER_FIRST && Run(two).judging == None && !Run(two).stopped
  {
    var two := [STALL[0], STALL[1]];
    assert two[..1] == [STALL[0]];
    FirstStep();
  }

  lemma ThirdStep(m: Machine)
    requires m.rt == AFTER_FIRST && m.judging == None && !m.stopped
    ensures Enabled(m, Exec(Some(REPLACE), B_ENDS))
    ensures ExecRound(AFTER_FIRST, Some(REPLACE), B_ENDS).route == NoProgress
    ensures forall id :: !PlannedWith(Planned(AFTER_FIRST, Some(REPLACE)), id, {Failed})
  {
    PlansAreAllowed(AFTER_FIRST);
    SecondRound();
    assert Planned(AFTER_FIRST, Some(REPLACE)) == ApplyPlan(AFTER_FIRST, REPLACE);
  }

  /** The promise that the error is never raised is false. */
  lemma ReplanCanStall()
    ensures var two := [STALL[0], STALL[1]];
            && Possible(two) && Enabled(Run(two), STALL[2])
            && ExecRound(Run(two).rt, Some(REPLACE), B_ENDS).route == NoProgress
            && forall id :: !PlannedWith(Planned(Run(two).rt, Some(REPLACE)), id, {Failed})
  {
    SecondStep();
    ThirdStep(Run([STALL[0], STALL[1]]));
  }
}
