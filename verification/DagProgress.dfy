/** When an Executor round makes progress. */
module DagProgress {
  import opened Common
  import opened Digraph
  import opened Plan
  import opened DagSpec
  import opened DagInvariant

  ghost predicate PlannedWith(rt: Runtime, id: string, s: set<Status>) {
    InPlan(rt.plan, id) && id in rt.status && rt.status[id] in s
  }

  /** Work is always startable: with nothing in flight and no failed node in the plan, a plan with
      unstarted nodes has a dispatchable one, although merged dependencies may form a cycle. */
  lemma DispatchableNonEmpty(rt: Runtime)
    requires Inv(rt) && rt.running == []
    requires forall id :: !PlannedWith(rt, id, {Failed})
    requires exists id :: PlannedWith(rt, id, {Pending, WaitingAssist})
    ensures Dispatchable(rt) != []
  {
    DispatchableFacts(rt);
    var open := set n | n in rt.plan && n.id !in rt.outputs :: n.id;
    if open != {} {
      var a := AcyclicHasSink(OpenEdges(rt), open);
      var n :| n in rt.plan && n.id == a;
      assert !PlannedWith(rt, a, {Failed}) && a !in rt.running;
      assert rt.status[a] == Pending;
      forall d | d in n.deps ensures d in rt.outputs {
        assert DepKnown(rt, d);
        assert d in rt.outputs || (d in open && (a, d) in OpenEdges(rt));
      }
      assert Startable(rt, n);
      UniqueNode(rt.plan, n, NodeAt(rt.plan, a));
    } else {
      var a :| PlannedWith(rt, a, {Pending, WaitingAssist});
      var n := NodeAt(rt.plan, a);
      forall d | d in n.deps ensures d in rt.outputs {
        assert DepKnown(rt, d);
        if d in IdSet(rt.plan) {
          var m :| m in rt.plan && m.id == d;
          assert m.id !in rt.outputs ==> m.id in open;
        }
      }
      assert Startable(rt, n);
    }
    assert exists id :: id in Dispatchable(rt);
  }

  /** The state in which a round starts waiting, if it gets that far. */
  ghost function Waiting(rt: Runtime, env: Environment): Runtime {
    var rt1 := Collect(rt, env.first).(completions := []);
    StartAll(rt1, Dispatchable(rt1))
  }

  /** Nothing is queued for judging. */
  ghost predicate NothingQueued(rt: Runtime) {
    forall c :: c in rt.completions ==> !Judgable(rt, c.id)
  }

  /** Nothing is queued, no planned task has ended, and work is left after dispatching. */
  ghost predicate Waits(rt: Runtime, env: Environment) {
    && !rt.doneRequested && NothingQueued(rt)
    && (forall id :: id in rt.running && id in env.first ==> !InPlan(rt.plan, id))
    && HasWork(Waiting(rt, env))
  }

  /** The states in which a round can end in "dispatch made no progress": nothing is queued and a task that
      was planned away is in flight, or nothing is in flight and nothing of the work left can start. */
  ghost predicate CanStall(rt: Runtime) {
    && !rt.doneRequested && NothingQueued(rt)
    && ((exists id :: id in rt.running && !InPlan(rt.plan, id))
        || (rt.running == [] && Dispatchable(rt) == [] && HasWork(rt)))
  }

  lemma CollectInv(rt: Runtime, finished: map<string, TaskResult>)
    requires Inv(rt)
    ensures Inv(Collect(rt, finished))
    ensures var rt1 := Collect(rt, finished);
            && rt1.plan == rt.plan && rt1.doneRequested == rt.doneRequested
            && rt1.assistSeq == rt.assistSeq && rt1.assistDepth == rt.assistDepth
            && rt.outputs.Keys <= rt1.outputs.Keys
            && rt1.status.Keys == rt.status.Keys
            && (forall x :: x in rt.status && x !in rt.running ==> rt1.status[x] == rt.status[x])
            && (forall x :: Fired(rt1, x) <==> Fired(rt, x))
            && (forall x :: x in rt1.running <==> x in rt.running && x !in finished)
  {
    CollectFromInv(rt, rt.running, finished);
    CollectFromFrame(rt, rt.running, finished);
    assert forall x :: StillRunning(rt, rt.running, finished, x) <==> x in rt.running && x !in finished;
  }

  /** A round ends judging, aborting or stuck; judging leaves the invariant and a judged node. */
  lemma OutcomeFacts(rt: Runtime, sent: seq<Sent>)
    requires Inv(rt)
    ensures var r := Outcome(rt, sent);
            && r.sent == sent && r.rt == rt.(completions := r.rt.completions, running := r.rt.running)
            && Core(r.rt)
            && (r.route.Judge? || r.route.Abort? || r.route.NoProgress?)
            && (!r.route.Abort? ==> Inv(r.rt) && r.rt.running == rt.running)
            && (r.route.Judge? ==> Judged(r.rt, r.route.id))
            && (r.route.Abort? ==> r.rt.running == [] && PlannedWith(rt, r.route.id, {Failed}))
            && (r.route.NoProgress? <==> forall c :: c in rt.completions ==> !Judgable(rt, c.id))
            && (r.route.NoProgress? ==> r.rt.completions == [])
  {
    FirstFailureFinds(rt, rt.completions);
    PopInv(rt);
    var r := Outcome(rt, sent);
    match FailedCompletion(rt)
    case Some(f) =>
      assert RecordOk(rt, f);
      CoreWithout(rt);
    case None =>
      var rec := PopCompletion(rt).1;
      if rec.Some? {
        assert RecordOk(rt, rec.value);
      }
  }

  lemma CoreWithout(rt: Runtime)
    requires Core(rt)
    ensures Core(rt.(running := []))
  {
    var rt1 := rt.(running := []);
    assert OpenEdges(rt1) == OpenEdges(rt);
    forall n, d | n in rt1.plan && d in n.deps ensures DepKnown(rt1, d) {
      assert DepKnown(rt, d);
    }
    forall c | c in rt1.completions ensures RecordOk(rt1, c) {
      assert RecordOk(rt, c);
    }
  }

  lemma WaitingFacts(rt: Runtime)
    requires Inv(rt)
    ensures var rt1 := StartAll(rt, Dispatchable(rt));
            && Inv(rt1)
            && rt1 == rt.(status := rt1.status, running := rt.running + Dispatchable(rt))
            && rt1.status.Keys == rt.status.Keys
            && forall id :: id in rt.status ==>
                 rt1.status[id] == if id in Dispatchable(rt) then Running else rt.status[id]
  {
    DispatchableFacts(rt);
    StartAllInv(rt, Dispatchable(rt));
  }

  ghost function QueuedIds(rt: Runtime): set<string> {
    set c | c in rt.completions :: c.id
  }

  /** What finished tasks leave in the queue: exactly the planned ones are to be judged. */
  lemma {:induction false} CollectQueue(rt: Runtime, ids: seq<string>, finished: map<string, TaskResult>)
    requires !rt.doneRequested
    ensures var rt1 := CollectFrom(rt, ids, finished);
            && rt1.plan == rt.plan && !rt1.doneRequested
            && QueuedIds(rt1) == QueuedIds(rt) + set id | id in ids && id in finished && InPlan(rt.plan, id)
  {
    if ids != [] {
      var front, id := ids[..|ids| - 1], ids[|ids| - 1];
      assert ids == front + [id];
      CollectQueue(rt, front, finished);
      var rt1 := CollectFrom(rt, front, finished);
      if id in finished && InPlan(rt.plan, id) {
        assert QueuedIds(Finish(rt1, id, finished[id])) == QueuedIds(rt1) + {id} by {
          QueuedAppend(rt1, Finish(rt1, id, finished[id]), Completion(id, finished[id]));
        }
      }
    }
  }

  lemma QueuedAppend(rt: Runtime, rt1: Runtime, c: Completion)
    requires rt1.completions == rt.completions + [c]
    ensures QueuedIds(rt1) == QueuedIds(rt) + {c.id}
  {
    assert forall x :: x in rt1.completions <==> x in rt.completions || x == c;
  }

  /** The first pass of a round goes on to dispatching exactly when nothing planned is queued or has ended. */
  lemma FirstPassExactly(rt: Runtime, env: Environment)
    requires Inv(rt)
    ensures var rt1 := Collect(rt, env.first);
            && rt1.doneRequested == rt.doneRequested
            && (!rt.doneRequested ==>
                  (Outcome(rt1, []).route == NoProgress <==>
                     NothingQueued(rt) && forall id :: id in rt.running && id in env.first ==> !InPlan(rt.plan, id))
                  && (Outcome(rt1, []).route == NoProgress ==> Outcome(rt1, []).rt == rt1.(completions := [])))
  {
    CollectInv(rt, env.first);
    var rt1 := Collect(rt, env.first);
    OutcomeFacts(rt1, []);
    if !rt.doneRequested {
      CollectQueue(rt, rt.running, env.first);
      QueuedMeansJudgable(rt, rt1);
    }
  }

  lemma QueuedMeansJudgable(rt: Runtime, rt1: Runtime)
    requires !rt.doneRequested && !rt1.doneRequested && rt1.plan == rt.plan
    ensures NothingQueued(rt1) <==> forall id :: id in QueuedIds(rt1) ==> !InPlan(rt.plan, id)
    ensures NothingQueued(rt) <==> forall id :: id in QueuedIds(rt) ==> !InPlan(rt.plan, id)
  {
    assert forall c :: c in rt1.completions ==> c.id in QueuedIds(rt1);
    assert forall c :: c in rt.completions ==> c.id in QueuedIds(rt);
  }

  /** What follows the first pass. */
  lemma DispatchNoProgress(rt: Runtime, env: Environment)
    requires Inv(rt) && !rt.doneRequested && rt.completions == []
    ensures var rt1 := StartAll(rt, Dispatchable(rt));
            DispatchAndWait(rt, env).route == NoProgress <==>
              HasWork(rt1) && forall id :: id in env.second && id in rt1.running ==> !InPlan(rt.plan, id)
  {
    WaitingFacts(rt);
    DispatchableFacts(rt);
    WaitEndsExactly(rt, StartAll(rt, Dispatchable(rt)), env, Messages(rt, Dispatchable(rt)));
  }

  /** "dispatch made no progress" is raised exactly when the round waits and none of the tasks that
      end is in the plan.  The guard is the membership test of the completion queue. */
  lemma NoProgressExactly(rt: Runtime, env: Environment)
    requires Inv(rt)
    ensures Execute(rt, env).route == NoProgress <==>
              Waits(rt, env)
              && forall id :: id in env.second && id in Waiting(rt, env).running ==> !InPlan(rt.plan, id)
  {
    FirstPassExactly(rt, env);
    TwoPasses(rt, env);
    if !rt.doneRequested && Outcome(Collect(rt, env.first), []).route == NoProgress {
      SecondPassExactly(rt, env);
    }
  }

  lemma SecondPassExactly(rt: Runtime, env: Environment)
    requires Inv(rt) && !rt.doneRequested && Outcome(Collect(rt, env.first), []).route == NoProgress
    ensures DispatchAndWait(Outcome(Collect(rt, env.first), []).rt, env).route == NoProgress <==>
              HasWork(Waiting(rt, env))
              && forall id :: id in env.second && id in Waiting(rt, env).running ==> !InPlan(rt.plan, id)
  {
    CollectInv(rt, env.first);
    OutcomeFacts(Collect(rt, env.first), []);
    var rt1 := Collect(rt, env.first).(completions := []);
    assert Outcome(Collect(rt, env.first), []).rt == rt1;
    DispatchNoProgress(rt1, env);
  }

  lemma TwoPasses(rt: Runtime, env: Environment)
    ensures var rt1 := Collect(rt, env.first);
            Execute(rt, env).route == NoProgress <==>
              !rt1.doneRequested && Outcome(rt1, []).route == NoProgress
              && DispatchAndWait(Outcome(rt1, []).rt, env).route == NoProgress
  {
  }

  lemma WaitEndsExactly(rt2: Runtime, rt3: Runtime, env: Environment, sent: seq<Sent>)
    requires Inv(rt3) && !rt3.doneRequested && rt3.completions == [] && rt3.plan == rt2.plan
    ensures Outcome(Collect(rt3, env.second), sent).route == NoProgress <==>
              forall id :: id in env.second && id in rt3.running ==> !InPlan(rt2.plan, id)
  {
    CollectInv(rt3, env.second);
    CollectQueue(rt3, rt3.running, env.second);
    var rt4 := Collect(rt3, env.second);
    OutcomeFacts(rt4, sent);
    assert QueuedIds(rt3) == {};
    if forall c :: c in rt4.completions ==> !Judgable(rt4, c.id) {
      forall id | id in env.second && id in rt3.running ensures !InPlan(rt2.plan, id) {
        assert InPlan(rt2.plan, id) ==> id in QueuedIds(rt4);
      }
    }
    if forall id :: id in env.second && id in rt3.running ==> !InPlan(rt2.plan, id) {
      assert QueuedIds(rt4) == {};
      forall c | c in rt4.completions ensures !Judgable(rt4, c.id) {
        assert c.id in QueuedIds(rt4);
      }
    }
  }

  /** So the error needs a finished task that was planned away, or a failed node that was planned back in. */
  lemma NoProgressCause(rt: Runtime, env: Environment)
    requires Inv(rt) && Feasible(rt, env)
    requires Execute(rt, env).route == NoProgress
    ensures (exists id :: id in env.second && id in Waiting(rt, env).running && !InPlan(rt.plan, id))
            || (Waiting(rt, env).running == [] && exists id :: PlannedWith(Waiting(rt, env), id, {Failed}))
  {
    NoProgressExactly(rt, env);
    CollectInv(rt, env.first);
    var rt1 := Collect(rt, env.first);
    OutcomeFacts(rt1, []);
    var rt2 := Outcome(rt1, []).rt;
    WaitingFacts(rt2);
    var rt3 := Waiting(rt, env);
    if rt3.running != [] {
      var id :| id in env.second;
      assert id in rt3.running;
    } else {
      assert rt2.running == [] && Dispatchable(rt2) == [] by {
        assert rt2.running + Dispatchable(rt2) == [];
      }
      var n :| n in rt3.plan && n.id in rt3.status && rt3.status[n.id] in {Pending, WaitingAssist};
      assert PlannedWith(rt2, n.id, {Pending, WaitingAssist});
      if forall id :: !PlannedWith(rt2, id, {Failed}) {
        DispatchableNonEmpty(rt2);
      }
      var id :| PlannedWith(rt2, id, {Failed});
      assert PlannedWith(rt3, id, {Failed});
    }
  }

  // ---- the states that can stall ----

  lemma {:induction false} CollectNothing(rt: Runtime, ids: seq<string>)
    ensures CollectFrom(rt, ids, map[]) == rt
  {
    if ids != [] {
      CollectNothing(rt, ids[..|ids| - 1]);
    }
  }

  /** The queue plays no part in what can start. */
  lemma {:induction false} StartableWithoutQueue(rt: Runtime, nodes: seq<PlanNode>)
    ensures StartableIds(rt.(completions := []), nodes) == StartableIds(rt, nodes)
  {
    if nodes != [] {
      StartableWithoutQueue(rt, nodes[..|nodes| - 1]);
    }
  }

  /** Nothing ends at first; then one task that was planned away does. */
  lemma PlannedAwayCanStall(rt: Runtime, id: string) returns (env: Environment)
    requires Inv(rt) && !rt.doneRequested && NothingQueued(rt) && id in rt.running && !InPlan(rt.plan, id)
    ensures Feasible(rt, env) && Execute(rt, env).route == NoProgress
  {
    env := Environment(map[], map[id := Output("")], map[]);
    CollectNothing(rt, rt.running);
    FirstPassExactly(rt, env);
    var rt1 := rt.(completions := []);
    CollectInv(rt, env.first);
    OutcomeFacts(rt, []);
    WaitingFacts(rt1);
    assert id in Waiting(rt, env).running;
    NoProgressExactly(rt, env);
    assert id in env.second;
  }

  lemma IdleCanStall(rt: Runtime) returns (env: Environment)
    requires Inv(rt) && !rt.doneRequested && NothingQueued(rt)
    requires rt.running == [] && Dispatchable(rt) == [] && HasWork(rt)
    ensures Feasible(rt, env) && Execute(rt, env).route == NoProgress
  {
    env := Environment(map[], map[], map[]);
    CollectNothing(rt, rt.running);
    FirstPassExactly(rt, env);
    StartableWithoutQueue(rt, rt.plan);
    IdleWaits(rt, env);
    NoProgressExactly(rt, env);
  }

  lemma IdleWaits(rt: Runtime, env: Environment)
    requires rt.running == [] && Dispatchable(rt.(completions := [])) == [] && Collect(rt, env.first) == rt
    ensures Waiting(rt, env) == rt.(completions := [])
  {
  }

  /** A round that stalls started in a state that can stall. */
  lemma StallNeedsCanStall(rt: Runtime, env: Environment)
    requires Inv(rt) && Feasible(rt, env) && Execute(rt, env).route == NoProgress
    ensures CanStall(rt)
  {
    NoProgressExactly(rt, env);
    FirstPassExactly(rt, env);
    CollectInv(rt, env.first);
    var rt1 := Collect(rt, env.first).(completions := []);
    OutcomeFacts(Collect(rt, env.first), []);
    WaitingFacts(rt1);
    DispatchableFacts(rt1);
    var rt2 := Waiting(rt, env);
    if rt2.running != [] {
      var id :| id in env.second;
      assert id in rt2.running && !InPlan(rt.plan, id);
      assert id in rt1.running || id in Dispatchable(rt1);
      assert id in rt.running;
    } else if rt.running != [] {
      var id := rt.running[0];
      assert id in rt.running && id !in rt1.running;
    } else {
      IdleRoundKeepsState(rt, env);
    }
  }

  lemma IdleRoundKeepsState(rt: Runtime, env: Environment)
    requires rt.running == [] && Waiting(rt, env).running == [] && Inv(rt) && HasWork(Waiting(rt, env))
    ensures Dispatchable(rt) == [] && HasWork(rt)
  {
    var rt1 := rt.(completions := []);
    assert Collect(rt, env.first) == rt;
    assert Inv(rt1);
    WaitingFacts(rt1);
    assert rt1.running + Dispatchable(rt1) == [];
    StartableWithoutQueue(rt, rt.plan);
  }

  /** A round can end in "dispatch made no progress", for some timing of the tasks, exactly when its
      starting state can stall. */
  lemma CanStallExactly(rt: Runtime)
    requires Inv(rt)
    ensures (exists env :: Feasible(rt, env) && Execute(rt, env).route == NoProgress) <==> CanStall(rt)
  {
    if CanStall(rt) {
      if id :| id in rt.running && !InPlan(rt.plan, id) {
        var env := PlannedAwayCanStall(rt, id);
      } else {
        var env := IdleCanStall(rt);
      }
    }
    forall env | Feasible(rt, env) && Execute(rt, env).route == NoProgress ensures CanStall(rt) {
      StallNeedsCanStall(rt, env);
    }
  }

  /** The second way needs a failed node that was planned back in. */
  lemma IdleStallNeedsFailure(rt: Runtime)
    requires Inv(rt) && CanStall(rt) && forall id :: id in rt.running ==> InPlan(rt.plan, id)
    ensures exists id :: PlannedWith(rt, id, {Failed})
  {
    var n :| n in rt.plan && n.id in rt.status && rt.status[n.id] in {Pending, WaitingAssist};
    assert PlannedWith(rt, n.id, {Pending, WaitingAssist});
    if forall id :: !PlannedWith(rt, id, {Failed}) {
      DispatchableNonEmpty(rt);
    }
  }
}
