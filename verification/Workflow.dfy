/** The workflow engine: a trigger buffer, concurrent node runs and a concurrency cap, with an arbitrary
    completion order.  JoinNode is not part of this model. */
module Workflow {
  import opened Common
  import opened Digraph
  import opened WorkflowGraph
  import opened PathCount

  datatype RunStatus = Running | Completed | Failed

  /** What a node run returned: an error, or an optional output and the emitted routes. */
  datatype NodeRun = Errored | Finished(output: Option<string>, routes: set<string>)

  /** A trigger carries the output of the node that fired it. */
  datatype Trigger = Trigger(input: Option<string>)

  type TriggerBuffer = map<string, seq<Trigger>>

  function Waiting(b: TriggerBuffer, n: string): nat {
    if n in b then |b[n]| else 0
  }

  function AddTrigger(b: TriggerBuffer, n: string, t: Trigger): TriggerBuffer {
    b[n := (if n in b then b[n] else []) + [t]]
  }

  function AddTriggers(b: TriggerBuffer, names: seq<string>, t: Trigger): TriggerBuffer {
    if names == [] then b else AddTrigger(AddTriggers(b, names[..|names| - 1], t), names[|names| - 1], t)
  }

  lemma {:induction false} AddTriggersCount(b: TriggerBuffer, names: seq<string>, t: Trigger)
    ensures forall n :: Waiting(AddTriggers(b, names, t), n) == Waiting(b, n) + multiset(names)[n]
    ensures AddTriggers(b, names, t).Keys == b.Keys + set n | n in names
    ensures NoEmptyList(b) ==> NoEmptyList(AddTriggers(b, names, t))
  {
    if names != [] {
      AddTriggersCount(b, names[..|names| - 1], t);
      assert names == names[..|names| - 1] + [names[|names| - 1]];
    }
  }

  function Queue(b: TriggerBuffer, n: string): seq<Trigger> {
    if n in b then b[n] else []
  }

  function Repeat(t: Trigger, k: nat): (r: seq<Trigger>)
    ensures |r| == k && forall i :: 0 <= i < k ==> r[i] == t
  {
    seq(k, _ => t)
  }

  lemma RepeatOneMore(t: Trigger, k: nat)
    ensures Repeat(t, k) + [t] == Repeat(t, k + 1)
  {
  }

  /** New triggers queue up behind the old ones. */
  lemma {:induction false} AddTriggersQueue(b: TriggerBuffer, names: seq<string>, t: Trigger, n: string)
    ensures Queue(AddTriggers(b, names, t), n) == Queue(b, n) + Repeat(t, multiset(names)[n])
  {
    if names == [] {
      assert Queue(b, n) + [] == Queue(b, n);
    } else {
      var front, last := names[..|names| - 1], names[|names| - 1];
      assert names == front + [last];
      AddTriggersQueue(b, front, t, n);
      if last == n {
        var k := multiset(front)[n];
        Associates(Queue(b, n), Repeat(t, k), [t]);
        RepeatOneMore(t, k);
      }
    }
  }

  ghost predicate NoEmptyList(b: TriggerBuffer) {
    forall n :: n in b ==> b[n] != []
  }

  // ---- accounting ----

  /** Completions, in order: the node, the routes it emitted and its output. */
  type Log = seq<(string, set<string>, Option<string>)>

  /** How often n completed. */
  function Completions(log: Log, n: string): nat {
    if log == [] then 0
    else Completions(log[..|log| - 1], n) + if log[|log| - 1].0 == n then 1 else 0
  }

  /** How many triggers the completions of the log sent to n. */
  ghost function Triggered(edges: seq<Edge>, log: Log, n: string): nat {
    if log == [] then 0
    else Triggered(edges, log[..|log| - 1], n) + multiset(NextNodes(edges, log[|log| - 1].0, log[|log| - 1].1))[n]
  }

  function StartTargets(edges: seq<Edge>): seq<string> {
    if edges == [] then []
    else
      StartTargets(edges[..|edges| - 1])
      + if edges[|edges| - 1].source == START then [edges[|edges| - 1].target] else []
  }

  lemma {:induction false} StartTargetsCount(edges: seq<Edge>, k: nat, n: string)
    requires k <= |edges|
    ensures multiset(StartTargets(edges[..k]))[n] == EdgeCount(edges, START, n, k)
  {
    if k > 0 {
      StartTargetsCount(edges, k - 1, n);
      OneMoreStartTarget(edges, k - 1);
      OneMoreCounted(StartTargets(edges[..k - 1]), edges[k - 1].target, n);
    }
  }

  lemma OneMoreCounted(s: seq<string>, x: string, n: string)
    ensures multiset(s + [x])[n] == multiset(s)[n] + if x == n then 1 else 0
  {
  }

  lemma {:induction false} StartTargetsAreNodes(edges: seq<Edge>, k: nat, n: string)
    requires k <= |edges| && n in StartTargets(edges[..k])
    ensures n in NodeNames(edges)
  {
    if k > 0 {
      OneMoreStartTarget(edges, k - 1);
      if n in StartTargets(edges[..k - 1]) {
        StartTargetsAreNodes(edges, k - 1, n);
      } else {
        assert edges[k - 1] in edges;
      }
    }
  }

  lemma OneMoreStartTarget(edges: seq<Edge>, k: nat)
    requires k < |edges|
    ensures StartTargets(edges[..k + 1])
            == StartTargets(edges[..k]) + if edges[k].source == START then [edges[k].target] else []
  {
    assert edges[..k + 1][..k] == edges[..k];
  }

  /** Triggers buffered and runs started account for every trigger that was ever sent to n. */
  ghost predicate Conserved(edges: seq<Edge>, b: TriggerBuffer, counters: map<string, nat>, log: Log, n: string) {
    Waiting(b, n) + Val(counters, n) == EdgeCount(edges, START, n, |edges|) + Triggered(edges, log, n)
  }

  /** The bookkeeping of one node: every trigger sent to it is buffered or started a run, and every
      started run completed or is in flight. */
  ghost predicate Accounted(edges: seq<Edge>, b: TriggerBuffer, pending: map<string, Trigger>,
                            status: map<string, RunStatus>,
                            counters: map<string, nat>, log: Log, n: string)
  {
    && Conserved(edges, b, counters, log, n)
    && Val(counters, n) == Completions(log, n) + (if n in pending then 1 else 0)
    && (n in pending <==> n in status && status[n] == Running)
  }

  /** The whole loop state. */
  ghost predicate Consistent(edges: seq<Edge>, b: TriggerBuffer, pending: map<string, Trigger>,
                             status: map<string, RunStatus>,
                             counters: map<string, nat>, log: Log)
  {
    && b.Keys <= NodeNames(edges) && pending.Keys <= NodeNames(edges) && counters.Keys <= NodeNames(edges)
    && (forall i :: 0 <= i < |log| ==> log[i].0 in NodeNames(edges))
    && NoEmptyList(b)
    && forall n :: Accounted(edges, b, pending, status, counters, log, n)
  }

  lemma SeedingIsConsistent(edges: seq<Edge>, t: Trigger)
    ensures Consistent(edges, AddTriggers(map[], StartTargets(edges), t), map[], map[], map[], [])
  {
    forall n
      ensures var b := AddTriggers(map[], StartTargets(edges), t);
              Accounted(edges, b, map[], map[], map[], [], n) && NoEmptyList(b) && (n in b ==> n in NodeNames(edges))
    {
      SeedingAccounts(edges, t, n);
    }
  }

  lemma StartIsConsistent(edges: seq<Edge>, b: TriggerBuffer, pending: map<string, Trigger>,
                          status: map<string, RunStatus>,
                          counters: map<string, nat>, log: Log, name: string)
    requires Consistent(edges, b, pending, status, counters, log) && name in b && name !in pending
    ensures Consistent(edges, PopTrigger(b, name), pending[name := b[name][0]], status[name := Running],
                       counters[name := Val(counters, name) + 1], log)
  {
    var b1, pending1, status1, counters1 :=
      PopTrigger(b, name), pending[name := b[name][0]], status[name := Running],
      counters[name := Val(counters, name) + 1];
    forall n ensures Accounted(edges, b1, pending1, status1, counters1, log, n) {
      StartAccounts(edges, b, pending, status, counters, log, name, n);
    }
  }

  lemma CompletionIsConsistent(edges: seq<Edge>, b: TriggerBuffer, pending: map<string, Trigger>,
                               status: map<string, RunStatus>,
                               counters: map<string, nat>, log: Log, name: string, run: NodeRun)
    requires Consistent(edges, b, pending, status, counters, log) && name in pending && run.Finished?
    ensures Consistent(edges, AddTriggers(b, NextNodes(edges, name, run.routes), Trigger(run.output)), pending - {name},
                       status[name := Completed], counters, log + [(name, run.routes, run.output)])
  {
    NextNodesAreNodes(edges, name, run.routes);
    AddTriggersCount(b, NextNodes(edges, name, run.routes), Trigger(run.output));
    var b1, pending1, status1, log1 :=
      AddTriggers(b, NextNodes(edges, name, run.routes), Trigger(run.output)), pending - {name},
      status[name := Completed], log + [(name, run.routes, run.output)];
    forall n ensures Accounted(edges, b1, pending1, status1, counters, log1, n) {
      CompletionAccounts(edges, b, pending, status, counters, log, name, run, n);
    }
  }

  lemma OneMorePending(pending: map<string, Trigger>, name: string, t: Trigger)
    requires name !in pending
    ensures |pending[name := t]| == |pending| + 1
  {
    assert pending[name := t].Keys == pending.Keys + {name};
  }

  lemma OneLessPending(pending: map<string, Trigger>, name: string)
    requires name in pending
    ensures |pending - {name}| == |pending| - 1
  {
    assert (pending - {name}).Keys == pending.Keys - {name};
  }

  lemma SeedingAccounts(edges: seq<Edge>, t: Trigger, n: string)
    ensures var b := AddTriggers(map[], StartTargets(edges), t);
            Accounted(edges, b, map[], map[], map[], [], n) && NoEmptyList(b) && (n in b ==> n in NodeNames(edges))
  {
    AddTriggersCount(map[], StartTargets(edges), t);
    StartTargetsCount(edges, |edges|, n);
    assert edges[..|edges|] == edges;
    if n in StartTargets(edges) {
      StartTargetsAreNodes(edges, |edges|, n);
    }
  }

  function PopTrigger(b: TriggerBuffer, name: string): TriggerBuffer
    requires name in b && b[name] != []
  {
    if |b[name]| == 1 then b - {name} else b[name := b[name][1..]]
  }

  lemma StartAccounts(edges: seq<Edge>, b: TriggerBuffer, pending: map<string, Trigger>, status: map<string, RunStatus>,
                      counters: map<string, nat>, log: Log, name: string, n: string)
    requires name in b && b[name] != [] && name !in pending
    requires Accounted(edges, b, pending, status, counters, log, n)
    ensures Accounted(edges, PopTrigger(b, name), pending[name := b[name][0]], status[name := Running],
                      counters[name := Val(counters, name) + 1], log, n)
    ensures Waiting(PopTrigger(b, name), n) == Waiting(b, n) - if n == name then 1 else 0
  {
  }

  lemma CompletionAccounts(edges: seq<Edge>, b: TriggerBuffer, pending: map<string, Trigger>,
                           status: map<string, RunStatus>,
                           counters: map<string, nat>, log: Log, name: string, run: NodeRun, n: string)
    requires name in pending && run.Finished?
    requires Accounted(edges, b, pending, status, counters, log, n)
    ensures Accounted(edges, AddTriggers(b, NextNodes(edges, name, run.routes), Trigger(run.output)), pending - {name},
                      status[name := Completed], counters, log + [(name, run.routes, run.output)], n)
  {
    AddTriggersCount(b, NextNodes(edges, name, run.routes), Trigger(run.output));
    assert (log + [(name, run.routes, run.output)])[..|log|] == log;
  }

  // ---- which inputs reach a node, and in which order ----

  /** Everything that was ever sent to n: the workflow's input along each edge from START, then the output of each
      completion along each edge into n that fired. */
  ghost function SentTo(edges: seq<Edge>, input: Option<string>, log: Log, n: string): seq<Trigger> {
    if log == [] then Repeat(Trigger(input), EdgeCount(edges, START, n, |edges|))
    else
      var last := log[|log| - 1];
      SentTo(edges, input, log[..|log| - 1], n) + Repeat(Trigger(last.2), |Fired(edges, last.0, last.1, n)|)
  }

  /** The inputs of the runs of n so far, in the order of their starts. */
  function InputsOf(started: map<string, seq<Trigger>>, n: string): seq<Trigger> {
    if n in started then started[n] else []
  }

  /** The runs of each node have taken their inputs in the order in which they were sent, and the rest waits. */
  ghost predicate FirstComeFirstServed(edges: seq<Edge>, input: Option<string>, b: TriggerBuffer,
                                       started: map<string, seq<Trigger>>, log: Log) {
    forall n :: InputsOf(started, n) + Queue(b, n) == SentTo(edges, input, log, n)
  }

  lemma SeedingInOrder(edges: seq<Edge>, input: Option<string>)
    ensures FirstComeFirstServed(edges, input, AddTriggers(map[], StartTargets(edges), Trigger(input)), map[], [])
  {
    var b := AddTriggers(map[], StartTargets(edges), Trigger(input));
    forall n ensures InputsOf(map[], n) + Queue(b, n) == SentTo(edges, input, [], n) {
      AddTriggersQueue(map[], StartTargets(edges), Trigger(input), n);
      StartTargetsCount(edges, |edges|, n);
      assert edges[..|edges|] == edges;
    }
  }

  lemma StartInOrder(edges: seq<Edge>, input: Option<string>, b: TriggerBuffer, started: map<string, seq<Trigger>>,
                     log: Log, name: string)
    requires FirstComeFirstServed(edges, input, b, started, log) && name in b && b[name] != []
    ensures FirstComeFirstServed(edges, input, PopTrigger(b, name),
                                 started[name := InputsOf(started, name) + [b[name][0]]], log)
  {
    var b1, started1 := PopTrigger(b, name), started[name := InputsOf(started, name) + [b[name][0]]];
    forall n ensures InputsOf(started1, n) + Queue(b1, n) == SentTo(edges, input, log, n) {
      assert InputsOf(started, n) + Queue(b, n) == SentTo(edges, input, log, n);
      if n == name {
        assert Queue(b, n) == [b[n][0]] + Queue(b1, n);
        Associates(InputsOf(started, n), [b[n][0]], Queue(b1, n));
      }
    }
  }

  lemma CompletionInOrder(edges: seq<Edge>, input: Option<string>, b: TriggerBuffer, started: map<string, seq<Trigger>>,
                          log: Log, name: string, run: NodeRun)
    requires FirstComeFirstServed(edges, input, b, started, log) && run.Finished?
    ensures FirstComeFirstServed(edges, input, AddTriggers(b, NextNodes(edges, name, run.routes), Trigger(run.output)),
                                 started, log + [(name, run.routes, run.output)])
  {
    var next, log1 := NextNodes(edges, name, run.routes), log + [(name, run.routes, run.output)];
    var b1 := AddTriggers(b, next, Trigger(run.output));
    assert log1[..|log|] == log;
    forall n ensures InputsOf(started, n) + Queue(b1, n) == SentTo(edges, input, log1, n) {
      assert InputsOf(started, n) + Queue(b, n) == SentTo(edges, input, log, n);
      AddTriggersQueue(b, next, Trigger(run.output), n);
      FiresExactly(edges, name, run.routes);
      Associates(InputsOf(started, n), Queue(b, n), Repeat(Trigger(run.output), multiset(next)[n]));
    }
  }

  // ---- run counts of unconditional graphs ----

  ghost function CompletionCounts(edges: seq<Edge>, log: Log): map<string, nat> {
    map n | n in NodeNames(edges) :: Completions(log, n)
  }

  lemma {:induction false} InflowOfOneMore(edges: seq<Edge>, f: map<string, nat>, p: string, n: string, k: nat)
    requires k <= |edges| && p != START && p in f
    ensures Inflow(edges, f[p := f[p] + 1], n, k) == Inflow(edges, f, n, k) + EdgeCount(edges, p, n, k)
  {
    if k > 0 {
      InflowOfOneMore(edges, f, p, n, k - 1);
    }
  }

  lemma {:induction false} InflowOfNone(edges: seq<Edge>, f: map<string, nat>, n: string, k: nat)
    requires k <= |edges| && forall m :: m in f ==> f[m] == 0
    ensures Inflow(edges, f, n, k) == EdgeCount(edges, START, n, k)
  {
    if k > 0 {
      InflowOfNone(edges, f, n, k - 1);
    }
  }

  lemma CountOneMore(edges: seq<Edge>, log: Log, last: (string, set<string>, Option<string>))
    requires last.0 in NodeNames(edges)
    ensures var f := CompletionCounts(edges, log); CompletionCounts(edges, log + [last]) == f[last.0 := f[last.0] + 1]
  {
    assert (log + [last])[..|log|] == log;
  }

  lemma TriggeredOneMore(edges: seq<Edge>, log: Log, last: (string, set<string>, Option<string>), n: string)
    requires AllUnconditional(edges)
    ensures Triggered(edges, log + [last], n) == Triggered(edges, log, n) + EdgeCount(edges, last.0, n, |edges|)
  {
    assert (log + [last])[..|log|] == log;
    UnconditionalNext(edges, last.0, last.1);
  }

  /** Without routes the triggers sent to n are the inflow of the completion counts. */
  lemma {:induction false} TriggeredIsInflow(edges: seq<Edge>, log: Log, n: string)
    requires AllUnconditional(edges)
    requires forall i :: 0 <= i < |log| ==> log[i].0 in NodeNames(edges) && log[i].0 != START
    ensures EdgeCount(edges, START, n, |edges|) + Triggered(edges, log, n)
            == Inflow(edges, CompletionCounts(edges, log), n, |edges|)
  {
    if log == [] {
      InflowOfNone(edges, CompletionCounts(edges, log), n, |edges|);
    } else {
      var front, last := log[..|log| - 1], log[|log| - 1];
      assert log == front + [last];
      TriggeredIsInflow(edges, front, n);
      TriggeredOneMore(edges, front, last, n);
      InflowOfOneMoreCompletion(edges, front, last, n);
    }
  }

  lemma InflowOfOneMoreCompletion(edges: seq<Edge>, log: Log, last: (string, set<string>, Option<string>), n: string)
    requires last.0 in NodeNames(edges) && last.0 != START
    ensures Inflow(edges, CompletionCounts(edges, log + [last]), n, |edges|)
            == Inflow(edges, CompletionCounts(edges, log), n, |edges|) + EdgeCount(edges, last.0, n, |edges|)
  {
    InflowOfOneMore(edges, CompletionCounts(edges, log), last.0, n, |edges|);
    CountOneMore(edges, log, last);
  }

  /** Runs of n that have not completed yet, out of as many as there are paths to n. */
  ghost function Remaining(edges: seq<Edge>, log: Log): set<(string, nat)> {
    set n, i | n in NodeNames(edges) && Completions(log, n) <= i < |PathsTo(edges, n)| :: (n, i)
  }

  // ---- START is never run ----

  lemma NoNextStart(edges: seq<Edge>, name: string, routes: set<string>)
    requires forall e :: e in edges ==> e.target != START
    ensures START !in NextNodes(edges, name, routes)
  {
    LeavingAreEdges(edges, name);
    MatchedAreTargets(Leaving(edges, name), routes);
    assert !IsTarget(Leaving(edges, name), START);
  }

  lemma {:induction false} NeverTriggersStart(edges: seq<Edge>, log: Log)
    requires forall e :: e in edges ==> e.target != START
    ensures Triggered(edges, log, START) == 0
  {
    if log != [] {
      NeverTriggersStart(edges, log[..|log| - 1]);
      NoNextStart(edges, log[|log| - 1].0, log[|log| - 1].1);
    }
  }

  lemma {:induction false} NoStartEdges(edges: seq<Edge>, k: nat)
    requires k <= |edges| && forall e :: e in edges ==> e.target != START
    ensures EdgeCount(edges, START, START, k) == 0
  {
    if k > 0 {
      assert edges[k - 1] in edges;
      NoStartEdges(edges, k - 1);
    }
  }

  lemma {:induction false} LoggedIsCompleted(log: Log, i: nat)
    requires i < |log|
    ensures Completions(log, log[i].0) > 0
  {
    if i < |log| - 1 {
      LoggedIsCompleted(log[..|log| - 1], i);
    }
  }

  lemma StartNeverLogged(edges: seq<Edge>, b: TriggerBuffer, pending: map<string, Trigger>,
                         status: map<string, RunStatus>,
                         counters: map<string, nat>, log: Log)
    requires Consistent(edges, b, pending, status, counters, log) && forall e :: e in edges ==> e.target != START
    ensures forall i :: 0 <= i < |log| ==> log[i].0 != START
  {
    NeverTriggersStart(edges, log);
    NoStartEdges(edges, |edges|);
    assert Accounted(edges, b, pending, status, counters, log, START);
    forall i | 0 <= i < |log| ensures log[i].0 != START {
      LoggedIsCompleted(log, i);
    }
  }

  // ---- run counts against path counts ----

  ghost function RunCounts(edges: seq<Edge>, counters: map<string, nat>): map<string, nat> {
    map n | n in NodeNames(edges) :: Val(counters, n)
  }

  ghost predicate Loop(edges: seq<Edge>, b: TriggerBuffer, pending: map<string, Trigger>,
                       status: map<string, RunStatus>,
                       counters: map<string, nat>, log: Log)
  {
    Consistent(edges, b, pending, status, counters, log) && AllUnconditional(edges) && Rooted(edges)
  }

  lemma PathCountsAllBalance(edges: seq<Edge>)
    requires Rooted(edges)
    ensures forall m :: m in PathCounts(edges) ==>
              Balances(edges, PathCounts(edges), m) && PathCounts(edges)[m] == |PathsTo(edges, m)|
  {
    forall m | m in PathCounts(edges)
      ensures Balances(edges, PathCounts(edges), m) && PathCounts(edges)[m] == |PathsTo(edges, m)|
    {
      PathCountsBalance(edges, m);
    }
  }

  /** At no time has a node been started more often than there are paths to it. */
  lemma RunsAreBounded(edges: seq<Edge>, b: TriggerBuffer, pending: map<string, Trigger>,
                       status: map<string, RunStatus>,
                       counters: map<string, nat>, log: Log, n: string)
    requires Loop(edges, b, pending, status, counters, log) && n in NodeNames(edges)
    ensures Val(counters, n) <= |PathsTo(edges, n)|
  {
    StartNeverLogged(edges, b, pending, status, counters, log);
    var f, g := CompletionCounts(edges, log), RunCounts(edges, counters);
    forall m | m in g ensures Underflows(edges, g, m) {
      assert Accounted(edges, b, pending, status, counters, log, m);
      TriggeredIsInflow(edges, log, m);
      forall e | e in edges && e.source in f ensures e.source in g && f[e.source] <= g[e.source] {
        assert Accounted(edges, b, pending, status, counters, log, e.source);
      }
      InflowMonotone(edges, f, g, m, |edges|);
    }
    PathCountsAllBalance(edges);
    UnderflowIsBelow(edges, g, PathCounts(edges), n);
  }

  /** Once nothing is buffered or in flight every node has run exactly once per path from START. */
  lemma DrainedRunsArePaths(edges: seq<Edge>, status: map<string, RunStatus>, counters: map<string, nat>, log: Log,
                            n: string)
    requires Loop(edges, map[], map[], status, counters, log) && n in NodeNames(edges)
    ensures Val(counters, n) == |PathsTo(edges, n)|
  {
    StartNeverLogged(edges, map[], map[], status, counters, log);
    var f, g := CompletionCounts(edges, log), RunCounts(edges, counters);
    forall m | m in NodeNames(edges) ensures f[m] == g[m] {
      assert Accounted(edges, map[], map[], status, counters, log, m);
    }
    assert f == g;
    forall m | m in g ensures Balances(edges, g, m) {
      assert Accounted(edges, map[], map[], status, counters, log, m);
      TriggeredIsInflow(edges, log, m);
    }
    PathCountsAllBalance(edges);
    BalanceIsUnique(edges, g, PathCounts(edges), n);
  }

  lemma {:induction false} CompletionsGrow(log: Log, more: Log, n: string)
    ensures Completions(log, n) <= Completions(log + more, n)
  {
    if more == [] {
      assert log + more == log;
    } else {
      assert (log + more)[..|log + more| - 1] == log + more[..|more| - 1];
      CompletionsGrow(log, more[..|more| - 1], n);
    }
  }

  lemma CompletionShrinksRemaining(edges: seq<Edge>, b: TriggerBuffer, pending: map<string, Trigger>,
                                   status: map<string, RunStatus>,
                                   counters: map<string, nat>, log: Log, name: string, run: NodeRun)
    requires run.Finished?
    requires Loop(edges, b, pending, status, counters, log) && name in pending
    ensures Remaining(edges, log + [(name, run.routes, run.output)]) < Remaining(edges, log)
  {
    var log1 := log + [(name, run.routes, run.output)];
    assert log1[..|log|] == log;
    RunsAreBounded(edges, b, pending, status, counters, log, name);
    assert Accounted(edges, b, pending, status, counters, log, name);
    forall n, i | (n, i) in Remaining(edges, log1) ensures (n, i) in Remaining(edges, log) {
      CompletionsGrow(log, [(name, run.routes, run.output)], n);
    }
    assert (name, Completions(log, name)) in Remaining(edges, log) - Remaining(edges, log1);
  }

  /** What a scheduling pass may do to a node: nothing, or start it with its oldest trigger. */
  ghost predicate Scheduled(b0: TriggerBuffer, p0: map<string, Trigger>, b1: TriggerBuffer, p1: map<string, Trigger>,
                            n: string) {
    if n !in p0 && n in p1 then Queue(b0, n) == [p1[n]] + Queue(b1, n)
    else Queue(b1, n) == Queue(b0, n) && (n in p1 <==> n in p0) && (n in p0 ==> p1[n] == p0[n])
  }

  lemma ScheduleOne(b0: TriggerBuffer, p0: map<string, Trigger>, b: TriggerBuffer, p: map<string, Trigger>,
                    name: string,
                    b1: TriggerBuffer, p1: map<string, Trigger>)
    requires forall n :: Scheduled(b0, p0, b, p, n)
    requires name in b && b[name] != [] && name !in p
    requires b1 == PopTrigger(b, name) && p1 == p[name := b[name][0]]
    ensures forall n :: Scheduled(b0, p0, b1, p1, n)
  {
    forall n ensures Scheduled(b0, p0, b1, p1, n) {
      assert Scheduled(b0, p0, b, p, n);
      if n == name {
        assert Queue(b, n) == [b[n][0]] + b[n][1..];
      }
    }
  }

  /** The whole state of the engine; started holds the inputs of every node's runs so far. */
  datatype EngineState = EngineState(b: TriggerBuffer, pending: map<string, Trigger>, status: map<string, RunStatus>,
                                     counters: map<string, nat>, started: map<string, seq<Trigger>>, log: Log)

  ghost predicate EngineOk(edges: seq<Edge>, input: Option<string>, s: EngineState) {
    match s
    case EngineState(b, pending, status, counters, started, log) =>
      && Consistent(edges, b, pending, status, counters, log)
      && FirstComeFirstServed(edges, input, b, started, log)
  }

  ghost function AfterStart(s: EngineState, name: string): EngineState
    requires name in s.b && s.b[name] != []
  {
    EngineState(PopTrigger(s.b, name), s.pending[name := s.b[name][0]], s.status[name := Running],
                s.counters[name := Val(s.counters, name) + 1],
                s.started[name := InputsOf(s.started, name) + [s.b[name][0]]], s.log)
  }

  ghost function AfterCompletion(edges: seq<Edge>, s: EngineState, name: string, run: NodeRun): EngineState
    requires run.Finished?
  {
    EngineState(AddTriggers(s.b, NextNodes(edges, name, run.routes), Trigger(run.output)), s.pending - {name},
                s.status[name := Completed], s.counters, s.started, s.log + [(name, run.routes, run.output)])
  }

  lemma TriggersAreThere(edges: seq<Edge>, input: Option<string>, s: EngineState)
    requires EngineOk(edges, input, s)
    ensures NoEmptyList(s.b)
  {
  }

  lemma StartKeepsEngine(edges: seq<Edge>, input: Option<string>, s: EngineState, name: string)
    requires EngineOk(edges, input, s) && name in s.b && name !in s.pending
    ensures s.b[name] != [] && EngineOk(edges, input, AfterStart(s, name))
  {
    StartIsConsistent(edges, s.b, s.pending, s.status, s.counters, s.log, name);
    StartInOrder(edges, input, s.b, s.started, s.log, name);
  }

  lemma CompletionKeepsEngine(edges: seq<Edge>, input: Option<string>, s: EngineState, name: string, run: NodeRun)
    requires EngineOk(edges, input, s) && name in s.pending && run.Finished?
    ensures EngineOk(edges, input, AfterCompletion(edges, s, name, run))
  {
    CompletionIsConsistent(edges, s.b, s.pending, s.status, s.counters, s.log, name, run);
    CompletionInOrder(edges, input, s.b, s.started, s.log, name, run);
  }

  lemma SeedingKeepsEngine(edges: seq<Edge>, input: Option<string>)
    ensures EngineOk(edges, input,
                     EngineState(AddTriggers(map[], StartTargets(edges), Trigger(input)), map[], map[], map[], map[],
                                 []))
  {
    SeedingIsConsistent(edges, Trigger(input));
    SeedingInOrder(edges, input);
  }

  /** At the end every node has run once per path, on exactly what was sent to it and in that order. */
  lemma Drained(edges: seq<Edge>, input: Option<string>, s: EngineState)
    requires EngineOk(edges, input, s) && s.b == map[] && s.pending == map[] && AllUnconditional(edges) && Rooted(edges)
    ensures forall n :: n in NodeNames(edges) ==> Val(s.counters, n) == |PathsTo(edges, n)|
    ensures forall n :: InputsOf(s.started, n) == SentTo(edges, input, s.log, n)
  {
    forall n | n in NodeNames(edges) ensures Val(s.counters, n) == |PathsTo(edges, n)| {
      DrainedRunsArePaths(edges, s.status, s.counters, s.log, n);
    }
    forall n ensures InputsOf(s.started, n) == SentTo(edges, input, s.log, n) {
      assert InputsOf(s.started, n) + Queue(s.b, n) == SentTo(edges, input, s.log, n);
    }
  }

  lemma CompletionUsesARun(edges: seq<Edge>, input: Option<string>, s: EngineState, name: string, run: NodeRun)
    requires EngineOk(edges, input, s) && name in s.pending && run.Finished? && AllUnconditional(edges) && Rooted(edges)
    ensures Remaining(edges, AfterCompletion(edges, s, name, run).log) < Remaining(edges, s.log)
  {
    CompletionShrinksRemaining(edges, s.b, s.pending, s.status, s.counters, s.log, name, run);
  }

  class Engine {
    const edges: seq<Edge>
    const maxConcurrency: Option<int>
    const input: Option<string>

    var triggerBuffer: TriggerBuffer
    var pendingTasks: map<string, Trigger>
    var status: map<string, RunStatus>
    var nodeOutputs: map<string, string>
    var runCounters: map<string, nat>
    ghost var log: Log
    /** The inputs of every node's runs so far. */
    ghost var started: map<string, seq<Trigger>>

    ghost predicate WithinCap()
      reads this
    {
      maxConcurrency.Some? && maxConcurrency.value > 0 ==> |pendingTasks| <= maxConcurrency.value
    }

    ghost predicate Valid()
      reads this
    {
      WithinCap() && EngineOk(edges, input, State())
    }

    ghost function State(): EngineState
      reads this
    {
      EngineState(triggerBuffer, pendingTasks, status, runCounters, started, log)
    }

    constructor (edges: seq<Edge>, maxConcurrency: Option<int>, input: Option<string>)
      ensures this.edges == edges && this.maxConcurrency == maxConcurrency && this.input == input
      ensures Valid() && log == [] && pendingTasks == map[]
      ensures triggerBuffer == AddTriggers(map[], StartTargets(edges), Trigger(input))
    {
      this.edges, this.maxConcurrency, this.input := edges, maxConcurrency, input;
      started := map[];
      triggerBuffer, pendingTasks, status, nodeOutputs, runCounters, log := map[], map[], map[], map[], map[], [];
      new;
      SeedStartTriggers(input);
      SeedingKeepsEngine(edges, input);
    }

    method SeedStartTriggers(input: Option<string>)
      requires triggerBuffer == map[]
      modifies this`triggerBuffer
      ensures triggerBuffer == AddTriggers(map[], StartTargets(edges), Trigger(input))
    {
      for i := 0 to |edges|
        invariant triggerBuffer == AddTriggers(map[], StartTargets(edges[..i]), Trigger(input))
      {
        assert edges[..i + 1][..i] == edges[..i];
        ghost var names := StartTargets(edges[..i]);
        assert names + [] == names;
        if edges[i].source == START {
          assert (names + [edges[i].target])[..|names|] == names;
          triggerBuffer := AddTrigger(triggerBuffer, edges[i].target, Trigger(input));
        }
      }
      assert edges[..|edges|] == edges;
    }

    predicate AtConcurrencyLimit()
      reads this
    {
      maxConcurrency.Some? && maxConcurrency.value > 0 && |pendingTasks| >= maxConcurrency.value
    }

    /** Start one run of every triggered node that is not running, in any order of the buffer, until none is left
        or the cap is reached.  Afterwards something is in flight unless nothing is triggered. */
    method ScheduleReadyNodes()
      requires Valid()
      modifies this
      ensures Valid() && log == old(log)
      ensures triggerBuffer != map[] ==> pendingTasks != map[]
      ensures forall n :: Scheduled(old(triggerBuffer), old(pendingTasks), triggerBuffer, pendingTasks, n)
      ensures (forall n :: n in triggerBuffer ==> n in pendingTasks)
              || (maxConcurrency.Some? && maxConcurrency.value > 0 && |pendingTasks| == maxConcurrency.value)
    {
      var names := triggerBuffer.Keys;
      ghost var visited: set<string> := {};
      while names != {}
        invariant Valid() && log == old(log)
        invariant forall n :: Scheduled(old(triggerBuffer), old(pendingTasks), triggerBuffer, pendingTasks, n)
        invariant names <= old(triggerBuffer).Keys && triggerBuffer.Keys <= old(triggerBuffer).Keys
        invariant forall n :: n in triggerBuffer && n !in names ==> n in pendingTasks
        decreases names
      {
        var name :| name in names;
        if name !in pendingTasks && name in triggerBuffer {
          if AtConcurrencyLimit() {
            break;
          }
          TriggersAreThere(edges, input, State());
          ghost var b, pending := triggerBuffer, pendingTasks;
          StartNode(name);
          ScheduleOne(old(triggerBuffer), old(pendingTasks), b, pending, name, triggerBuffer, pendingTasks);
        }
        names := names - {name};
      }
      assert triggerBuffer != map[] ==> exists n :: n in triggerBuffer;
    }

    /** Pop the node's oldest trigger and start a run with it. */
    method StartNode(name: string)
      requires Valid() && name in triggerBuffer && triggerBuffer[name] != [] && name !in pendingTasks
      requires !AtConcurrencyLimit()
      modifies this
      ensures Valid() && State() == AfterStart(old(State()), name)
    {
      StartKeepsEngine(edges, input, State(), name);
      OneMorePending(pendingTasks, name, triggerBuffer[name][0]);
      started := started[name := InputsOf(started, name) + [triggerBuffer[name][0]]];
      var queue := triggerBuffer[name];
      triggerBuffer := PopTrigger(triggerBuffer, name);
      runCounters := runCounters[name := Val(runCounters, name) + 1];
      status := status[name := Running];
      pendingTasks := pendingTasks[name := queue[0]];
      assert State() == AfterStart(old(State()), name);
    }

    /** A run ended without error: record it and trigger whom it leads to. */
    method HandleCompletion(name: string, run: NodeRun)
      requires Valid() && name in pendingTasks && run.Finished?
      modifies this
      ensures Valid() && State() == AfterCompletion(edges, old(State()), name, run)
      ensures nodeOutputs == if run.output.Some? then old(nodeOutputs)[name := run.output.value] else old(nodeOutputs)
    {
      CompletionKeepsEngine(edges, input, State(), name, run);
      OneLessPending(pendingTasks, name);
      pendingTasks := pendingTasks - {name};
      status := status[name := Completed];
      if run.output.Some? {
        nodeOutputs := nodeOutputs[name := run.output.value];
      }
      BufferDownstreamTriggers(name, run);
      log := log + [(name, run.routes, run.output)];
      assert State() == AfterCompletion(edges, old(State()), name, run);
    }

    method BufferDownstreamTriggers(name: string, run: NodeRun)
      requires run.Finished?
      modifies this`triggerBuffer
      ensures triggerBuffer == AddTriggers(old(triggerBuffer), NextNodes(edges, name, run.routes), Trigger(run.output))
    {
      var next := GetNextPendingNodes(edges, name, run.routes);
      for i := 0 to |next|
        invariant triggerBuffer == AddTriggers(old(triggerBuffer), next[..i], Trigger(run.output))
      {
        assert next[..i + 1][..i] == next[..i];
        triggerBuffer := AddTrigger(triggerBuffer, next[i], Trigger(run.output));
      }
      assert next[..|next|] == next;
    }

    /** The orchestration loop.  agents says how each run of each node ends; which in-flight runs end next
        is arbitrary.  The run counts do not depend on either. */
    method RunLoop(agents: (string, nat, Trigger) -> NodeRun) returns (failed: Option<string>)
      requires Valid() && AllUnconditional(edges) && Rooted(edges)
      modifies this
      ensures failed.Some? ==> exists k, t :: agents(failed.value, k, t).Errored?
      ensures failed.None? ==> Valid() && triggerBuffer == map[] && pendingTasks == map[]
      ensures failed.None? ==> forall n :: n in NodeNames(edges) ==> Val(runCounters, n) == |PathsTo(edges, n)|
      ensures failed.None? ==> forall n :: InputsOf(started, n) == SentTo(edges, input, log, n)
    {
      while true
        invariant Valid()
        decreases Remaining(edges, log)
      {
        ghost var remaining := Remaining(edges, log);
        ScheduleReadyNodes();
        if pendingTasks == map[] {
          break;
        }
        var someone :| someone in pendingTasks;
        var done: set<string> :| done <= pendingTasks.Keys && someone in done;
        while done != {}
          invariant Valid() && done <= pendingTasks.Keys
          invariant done == {} ==> Remaining(edges, log) < remaining
          invariant Remaining(edges, log) <= remaining
          decreases done
        {
          var name :| name in done;
          var run := agents(name, Val(runCounters, name), pendingTasks[name]);
          if run.Errored? {
            pendingTasks := pendingTasks - {name};
            status := status[name := Failed];
            return Some(name);
          }
          CompletionUsesARun(edges, input, State(), name, run);
          HandleCompletion(name, run);
          done := done - {name};
        }
      }
      failed := None;
      Drained(edges, input, State());
    }
  }
}
