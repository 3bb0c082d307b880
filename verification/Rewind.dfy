/** Hiding rewound tasks: a newest-first scan with one skip stack per conversation against the
    oldest-first meaning of a rewind. */
module Rewind {
  import opened Common

  /** A stored task; a rewind marker names the task it rewinds to. */
  datatype Task = Task(id: string, ctx: string, rewind: Option<string>)

  type Stacks = map<string, seq<string>>

  function StackOf(stacks: Stacks, ctx: string): seq<string> {
    if ctx in stacks then stacks[ctx] else []
  }

  // ---- the scan ----

  /** One task of the scan: the stacks afterwards, and whether the task is yielded. */
  function ScanStep(t: Task, stack: seq<string>): (seq<string>, bool) {
    if t.rewind.Some? then (stack + [t.rewind.value], false)
    else if stack != [] && t.id == stack[|stack| - 1] then (stack[..|stack| - 1], false)
    else (stack, stack == [])
  }

  /** The tasks a scan yields. */
  function Scan(tasks: seq<Task>, stacks: Stacks): seq<Task> {
    if tasks == [] then []
    else
      var t := tasks[0];
      var (stack, shown) := ScanStep(t, StackOf(stacks, t.ctx));
      (if shown then [t] else []) + Scan(tasks[1..], stacks[t.ctx := stack])
  }

  function Concat(pages: seq<seq<Task>>): seq<Task> {
    if pages == [] then [] else Concat(pages[..|pages| - 1]) + pages[|pages| - 1]
  }

  /** The stacks after a scan. */
  function StacksAfter(tasks: seq<Task>, stacks: Stacks): Stacks {
    if tasks == [] then stacks
    else StacksAfter(tasks[1..], stacks[tasks[0].ctx := ScanStep(tasks[0], StackOf(stacks, tasks[0].ctx)).0])
  }

  /** What the scan shows of one task. */
  function Shown(t: Task, stacks: Stacks): seq<Task> {
    if ScanStep(t, StackOf(stacks, t.ctx)).1 then [t] else []
  }

  function StepStacks(t: Task, stacks: Stacks): Stacks {
    stacks[t.ctx := ScanStep(t, StackOf(stacks, t.ctx)).0]
  }

  lemma ScanFirst(t: Task, rest: seq<Task>, stacks: Stacks)
    ensures Scan([t] + rest, stacks) == Shown(t, stacks) + Scan(rest, StepStacks(t, stacks))
    ensures StacksAfter([t] + rest, stacks) == StacksAfter(rest, StepStacks(t, stacks))
  {
    assert ([t] + rest)[1..] == rest;
  }

  lemma {:induction false} ScanAppend(tasks: seq<Task>, t: Task, stacks: Stacks)
    ensures Scan(tasks + [t], stacks) == Scan(tasks, stacks) + Shown(t, StacksAfter(tasks, stacks))
    ensures StacksAfter(tasks + [t], stacks) == StepStacks(t, StacksAfter(tasks, stacks))
  {
    if tasks == [] {
      assert tasks + [t] == [t] + [];
      ScanFirst(t, [], stacks);
    } else {
      var first, rest := tasks[0], tasks[1..];
      var stacks1 := StepStacks(first, stacks);
      assert tasks == [first] + rest;
      Associates([first], rest, [t]);
      ScanFirst(first, rest, stacks);
      ScanFirst(first, rest + [t], stacks);
      ScanAppend(rest, t, stacks1);
      Associates(Shown(first, stacks), Scan(rest, stacks1), Shown(t, StacksAfter(rest, stacks1)));
    }
  }

  ghost predicate SameStacks(a: Stacks, b: Stacks) {
    forall c :: StackOf(a, c) == StackOf(b, c)
  }

  lemma SetStack(a: Stacks, b: Stacks, ctx: string, stack: seq<string>)
    requires SameStacks(a, b)
    ensures SameStacks(a[ctx := stack], b[ctx := stack])
  {
    var a1, b1 := a[ctx := stack], b[ctx := stack];
    forall c ensures StackOf(a1, c) == StackOf(b1, c) {
      assert StackOf(a, c) == StackOf(b, c);
    }
  }

  /** iter_all_tasks: page by page, keeping the skip stacks across pages. */
  method IterAllTasks(pages: seq<seq<Task>>) returns (visible: seq<Task>)
    ensures visible == Scan(Concat(pages), map[])
  {
    var skipStack: Stacks := map[];
    visible := [];
    for p := 0 to |pages|
      invariant visible == Scan(Concat(pages[..p]), map[])
      invariant SameStacks(skipStack, StacksAfter(Concat(pages[..p]), map[]))
    {
      assert pages[..p + 1][..p] == pages[..p];
      var more;
      skipStack, more := ScanPage(pages[p], skipStack, Concat(pages[..p]));
      visible := visible + more;
    }
    assert pages[..|pages|] == pages;
  }

  method ScanPage(page: seq<Task>, skipStack0: Stacks, ghost before: seq<Task>)
    returns (skipStack: Stacks, visible: seq<Task>)
    requires SameStacks(skipStack0, StacksAfter(before, map[]))
    ensures SameStacks(skipStack, StacksAfter(before + page, map[]))
    ensures Scan(before, map[]) + visible == Scan(before + page, map[])
  {
    skipStack, visible := skipStack0, [];
    assert before + page[..0] == before;
    for i := 0 to |page|
      invariant SameStacks(skipStack, StacksAfter(before + page[..i], map[]))
      invariant Scan(before, map[]) + visible == Scan(before + page[..i], map[])
    {
      ScanAppend(before + page[..i], page[i], map[]);
      TakeOneMore(page, i);
      Associates(before, page[..i], [page[i]]);
      ghost var shownBefore := visible;
      var shown;
      skipStack, shown := ScanTask(page[i], skipStack, StacksAfter(before + page[..i], map[]));
      visible := visible + if shown then [page[i]] else [];
      Associates(Scan(before, map[]), shownBefore, if shown then [page[i]] else []);
    }
    assert page[..|page|] == page;
  }

  method ScanTask(task: Task, skipStack0: Stacks, ghost after: Stacks) returns (skipStack: Stacks, shown: bool)
    requires SameStacks(skipStack0, after)
    ensures SameStacks(skipStack, StepStacks(task, after))
    ensures shown == ScanStep(task, StackOf(after, task.ctx)).1
  {
    var stack := StackOf(skipStack0, task.ctx);
    assert stack == StackOf(after, task.ctx);
    if task.rewind.Some? {
      stack := stack + [task.rewind.value];
      assert stack == ScanStep(task, StackOf(after, task.ctx)).0;
      SetStack(skipStack0, after, task.ctx, stack);
      return skipStack0[task.ctx := stack], false;
    }
    if stack != [] && task.id == stack[|stack| - 1] {
      SetStack(skipStack0, after, task.ctx, stack[..|stack| - 1]);
      return skipStack0[task.ctx := stack[..|stack| - 1]], false;
    }
    skipStack, shown := skipStack0, stack == [];
  }

  /** list_all_tasks: everything visible, optionally oldest first. */
  method ListAllTasks(pages: seq<seq<Task>>, reverse: bool) returns (tasks: seq<Task>)
    ensures tasks == if reverse then Reverse(Scan(Concat(pages), map[])) else Scan(Concat(pages), map[])
  {
    tasks := IterAllTasks(pages);
    if reverse {
      tasks := ReverseTasks(tasks);
    }
  }

  method ReverseTasks(tasks: seq<Task>) returns (reversed: seq<Task>)
    ensures reversed == Reverse(tasks)
  {
    reversed := [];
    for i := 0 to |tasks|
      invariant reversed == Reverse(tasks[..i])
    {
      assert tasks[..i + 1] == tasks[..i] + [tasks[i]];
      ReverseAppend(tasks[..i], tasks[i]);
      reversed := [tasks[i]] + reversed;
    }
    assert tasks[..|tasks|] == tasks;
  }

  function Reverse<T>(s: seq<T>): (r: seq<T>)
    ensures |r| == |s|
  {
    if s == [] then [] else [s[|s| - 1]] + Reverse(s[..|s| - 1])
  }

  // ---- what a rewind means ----

  /** The tasks before the first one with this id. */
  function TruncateAt(vis: seq<Task>, id: string): seq<Task> {
    if vis == [] || vis[0].id == id then [] else [vis[0]] + TruncateAt(vis[1..], id)
  }

  /** Replaying one conversation oldest first: a marker takes back its target and everything after it. */
  function Replay(log: seq<Task>): seq<Task> {
    if log == [] then []
    else
      var vis, t := Replay(log[..|log| - 1]), log[|log| - 1];
      if t.rewind.Some? then TruncateAt(vis, t.rewind.value) else vis + [t]
  }

  ghost predicate Visible(vis: seq<Task>, id: string) {
    exists t :: t in vis && t.id == id
  }

  /** Task ids are unique, and each marker was accepted while its target was visible. */
  ghost predicate WellFormed(log: seq<Task>) {
    log != [] ==>
      var front, t := log[..|log| - 1], log[|log| - 1];
      && WellFormed(front)
      && (t.rewind.Some? ==> Visible(Replay(front), t.rewind.value))
      && (t.rewind.None? ==> forall u :: u in front && u.rewind.None? ==> u.id != t.id)
  }

  // ---- one conversation ----

  function ScanOne(tasks: seq<Task>, stack: seq<string>): seq<Task> {
    if tasks == [] then []
    else
      var (stack1, shown) := ScanStep(tasks[0], stack);
      (if shown then [tasks[0]] else []) + ScanOne(tasks[1..], stack1)
  }

  /** Rewind targets still to be found, the innermost last. */
  function TruncateAll(vis: seq<Task>, stack: seq<string>): seq<Task>
    decreases |stack|
  {
    if stack == [] then vis else TruncateAll(TruncateAt(vis, stack[|stack| - 1]), stack[..|stack| - 1])
  }

  ghost predicate Fits(vis: seq<Task>, stack: seq<string>)
    decreases |stack|
  {
    stack != [] ==>
      && Visible(vis, stack[|stack| - 1])
      && Fits(TruncateAt(vis, stack[|stack| - 1]), stack[..|stack| - 1])
  }

  lemma {:induction false} TruncateAppend(vis: seq<Task>, t: Task, id: string)
    ensures Visible(vis, id) ==> TruncateAt(vis + [t], id) == TruncateAt(vis, id)
    ensures !Visible(vis, id) && t.id == id ==> TruncateAt(vis + [t], id) == vis
  {
    if vis == [] {
      assert (vis + [t])[0] == t;
    } else {
      assert vis == [vis[0]] + vis[1..];
      assert (vis + [t])[1..] == vis[1..] + [t];
      TruncateAppend(vis[1..], t, id);
      assert Visible(vis, id) <==> vis[0].id == id || Visible(vis[1..], id);
    }
  }

  lemma {:induction false} TruncateKeeps(vis: seq<Task>, id: string)
    ensures forall t :: t in TruncateAt(vis, id) ==> t in vis
  {
    if vis != [] && vis[0].id != id {
      TruncateKeeps(vis[1..], id);
    }
  }

  lemma {:induction false} ReplayKeeps(log: seq<Task>)
    ensures forall t :: t in Replay(log) ==> t in log && t.rewind.None?
  {
    if log != [] {
      var front, t := log[..|log| - 1], log[|log| - 1];
      ReplayKeeps(front);
      if t.rewind.Some? {
        TruncateKeeps(Replay(front), t.rewind.value);
      }
    }
  }

  lemma ReverseFirst(log: seq<Task>)
    requires log != []
    ensures Reverse(log)[0] == log[|log| - 1] && Reverse(log)[1..] == Reverse(log[..|log| - 1])
  {
  }

  lemma {:induction false} ReverseAppend(vis: seq<Task>, t: Task)
    ensures Reverse(vis + [t]) == [t] + Reverse(vis)
  {
    assert (vis + [t])[..|vis|] == vis;
  }

  /** With open rewinds on the stack, the scan yields what replaying the older tasks and then taking
      those rewinds leaves. */
  lemma {:induction false} ScanIsReplay(log: seq<Task>, stack: seq<string>)
    requires WellFormed(log) && Fits(Replay(log), stack)
    ensures ScanOne(Reverse(log), stack) == Reverse(TruncateAll(Replay(log), stack))
  {
    if log == [] {
      assert stack == [];
    } else {
      var front, t := log[..|log| - 1], log[|log| - 1];
      var vis := Replay(front);
      ReverseFirst(log);
      if t.rewind.Some? {
        var pushed := stack + [t.rewind.value];
        assert pushed[..|pushed| - 1] == stack;
        ScanIsReplay(front, pushed);
      } else if stack == [] {
        ReverseAppend(vis, t);
        ScanIsReplay(front, []);
      } else {
        var top, rest := stack[|stack| - 1], stack[..|stack| - 1];
        ReplayKeeps(front);
        TruncateAppend(vis, t, top);
        if top == t.id {
          assert !Visible(vis, top);
          ScanIsReplay(front, rest);
        } else {
          assert Visible(vis, top) by {
            var u :| u in vis + [t] && u.id == top;
            assert u in vis;
          }
          ScanIsReplay(front, stack);
        }
      }
    }
  }

  // ---- many conversations ----

  function Project(tasks: seq<Task>, ctx: string): seq<Task> {
    if tasks == [] then []
    else (if tasks[0].ctx == ctx then [tasks[0]] else []) + Project(tasks[1..], ctx)
  }

  /** Conversations do not influence each other, however their tasks interleave. */
  lemma {:induction false} ScanProjects(tasks: seq<Task>, stacks: Stacks, ctx: string)
    ensures Project(Scan(tasks, stacks), ctx) == ScanOne(Project(tasks, ctx), StackOf(stacks, ctx))
  {
    if tasks != [] {
      var t := tasks[0];
      var (stack, shown) := ScanStep(t, StackOf(stacks, t.ctx));
      var stacks1 := stacks[t.ctx := stack];
      ScanProjects(tasks[1..], stacks1, ctx);
      var head := if shown then [t] else [];
      ProjectAppend(head, Scan(tasks[1..], stacks1), ctx);
      assert Project([t], ctx) == if t.ctx == ctx then [t] else [];
      if t.ctx == ctx {
        var one := Project(tasks, ctx);
        assert one[0] == t && one[1..] == Project(tasks[1..], ctx);
        assert ScanOne(one, StackOf(stacks, ctx)) == head + ScanOne(one[1..], stack);
        assert Project(head, ctx) == head;
      } else {
        assert Project(head, ctx) == [];
        assert [] + Project(tasks[1..], ctx) == Project(tasks[1..], ctx);
        assert [] + Project(Scan(tasks[1..], stacks1), ctx) == Project(Scan(tasks[1..], stacks1), ctx);
      }
    }
  }

  lemma {:induction false} ProjectAppend(a: seq<Task>, b: seq<Task>, ctx: string)
    ensures Project(a + b, ctx) == Project(a, ctx) + Project(b, ctx)
  {
    if a == [] {
      assert a + b == b;
    } else {
      var first := if a[0].ctx == ctx then [a[0]] else [];
      assert (a + b)[0] == a[0] && (a + b)[1..] == a[1..] + b;
      ProjectAppend(a[1..], b, ctx);
      Associates(first, Project(a[1..], ctx), Project(b, ctx));
    }
  }

  lemma {:induction false} ProjectReverse(log: seq<Task>, ctx: string)
    ensures Project(Reverse(log), ctx) == Reverse(Project(log, ctx))
  {
    if log != [] {
      var front, t := log[..|log| - 1], log[|log| - 1];
      ProjectReverse(front, ctx);
      assert log == front + [t];
      ProjectAppend(front, [t], ctx);
      ProjectAppend([t], Reverse(front), ctx);
      assert Project([t], ctx) == if t.ctx == ctx then [t] else [];
      if t.ctx == ctx {
        ReverseAppend(Project(front, ctx), t);
      } else {
        assert Project(front, ctx) + [] == Project(front, ctx);
      }
    }
  }

  /** For every conversation the scan shows exactly what its rewinds left, newest first. */
  lemma VisibleTasksAreReplayed(log: seq<Task>, ctx: string)
    requires WellFormed(Project(log, ctx))
    ensures Project(Scan(Reverse(log), map[]), ctx) == Reverse(Replay(Project(log, ctx)))
  {
    ScanProjects(Reverse(log), map[], ctx);
    ProjectReverse(log, ctx);
    ScanIsReplay(Project(log, ctx), []);
  }

  /** The sub-sequence of tasks that survive in their own conversation. */
  ghost function Surviving(tasks: seq<Task>, log: seq<Task>): seq<Task> {
    if tasks == [] then []
    else (if tasks[0] in Replay(Project(log, tasks[0].ctx)) then [tasks[0]] else []) + Surviving(tasks[1..], log)
  }

  lemma {:induction false} ScanSelects(tasks: seq<Task>, stacks: Stacks, log: seq<Task>)
    requires Distinct(tasks)
    requires forall t :: t in tasks ==> (t in Scan(tasks, stacks) <==> t in Replay(Project(log, t.ctx)))
    ensures Scan(tasks, stacks) == Surviving(tasks, log)
  {
    if tasks != [] {
      var t := tasks[0];
      var (stack, shown) := ScanStep(t, StackOf(stacks, t.ctx));
      var stacks1 := stacks[t.ctx := stack];
      assert tasks == [t] + tasks[1..];
      ScanYieldsMembers(tasks[1..], stacks1);
      assert t !in tasks[1..];
      ScanSelects(tasks[1..], stacks1, log);
    }
  }

  lemma {:induction false} ScanYieldsMembers(tasks: seq<Task>, stacks: Stacks)
    ensures forall t :: t in Scan(tasks, stacks) ==> t in tasks
  {
    if tasks != [] {
      ScanYieldsMembers(tasks[1..], stacks[tasks[0].ctx := ScanStep(tasks[0], StackOf(stacks, tasks[0].ctx)).0]);
    }
  }

  lemma {:induction false} ProjectMembers(tasks: seq<Task>, ctx: string)
    ensures forall t :: t in Project(tasks, ctx) <==> t in tasks && t.ctx == ctx
  {
    if tasks != [] {
      ProjectMembers(tasks[1..], ctx);
    }
  }

  lemma {:induction false} ReverseMembers(s: seq<Task>)
    ensures forall t :: t in Reverse(s) <==> t in s
    ensures Distinct(s) ==> Distinct(Reverse(s))
  {
    if s != [] {
      var front, last := s[..|s| - 1], s[|s| - 1];
      assert s == front + [last];
      ReverseMembers(front);
      if Distinct(s) {
        DistinctLast(front, last);
      }
    }
  }

  /** The whole timeline, any interleaving of conversations and any page split: the tasks that survive in
      their conversation, newest first. */
  lemma TimelineIsReplayed(log: seq<Task>, pages: seq<seq<Task>>)
    requires Distinct(log) && forall ctx :: WellFormed(Project(log, ctx))
    requires Concat(pages) == Reverse(log)
    ensures Scan(Concat(pages), map[]) == Surviving(Reverse(log), log)
  {
    var tasks := Reverse(log);
    ReverseMembers(log);
    forall t | t in tasks ensures t in Scan(tasks, map[]) <==> t in Replay(Project(log, t.ctx)) {
      VisibleTasksAreReplayed(log, t.ctx);
      ProjectMembers(Scan(tasks, map[]), t.ctx);
      ReverseMembers(Replay(Project(log, t.ctx)));
    }
    ScanSelects(tasks, map[], log);
  }

  /** The guard of a rewind request looks the target up in the scanned list; that keeps logs well formed. */
  lemma GuardKeepsWellFormed(log: seq<Task>, marker: Task)
    requires WellFormed(log) && marker.rewind.Some?
    requires Visible(ScanOne(Reverse(log), []), marker.rewind.value)
    ensures WellFormed(log + [marker])
  {
    ScanIsReplay(log, []);
    ReverseMembers(Replay(log));
    var t :| t in ScanOne(Reverse(log), []) && t.id == marker.rewind.value;
    assert t in Replay(log);
    assert (log + [marker])[..|log|] == log;
  }
}
