# Choirworks orchestration: a verified model

Choirworks coordinates a group of agents: a planner turns a request into a graph of subtasks, schedulers
dispatch the subtasks to remote agents, and results, questions and rewrites flow back while the graph is
running. This project models the scheduling and bookkeeping logic of both generations of the orchestrator
and proves what that logic keeps over whole runs.

`dafny verify dfyconfig.toml` checks everything.

How the models are built:

- Python `async` code is a sequence of steps: one finished task, one message, or a locked section, cut in two
  where it awaits something while other tasks go on (the model call of a compaction, the answer to a question, the
  cancellation of a remote task). Which step comes next is an arbitrary choice, so the theorems hold for every
  completion order and for whatever happens during those waits.
- The planner, the agents, the judges and the user are arbitrary inputs, limited only by the checks the code
  itself makes.
- Classes whose methods update fields are Dafny classes (`Dag`, `Engine`, `CycleFinder`, `Joiner`, `Runner`,
  `PlanState`, `Desk`, `Conversation`, `Barrier`, `RemoteAgent`). Each method equates the new state with a
  specification function of the old one.  What such a function does is in turn stated without it, about the edges,
  nodes, drafts or messages themselves (the lemmas named `...Exactly`, and `DagLaws`), and the theorems about whole
  runs are about runs made of these functions.

The modules:

| files | subject |
|---|---|
| Common, Digraph, Ids | shared definitions: walks, cycles, ranks, decimal ids |
| Plan | plan validation by Kahn's algorithm, used by both generations |
| DagSpec, DagInvariant, DagProgress, DagMachine, DagTheorems, DagLaws, DagStall, DagRuntime | the new DAG runtime with its executor and helper nodes |
| WorkflowGraph, PathCount, Workflow, Join, GraphValidation | the graph workflow engine, join nodes and the static validator |
| Legacy, Interventions, LegacyRuns, LegacyTheorems, Scheduler | the legacy plan state, user questions, whole runs and the scheduler loop |
| Rewind, History | the rewind filter and the compacted message history |
| ReplayBarrier | ordered replay of recorded node runs |
| Chunking, ConversationView | artifact chunks, split and reassembled by three consumers |
| Fencing | quoting untrusted text |

## What the code does not keep

Some promises turned out to be too strong. Each is stated here with the exact condition that is proved instead.

- *"dispatch made no progress" is never raised.* `DagTheorems.NeverDeadlocked` proves that dispatchable work
  always exists when it should. The error itself is still reachable: a node that was planned away but is still
  running can be the first to end, and then the round has nothing to judge. `DagTheorems.StallsExactly` says from
  which states the next round can raise it: completion has not been declared, nothing planned is queued, and either
  a task that was planned away is in flight, or nothing is in flight and none of the remaining work can start (then
  a planned node has failed). `DagTheorems.StallTiming` says for which timings of the tasks it then does, and
  `DagStall.ReplanCanStall` is a three-step run without a failure.
- *Live history equals rebuilt history.* A compaction slices the list, awaits the model and then replaces the list;
  what is recorded in between is in the artifacts but no longer in the list. After any run with a non-negative
  retention the two agree exactly when no completed compaction lost a message in this way:
  `History.LiveEqualsRebuilt` over runs, `History.InstallKeepsLive` for one compaction,
  `History.MessageLostWhileSummarising` for a concrete run. A negative retention breaks it as well, because the
  first compaction then claims more messages than there are: `History.RetentionMatters` (an equivalence).
- *A confirmed cancellation takes effect.* While the remote task is being cancelled the node may end; then the
  confirmation stays resolved and the transition is refused: `Interventions.RefusedExactly` (an equivalence) and
  `LegacyTheorems.ConfirmationCanBeRefused`.
- *A begun legacy node has completed dependencies.* It fails when a settlement outlives its plan and asks the
  user about a node of the next plan with the same id: `LegacyRuns.StepKeepsPlan` (an equivalence) and
  `LegacyTheorems.StaleSettlementMisfires` (a six-step run).
- *A pending question's node waits for input.* It fails when a task of that node raises, and also, without any
  exception, when a recovered node has two live tasks: `LegacyTheorems.StepKeepsQuestions` (an equivalence)
  and `LegacyTheorems.TwoTasksDisturbAQuestion`.
- *The scheduler ends.* It does for every positive `max_parallel`; with none, a fresh plan is unchanged after any
  number of turns and goes round again: `Scheduler.NoSlotsNeverEnds`. The number of dispatches per node is at most `max_node_attempts` or 1,
  whichever is larger.

## Model

| member | source | states |
|---|---|---|
| `Plan.ValidatePlan` | src/new_choirworks/orchestrator/plan.py:46-80 | accepts a plan iff it is small enough, has unique ids and known dependencies and no cycle; acceptance yields a topological rank; each error names its first cause |
| `Plan.KahnCount` | src/choirworks/core/planner.py:47-77 | the queue visits all nodes iff the dependency relation is acyclic, duplicate dependencies included |
| `Plan.SweepQueue` | src/new_choirworks/orchestrator/plan.py:62-80 | from a correct initial queue the sweep visits every node iff there is no cycle, and then its visiting order is a topological rank |
| `Ids.GeneratedIdsDiffer` | src/new_choirworks/orchestrator/runtime.py:202-203 | ids generated under different sequence numbers differ, whatever the parents are called |
| `Ids.DecIsDecimal` | src/new_choirworks/orchestrator/runtime.py:202-203 | the sequence number is written in decimal, without leading zeros |
| `DagInvariant.ApplyPlanInv` | src/new_choirworks/orchestrator/runtime.py:77-114 | a rewrite keeps the runtime invariant: the graph restricted to ids without outputs stays acyclic although merged dependencies may form cycles |
| `DagInvariant.CollectFromInv` | src/new_choirworks/orchestrator/executor_node.py:228-239 | collecting finished tasks keeps the invariant and leaves exactly the unfinished ones running |
| `DagInvariant.PopInv` | src/new_choirworks/orchestrator/runtime.py:167-173 | popping returns a planned completion whose id is queued no more, or empties a queue that held none |
| `DagInvariant.AssistIdIsFresh` | src/new_choirworks/orchestrator/runtime.py:202-203 | the next generated assist id is new to the runtime |
| `DagInvariant.AssistIdsDiffer` | src/new_choirworks/orchestrator/runtime.py:202-203 | assist ids of different sequence numbers are never equal |
| `DagInvariant.AddAssistInv` | src/new_choirworks/orchestrator/runtime.py:195-222 | wiring an assist into a completed parent keeps the invariant, in particular acyclicity of the open graph |
| `DagInvariant.StartAllInv` | src/new_choirworks/orchestrator/executor_node.py:206-215 | dispatching all startable nodes keeps the invariant |
| `DagProgress.DispatchableNonEmpty` | src/new_choirworks/orchestrator/runtime.py:127-135 | with nothing running, no failed planned node and unstarted planned work, something is dispatchable |
| `DagProgress.NoProgressExactly` | src/new_choirworks/orchestrator/executor_node.py:173-186 | from any state of the invariant and for any timing, the error is raised iff completion is not declared, nothing planned is queued or has ended at the start, work is left after dispatching, and no task that then ends is planned |
| `DagProgress.CanStallExactly` | src/new_choirworks/orchestrator/executor_node.py:173-186 | from any state of the invariant some timing raises the error iff completion is not declared, nothing planned is queued, and a planned-away task is in flight or nothing is in flight and no remaining work can start |
| `DagProgress.IdleStallNeedsFailure` | src/new_choirworks/orchestrator/runtime.py:127-144 | the second of these cases needs a planned node that failed |
| `DagProgress.NoProgressCause` | src/new_choirworks/orchestrator/executor_node.py:179-186 | the error needs a finished task that was planned away, or a failed node that was planned back in |
| `DagMachine.StepKeepsInv` | src/new_choirworks/orchestrator/executor_node.py:149-189 | every planner, executor and helper round keeps the machine invariant |
| `DagMachine.HelpKeepsInv` | src/new_choirworks/orchestrator/helper.py:47-84 | a helper round keeps it, whatever the agent mentioned |
| `DagMachine.RunsKeepInv` | src/new_choirworks/orchestrator/executor_node.py:133-189 | the invariant holds in every reachable state |
| `DagTheorems.NeverDeadlocked` | src/new_choirworks/orchestrator/runtime.py:127-144 | in every reachable state with nothing running, unstarted planned work is dispatchable or a planned node failed |
| `DagTheorems.StallsExactly` | src/new_choirworks/orchestrator/executor_node.py:165-186 | with any plan input the next round of a run can raise "dispatch made no progress" iff the state with that plan applied is such a state |
| `DagTheorems.StallTiming` | src/new_choirworks/orchestrator/executor_node.py:173-186 | for one timing of the tasks it raises it iff the round waits and no task that ends is planned |
| `DagTheorems.RewriteKeepsFinishedWork` | src/new_choirworks/orchestrator/runtime.py:77-114 | a rewrite leaves outputs and the status of started ids alone and makes none of them dispatchable |
| `DagLaws.RewriteAdoptsThePlan` | src/new_choirworks/orchestrator/runtime.py:88-114 | every node of the new plan has the Planner's agent and instruction; it has the Planner's dependencies, or, while it waits for assists, those and the old node's that are planned or have an output, each once, by first occurrence; and whom it assists is the Planner's answer, or the old one where there is none |
| `DagLaws.RewriteKeepsTheRest` | src/new_choirworks/orchestrator/runtime.py:88-114 | of the rest of the state a rewrite makes new ids pending and, when the plan is empty, declares completion and empties the queue; ids that come back keep the status they had |
| `DagTheorems.DispatchBound` | src/new_choirworks/orchestrator/executor_node.py:206-215 | each id is dispatched at most once plus once per helper round that wired assists into it |
| `DagTheorems.OutputsOnlyGrow` | src/new_choirworks/orchestrator/runtime.py:156-160 | along every run the registry of outputs only gains keys |
| `DagTheorems.GrowthIsBounded` | src/new_choirworks/orchestrator/runtime.py:190-193 | every reachable state has at most MAX_PLAN_NODES planned nodes and records no depth beyond MAX_ASSIST_DEPTH |
| `DagLaws.WiredIsDeeper` | src/new_choirworks/orchestrator/runtime.py:195-222 | in any run an assist that a helper round wired into a node is recorded one level deeper than that node, from then on |
| `DagLaws.NestingIsBounded` | src/new_choirworks/orchestrator/runtime.py:190-222 | in any run a chain of ids, each wired as an assist into the one before it, has at most MAX_ASSIST_DEPTH links |
| `DagTheorems.ExecuteRoundsAreBounded` | src/new_choirworks/orchestrator/helper.py:56-84 | between planner rounds, helper rounds that route back to the executor each use up plan capacity, so there are at most MAX_PLAN_NODES less the plan size |
| `DagTheorems.HandBack` | src/new_choirworks/orchestrator/executor_node.py:53-61 | in any run: after a helper round has wired an assist into a node, and while every later plan keeps the node and keeps the assist or follows its output, the next message to the node is sent only once the assist has an output, and contains it |
| `DagTheorems.DebtLasts` | src/new_choirworks/orchestrator/runtime.py:97-112 | in any run the wiring survives every round, with or without a rewrite, until the node is sent its message |
| `DagTheorems.OwedAreSent` | src/new_choirworks/orchestrator/executor_node.py:53-61 | a round that messages a node with wired assists finds an output of each and puts it into the message |
| `DagTheorems.TracesAreRuns` | src/new_choirworks/orchestrator/executor_node.py:133-189 | the state sequences these two speak of are exactly the possible runs, state by state |
| `DagLaws.RoundSends` | src/new_choirworks/orchestrator/executor_node.py:53-61 | a round that dispatches sends exactly the planned nodes that are pending or wait for assists and have all their dependencies' outputs, in plan order, each to its own agent with its own instruction and the output of every dependency, in dependency order |
| `DagLaws.OtherRoundsSendNothing` | src/new_choirworks/orchestrator/executor_node.py:149-175 | a round that judges, aborts or has been told to finish sends nothing |
| `DagLaws.DoneExactly` | src/new_choirworks/orchestrator/executor_node.py:156-177 | the run is over iff completion was declared, or nothing planned is queued, whatever was in flight has ended and had been planned away, and no planned node is pending or waiting |
| `DagLaws.DrainsEverything` | src/new_choirworks/orchestrator/executor_node.py:156-163 | once completion was declared a round ends with nothing in flight and the result of every task in the records |
| `DagLaws.CollectSetsStatus` | src/new_choirworks/orchestrator/executor_node.py:228-239 | a task that ended is completed or failed as it ended, planned or not, and no other status changes |
| `DagLaws.CollectLeaves` | src/new_choirworks/orchestrator/executor_node.py:228-239 | what has not ended stays in flight, once |
| `DagLaws.CollectQueues` | src/new_choirworks/orchestrator/runtime.py:156-165 | the queue keeps its entries and grows by the results of the planned ones, in the order in which their tasks were started |
| `DagLaws.AbortsWithTheFirstFailure` | src/new_choirworks/orchestrator/runtime.py:175-179 | a round aborts with the first failure of a planned node in the queue and drops what is in flight |
| `DagLaws.JudgesTheFirst` | src/new_choirworks/orchestrator/runtime.py:167-173 | without such a failure it hands over the first planned entry, which leaves the queue with everything before it |
| `DagLaws.AddAssistExactly` | src/new_choirworks/orchestrator/runtime.py:195-222 | an assist is a new pending node at the end of the plan, without dependencies, one level deeper than its parent; the parent gets it as its last dependency, quotes its output and waits; nothing else changes |
| `DagLaws.HelpExactly` | src/new_choirworks/orchestrator/helper.py:47-84 | a helper round routes to the executor iff some mention asks for an assist and neither depth nor capacity stands against all that do; then exactly those are wired in, in order of mention, and otherwise nothing changes |
| `DagStall.ReplanCanStall` | src/new_choirworks/orchestrator/executor_node.py:179-186 | a concrete run without failures that ends in "dispatch made no progress" |
| `DagRuntime.Dag.ApplyPlan` | src/new_choirworks/orchestrator/runtime.py:77-114 | a plan that validates is applied as the rewrite function says, whose meaning is `DagLaws.RewriteAdoptsThePlan` and `DagLaws.RewriteKeepsTheRest`; one that does not validate changes nothing |
| `DagRuntime.Dag.Dispatchable` | src/new_choirworks/orchestrator/runtime.py:127-135 | the loop returns the startable ids in plan order |
| `DagRuntime.Dag.RecordResult` | src/new_choirworks/orchestrator/runtime.py:156-165 | records output or failure and queues a planned id |
| `DagRuntime.Dag.PopCompletion` | src/new_choirworks/orchestrator/runtime.py:167-173 | drops stale records and returns the first planned one |
| `DagRuntime.Dag.AddAssist` | src/new_choirworks/orchestrator/runtime.py:195-222 | the method wires as the specification does, whose meaning is `DagLaws.AddAssistExactly` |
| `DagRuntime.Dag.DispatchReady` | src/new_choirworks/orchestrator/executor_node.py:206-215 | starts every dispatchable node with the message built from the outputs at that moment |
| `DagRuntime.Dag.CollectDone` | src/new_choirworks/orchestrator/executor_node.py:228-239 | moves every ended task into the registry and the queue |
| `DagRuntime.Dag.ExecutorRound` | src/new_choirworks/orchestrator/executor_node.py:149-189 | one executor round, with a plan or without, equals its specification in route, messages and new state; the `DagLaws` say what that is |
| `DagRuntime.Dag.HelperRound` | src/new_choirworks/orchestrator/helper.py:47-84 | one helper round equals its specification, whose meaning is `DagLaws.HelpExactly` |
| `WorkflowGraph.GetNextPendingNodes` | src/new_choirworks/core/workflow/graph.py:72-129 | each target is triggered as often as edges into it leave the node and fire: unconditional ones, those that share a route, and the default ones while no specific edge of the node shares a route |
| `WorkflowGraph.FiresExactly` | src/new_choirworks/core/workflow/graph.py:72-129 | the same of the specification, said about the edges alone |
| `WorkflowGraph.UnconditionalNext` | src/new_choirworks/core/workflow/graph.py:72-129 | without routes each edge of a completed node fires exactly once |
| `PathCount.PathsToAreThePaths` | src/new_choirworks/core/workflow/workflow.py:226-240 | for a rooted acyclic graph the counted set is exactly the set of START-to-node paths |
| `PathCount.PathCountsAreInflows` | src/new_choirworks/core/workflow/workflow.py:226-240 | the number of paths to a node is what its predecessors' path counts send it |
| `PathCount.BalanceIsUnique` | src/new_choirworks/core/workflow/workflow.py:226-240 | run counts that balance at every node of an acyclic graph are unique, so the schedule cannot matter |
| `Workflow.SeedingIsConsistent` | src/new_choirworks/core/workflow/workflow.py:175-192 | seeding establishes trigger conservation |
| `Workflow.StartIsConsistent` | src/new_choirworks/core/workflow/workflow.py:142-173 | starting a node moves one trigger from buffered to started |
| `Workflow.CompletionIsConsistent` | src/new_choirworks/core/workflow/workflow.py:215-240 | a completion, on any routes, adds exactly its downstream triggers |
| `Workflow.RunsAreBounded` | src/new_choirworks/core/workflow/workflow.py:91-132 | at no time has a node been started more often than there are paths to it |
| `Workflow.DrainedRunsArePaths` | src/new_choirworks/core/workflow/workflow.py:91-112 | with nothing buffered or in flight every node has run exactly once per path |
| `Workflow.CompletionShrinksRemaining` | src/new_choirworks/core/workflow/workflow.py:91-112 | each completion uses up one of finitely many expected runs, so the loop ends |
| `Workflow.StartInOrder` | src/new_choirworks/core/workflow/workflow.py:142-173 | starting a node with its oldest trigger keeps first come, first served: the inputs of its runs followed by its buffered triggers are what was sent to it, in that order |
| `Workflow.CompletionInOrder` | src/new_choirworks/core/workflow/workflow.py:226-240 | so does a completion, which puts its output at the end of the queue of every node it triggers |
| `Workflow.Drained` | src/new_choirworks/core/workflow/workflow.py:91-112 | at the end each node has run once per path, on exactly what was sent to it and in that order |
| `Workflow.Engine.SeedStartTriggers` | src/new_choirworks/core/workflow/workflow.py:175-192 | buffers one trigger per edge out of START |
| `Workflow.Engine.ScheduleReadyNodes` | src/new_choirworks/core/workflow/workflow.py:114-140 | starts idle nodes with their oldest triggers, touches nothing else, never exceeds a positive limit, and stops only at the limit or when every triggered node is running |
| `Workflow.Engine.HandleCompletion` | src/new_choirworks/core/workflow/workflow.py:215-224 | records the completion and sends its triggers, keeping conservation |
| `Workflow.Engine.RunLoop` | src/new_choirworks/core/workflow/workflow.py:91-112 | for every completion order and limit the loop ends; unless a node failed the buffer is empty, each node ran once per path, and its runs took exactly the inputs sent to it, in the order in which they were sent |
| `Join.Joiner.BufferBarrierTrigger` | src/new_choirworks/core/workflow/workflow.py:194-205 | buffers one trigger with every predecessor's output iff all predecessors have completed |
| `Join.Joiner.constructor` | src/new_choirworks/core/workflow/workflow.py:175-205 | consults the barrier once for every edge from START into the join node |
| `Join.Joiner.HandleCompletion` | src/new_choirworks/core/workflow/workflow.py:215-240 | a completion records status and output and consults the barrier once for every edge into the join node that fires on its routes |
| `Join.Joiner.StartNode` | src/new_choirworks/core/workflow/workflow.py:142-173 | a started node counts as running, also when it had completed before |
| `Join.JoinsExactly` | src/new_choirworks/core/workflow/workflow.py:194-240 | when every predecessor runs once, in whatever order and on whatever routes, nothing is triggered while one is missing, and the last one triggers the join node once for each edge it fires into it, with all outputs |
| `Join.JoinsOnce` | src/new_choirworks/core/workflow/workflow.py:194-205 | so without routes and parallel edges the join node is triggered exactly once |
| `Join.RepeatedRunsDependOnTheSchedule` | src/new_choirworks/core/workflow/workflow.py:194-205 | with a predecessor that runs twice the number of triggers depends on the schedule |
| `GraphValidation.InferNodes` | src/new_choirworks/core/workflow/graph.py:45-56 | lists every node object of the edges once, by identity |
| `GraphValidation.ValidateObjects` | src/new_choirworks/core/workflow/utils/graph_validation.py:12-28 | reports duplicate names iff two node objects share a name, and otherwise validates the named graph |
| `GraphValidation.ValidateGraph` | src/new_choirworks/core/workflow/utils/graph_validation.py:12-21 | accepts exactly the graphs with START as a source, unrouted START edges, everything reachable, no clashing edges, lone default routes and no unconditional cycle; otherwise it names the first of these, in this order, that fails |
| `GraphValidation.ReachableFromStart` | src/new_choirworks/core/workflow/utils/graph_validation.py:44-64 | the stack search returns exactly the nodes that START reaches |
| `GraphValidation.HasDuplicateEdges` | src/new_choirworks/core/workflow/utils/graph_validation.py:67-91 | reports a clash iff two edges between the same nodes share a route or one is unconditional |
| `GraphValidation.CycleFinder.DetectUnconditionalCycles` | src/new_choirworks/core/workflow/utils/graph_validation.py:101-126 | the depth-first search reports a cycle iff the unconditional edges contain one, for every visiting order |
| `GraphValidation.CycleFinder.Dfs` | src/new_choirworks/core/workflow/utils/graph_validation.py:110-122 | a visit either finds a real cycle or finishes the node and everything below it |
| `GraphValidation.ValidatedIsRooted` | src/new_choirworks/core/workflow/utils/graph_validation.py:12-21 | a validated graph without routes meets what the run-count theorem needs |
| `Rewind.IterAllTasks` | src/choirworks/a2a/tasks.py:14-47 | the page loop yields the filter's result over the concatenated pages, so the page split cannot matter |
| `Rewind.ListAllTasks` | src/choirworks/a2a/tasks.py:50-63 | lists the filtered tasks, reversed in place when asked |
| `Rewind.ScanIsReplay` | src/choirworks/a2a/tasks.py:25-47 | the one-pass newest-first stack filter equals replaying oldest first and truncating at each marker's target |
| `Rewind.ScanProjects` | src/choirworks/a2a/tasks.py:25-47 | the filter treats every conversation independently under any interleaving |
| `Rewind.VisibleTasksAreReplayed` | src/choirworks/a2a/tasks.py:25-47 | each conversation shows what its rewinds left, newest first |
| `Rewind.TimelineIsReplayed` | src/choirworks/a2a/tasks.py:25-47 | the whole timeline, any interleaving and page split, is exactly the surviving tasks in order |
| `Rewind.GuardKeepsWellFormed` | src/choirworks/api/conversations.py:183-187 | the endpoint's membership check keeps every marker aimed at a task that is visible at that moment |
| `History.Conversation.Record` | src/choirworks/orchestration/events.py:326-366 | appends to the live list and emits the matching artifact |
| `History.Conversation.EmitFunction` | src/choirworks/orchestration/events.py:242-325 | fills in a missing call id and the JSON of arguments, result or error, appends call and result to the live list and emits the exchange |
| `History.Conversation.BeginCompaction` | src/choirworks/orchestration/history.py:142-179 | below the threshold or with nothing to fold nothing happens; otherwise the older messages are cut off, stepping back over tool results, and either replaced at once by the old summary or sent to the model |
| `History.Conversation.FinishCompaction` | src/choirworks/orchestration/planning/planner.py:162-169 | when the model has answered, the list becomes the summary and the messages cut off as recent before, and the compaction is emitted |
| `History.Conversation.Rebuild` | src/choirworks/orchestration/history.py:77-140 | rebuilds summary and remaining raw messages from the artifacts |
| `History.LiveEqualsRebuilt` | src/choirworks/orchestration/history.py:93-140 | after any interleaving of messages, exchanges and the two halves of compactions, successful or not, the rebuilt list is the live list iff no completed compaction lost a message recorded while it waited; and no tool message ever lacks its call |
| `History.UndisturbedRunsAgree` | src/choirworks/orchestration/history.py:142-190 | so runs in which nothing is recorded between the halves of a compaction keep the lists equal |
| `History.MessageLostWhileSummarising` | src/choirworks/orchestration/history.py:163-179 | a five-step run in which a message recorded during the model call is missing from the live list and present in the rebuilt one |
| `History.InstallKeepsLive` | src/choirworks/orchestration/planning/planner.py:162-169 | for every summary, finishing a compaction keeps the equality iff nothing was recorded since it began |
| `History.RetentionMatters` | src/choirworks/orchestration/history.py:157-190 | after an undisturbed first compaction and one more message the equality holds iff retention is not negative |
| `History.RecordedExchangeReplays` | src/choirworks/orchestration/history.py:209-241 | every exchange that is recorded, whatever the tool returned or raised, replays as recorded, and the id that would be made up for a missing one is never used |
| `History.SplitsExactly` | src/choirworks/orchestration/history.py:156-160 | the list is cut as late as the retention allows without separating a tool result from its call |
| `History.NothingIsFoldedUnread` | src/choirworks/orchestration/history.py:162-179 | what every folded message says, and the old summary, is in what the model is asked to summarise; a compaction does without the model only if nothing new that is folded has any text |
| `Legacy.AddedIdsAreFresh` | src/choirworks/orchestration/planning/patch.py:62-83 | added nodes get new, distinct ids and leave the old nodes alone |
| `Legacy.AddsExactly` | src/choirworks/orchestration/planning/patch.py:62-83 | the added nodes are those drafts, in order, whose agent is known and whose dependencies are old nodes or were added by earlier drafts, each with its own agent, dependencies and text |
| `Legacy.AddedIdsCountUp` | src/choirworks/orchestration/planning/patch.py:62-83 | their ids are x1, x2 and so on, upwards from the counter |
| `Legacy.CascadeIsClosure` | src/choirworks/orchestration/planning/patch.py:99-111 | a set that absorbs its open dependents and stays inside the closure is the closure |
| `Legacy.ClosureAbsorbs` | src/choirworks/orchestration/planning/patch.py:99-111 | the closure contains the open requested nodes and whatever is open and depends on a member |
| `Legacy.InvalidatesExactly` | src/choirworks/orchestration/planning/patch.py:85-111 | a node is invalidated iff a chain of dependencies, through nodes that are pending, ready, recovering or failed, leads from it to a requested one |
| `Legacy.PlanState.ApplyPatch` | src/choirworks/orchestration/planning/patch.py:54-114 | ends; adds the drafts that `Legacy.AddsExactly` describes and invalidates the nodes that `Legacy.InvalidatesExactly` describes; no transition is refused |
| `Legacy.PlanState.AddNodes` | src/choirworks/orchestration/planning/patch.py:62-83 | adds the drafts that `Legacy.AddsExactly` describes and returns their ids |
| `Legacy.PlanState.Cascade` | src/choirworks/orchestration/planning/patch.py:99-111 | the passes reach a fixpoint within the closure |
| `Interventions.Desk.RequestUserInput` | src/choirworks/orchestration/state.py:467-492 | creates a question iff the node has none pending |
| `Interventions.Desk.ExpireNodeInterventions` | src/choirworks/orchestration/state.py:503-516 | expires exactly the stale unanswered entries of one node and reports them |
| `Interventions.Desk.NormalizeInterventions` | src/choirworks/orchestration/state.py:519-531 | expires exactly the stale unanswered entries and reports them |
| `Interventions.Desk.AcceptAnswer` | src/choirworks/orchestration/hitl/intervention.py:147-203 | rejects unknown, closed or ill-typed answers, expires stale entries, resolves the others and remembers what is left to do |
| `Interventions.Desk.CompleteAnswer` | src/choirworks/orchestration/hitl/intervention.py:174-206 | after the wait, moves or cancels the node as it is by then, or fails when that transition is not allowed any more |
| `Interventions.Desk.CancelNode` | src/choirworks/orchestration/hitl/intervention.py:239-257 | after the remote cancellation, cancels the node if its status still allows it, invalidates what is then blocked and expires their stale questions |
| `Interventions.NormalizeIsIdempotent` | src/choirworks/orchestration/state.py:519-531 | afterwards no pending entry is stale, other entries are untouched, and a second call changes nothing |
| `Interventions.AcceptKeepsDiscipline` | src/choirworks/orchestration/hitl/intervention.py:147-203 | accepting keeps one question per node and questions on waiting nodes, resolves exactly the pending, well-typed and still wanted answers, and leaves nothing pending about the node it goes on to move |
| `Interventions.ResumeKeepsDiscipline` | src/choirworks/orchestration/hitl/intervention.py:174-257 | the rest keeps both, whatever became of the node during the wait |
| `Interventions.RefusedExactly` | src/choirworks/orchestration/hitl/intervention.py:174-240 | an accepted answer is refused iff its node is by then gone, ended or, for a question, already running; it never is when nothing happened meanwhile |
| `Interventions.RequestsExactly` | src/choirworks/orchestration/state.py:467-492 | a question is entered as asked iff no question about its node is pending |
| `Interventions.ExpiresExactly` | src/choirworks/orchestration/state.py:503-516 | of the entries about the given nodes exactly those expire that are unanswered and whose node is gone, no longer waits for the user (a question) or is no longer in flight (a confirmation) |
| `Interventions.NormalizesExactly` | src/choirworks/orchestration/state.py:519-531 | the same for all entries |
| `Interventions.AcceptsExactly` | src/choirworks/orchestration/hitl/intervention.py:147-203 | an answer to an outdated entry expires it; otherwise it resolves it and readies the node for a question, cancels it for a confirmation, and does nothing more for a refusal |
| `Interventions.CancelsExactly` | src/choirworks/orchestration/hitl/intervention.py:239-257 | cancelling a node changes it and the pending nodes that have it or another ended node among their dependencies, which become invalidated, and no other |
| `Interventions.ValidRepliesExactly` | src/choirworks/orchestration/hitl/intervention.py:147-203 | which replies are accepted: an offered choice, one or more of them where several may be chosen, a truth value, or a text that is not white space |
| `Interventions.ResumesExactly` | src/choirworks/orchestration/hitl/intervention.py:174-257 | unless it is refused, resuming readies the node, or cancels it with the pending nodes that depend on ended ones and expires what that outdates |
| `LegacyRuns.StepKeepsGraph` | src/choirworks/orchestration/planning/derived.py:52-71 | every step keeps existing dependencies, acyclicity and the freshness of derived ids |
| `LegacyRuns.StepKeepsPlan` | src/choirworks/orchestration/transitions.py:21-109 | from the plan invariant a step keeps it iff it is not a stale settlement asking about a node with open dependencies |
| `LegacyRuns.SpawnKeepsNoFutureIds` | src/choirworks/orchestration/planning/derived.py:60-71 | the derived id is new, and later derived ids stay free |
| `LegacyRuns.AddDraftsKeepsGraph` | src/choirworks/orchestration/planning/patch.py:62-83 | drafts keep the graph invariant |
| `LegacyRuns.CreatesExactly` | src/choirworks/orchestration/state.py:553-563 | a new turn has exactly the plan's nodes, pending, with their agents, dependencies and texts, and no intervention |
| `LegacyRuns.CancelsTheSession` | src/choirworks/a2a/executor.py:121-126 | cancelling a session cancels the nodes that are ready or in flight and changes nothing else |
| `LegacyRuns.RestartsExactly` | src/choirworks/a2a/recovery.py:102-135 | recovery makes a node in flight recover if its remote task is known and start over otherwise, and leaves the others alone |
| `LegacyTheorems.RunsKeepPlan` | src/choirworks/orchestration/state.py:359-369 | in every state of every run without such a step, dependencies exist and are acyclic and begun nodes have completed dependencies |
| `LegacyTheorems.StepKeepsQuestions` | src/choirworks/orchestration/execution/node_executor.py:109-111 | a step keeps pending questions on waiting nodes iff no crash or late report of a second task hits a node with a pending question |
| `LegacyTheorems.RunsKeepDiscipline` | src/choirworks/orchestration/flows/settlement.py:104-140 | in every reachable state a node has at most one pending intervention; undisturbed questions keep their node waiting |
| `LegacyTheorems.ClosedStaysClosed` | src/choirworks/orchestration/state.py:467-531 | within a turn an answered or expired intervention never changes |
| `LegacyTheorems.StepsMoveAsAllowed` | src/choirworks/orchestration/transitions.py:21-109 | within a turn no step makes a transition that the table forbids, removes a node, or changes anything of it but its status and, when it is dispatched, its attempts |
| `LegacyTheorems.EndedStaysEnded` | src/choirworks/orchestration/transitions.py:21-109 | in any run a completed, cancelled or invalidated node is not touched again within its turn |
| `LegacyTheorems.TwoTasksDisturbAQuestion` | src/choirworks/orchestration/execution/runner.py:60-95 | a run without exceptions, in which another node's end brings the loop round, that leaves a pending question on a submitted node |
| `LegacyTheorems.ConfirmationCanBeRefused` | src/choirworks/orchestration/hitl/intervention.py:174-188 | from every state in which a cancellation of a node with a live task can be confirmed, the node can complete during the wait and the cancellation is then refused |
| `LegacyTheorems.StaleSettlementMisfires` | src/choirworks/orchestration/flows/settlement.py:130-140 | a run in which a settlement of the previous plan moves a node whose dependency has not run |
| `Scheduler.BlockedByFailure` | src/choirworks/orchestration/flows/plan.py:29-118 | when nothing runs, is ready or can be retried, every node that never ran depends, perhaps through others, on a failed one |
| `Scheduler.QuietVerdict` | src/choirworks/orchestration/flows/plan.py:29-118 | the verdict is then done iff all completed, stalled iff there is no plan, and failed otherwise |
| `Scheduler.DispatchesTheFirst` | src/choirworks/orchestration/execution/runner.py:60-86 | a pass dispatches as many of the startable nodes as there are free slots, the first ones in plan order; they become submitted with one more attempt, and nothing else changes |
| `Scheduler.RetriesExactly` | src/choirworks/orchestration/execution/runner.py:53-56 | the retry pass makes exactly the failed nodes with attempts left pending |
| `Scheduler.NoSlotsNeverEnds` | src/choirworks/orchestration/execution/runner.py:53-95 | without parallel slots, after any number of turns a fresh plan is unchanged, nothing has been dispatched and the verdict is to go round again |
| `Scheduler.Runner.RetryFailed` | src/choirworks/orchestration/execution/runner.py:53-56 | failed nodes with attempts left are pending again |
| `Scheduler.Runner.DispatchReady` | src/choirworks/orchestration/execution/runner.py:60-86 | dispatches what `Scheduler.DispatchesTheFirst` says, so there are never more than max_parallel tasks |
| `Scheduler.Runner.Await` | src/choirworks/orchestration/execution/runner.py:90-139 | some task ends and is collected, which uses up the loop's measure |
| `Scheduler.Runner.RunPlan` | src/choirworks/orchestration/execution/runner.py:38-150 | for every completion order the loop ends with nothing running, on the same plan graph, never having started a node before its dependencies completed; done iff all completed, stalled only without a plan, failed otherwise, with every attempt of a failed node spent and every other unfinished node behind one |
| `ReplayBarrier.ScanSequence` | src/new_choirworks/core/workflow/utils/replay_manager.py:66-104 | lists every child that ends, once each, ordered by first end |
| `ReplayBarrier.RecordedIsUnique` | src/new_choirworks/core/workflow/utils/replay_manager.py:66-104 | that description determines the sequence |
| `ReplayBarrier.Barrier.CheckAndAdvance` | src/new_choirworks/core/workflow/utils/replay_sequence_barrier.py:47-57 | advances only for the expected key; the unblocked keys stay exactly the first current_index + 1 entries |
| `ReplayBarrier.Barrier.MayPass` | src/new_choirworks/core/workflow/utils/replay_sequence_barrier.py:31-45 | a wait returns for keys outside the record and for unblocked ones |
| `ReplayBarrier.ReplayFollowsTheRecord` | src/new_choirworks/core/workflow/node_runner.py:61-83 | for every interleaving, with timeouts, recorded runs advance in recorded order and no advance is lost |
| `ReplayBarrier.OneAtATime` | src/new_choirworks/core/workflow/node_runner.py:61-83 | at most one recorded run is between its wait and its advance |
| `ReplayBarrier.TheNextMayPass` | src/new_choirworks/core/workflow/utils/replay_sequence_barrier.py:31-57 | until the record is used up exactly one run that has not advanced may pass |
| `Chunking.EmitArtifact` | src/choirworks/sim/fake_agent.py:62-82 | the loop sends the slices with index-dependent flags |
| `Chunking.EmitIsStream` | src/choirworks/sim/fake_agent.py:62-82 | for every text and chunk size the pieces join to the text, the first starts, the others append, the last closes |
| `Chunking.EmitSizes` | src/choirworks/sim/fake_agent.py:62-82 | every piece but the last has exactly the chunk size, and the last no more |
| `Chunking.RemoteAgent.Aggregate` | src/new_choirworks/core/a2a/agent/remote_a2a_agent.py:367-405 | buffers, extends, passes on and on an appended last chunk adds the synthetic event |
| `Chunking.AggregationRestoresText` | src/new_choirworks/core/a2a/agent/remote_a2a_agent.py:367-405 | under any interleaving exactly one final event comes out, with the whole text, and the buffer is gone |
| `Chunking.AggregationPassesOn` | src/new_choirworks/core/a2a/agent/remote_a2a_agent.py:367-405 | whatever arrives, every chunk is passed on as it is and in order, and the only other events are final ones, each behind an appended last chunk of its artifact |
| `Chunking.ConsumeArtifacts` | src/choirworks/orchestration/execution/remote_caller.py:195-214 | the loop extends, replaces or adds one entry per chunk |
| `Chunking.ConsumptionRestoresText` | src/choirworks/orchestration/execution/remote_caller.py:195-214 | under any interleaving the artifact has one entry, with the whole text |
| `Chunking.EntriesInArrivalOrder` | src/choirworks/orchestration/execution/remote_caller.py:195-214 | the artifacts stand in the order in which they first arrived |
| `ConversationView.ApplyStateDelta` | frontend/src/lib/conversationView.ts:310-361 | the loops apply the status changes and turn the bubbles of ended nodes into messages |
| `ConversationView.StreamedShows` | frontend/src/lib/conversationView.ts:1035-1084 | a streamed chunk leaves the text so far in the bubble or, once the node ended, in the message; the last chunk seals it |
| `ConversationView.DeltaKeepsProgress` | frontend/src/lib/conversationView.ts:348-361 | a status delta at any point of the stream loses and duplicates nothing |
| `ConversationView.ViewRestoresText` | frontend/src/lib/conversationView.ts:965-1084 | under any interleaving with other artifacts and status deltas the view ends with exactly one message of that id and the whole text; an empty text shows nothing |
| `ConversationView.DeltaMovesBubbles` | frontend/src/lib/conversationView.ts:357-372 | after a delta the bubbles of ended nodes are messages with their text, and those of other nodes are still bubbles |
| `ConversationView.LastStatusWins` | frontend/src/lib/conversationView.ts:322-355 | a node has the last status that the delta gives it |
| `ConversationView.StatusStays` | frontend/src/lib/conversationView.ts:322-355 | a node without one keeps its status, or is pending if it is new |
| `ConversationView.StreamingMarksWorking` | frontend/src/lib/conversationView.ts:1063-1071 | a streamed chunk marks its node as working unless that has ended, and no other node |
| `ConversationView.PiecesShowUnderTheirNode` | frontend/src/lib/conversationView.ts:1035-1084 | the text of a chunk is shown under its own node |
| `Fencing.ReplaceFirst` | src/choirworks/core/fencing.py:26-29 | replacement is leftmost and non-overlapping |
| `Fencing.ReplaceKeepsOut` | src/choirworks/core/fencing.py:26-29 | no insertion creates an occurrence of a marker |
| `Fencing.ElidedHasNoMarker` | src/choirworks/core/fencing.py:26-29 | neither marker occurs in the elided text |
| `Fencing.ElideIsExact` | src/choirworks/core/fencing.py:26-29 | text is unchanged iff it has no marker, and eliding twice is eliding once |
| `Fencing.ElideReplacesTheNext` | src/choirworks/core/fencing.py:26-29 | eliding replaces the leftmost marker of either kind, keeps the text before it, and goes on behind it |
| `Fencing.QuotingIsUnambiguous` | src/choirworks/core/fencing.py:32-33 | the quote has exactly one begin marker, at its start, and exactly one end marker, at its end, around the elided text |

## Left out

- Join nodes inside the run-count theorem: a predecessor that runs twice makes the number of triggers depend on the schedule (`Join.RepeatedRunsDependOnTheSchedule`), so `Join` has its own one-run theorem.
- `LegacyRuns.StepKeepsGraph`: planner ids are assumed not to look like derived ids, and the budget of derived nodes, the parallel limit and the revision limit are not part of the run model, which therefore allows more runs than the code.
- `DagMachine.StepKeepsInv`: planner ids are assumed not to be assist ids of a later sequence number; freshness of generated ids is then proved.
- `DagRuntime.Dag.DispatchReady`: `{{output:id}}` references inside an instruction are sent unresolved; resolving them is a regular expression.
- `DagRuntime.Dag.HelperRound`: the mentions are an input; finding them in the node's output is a regular expression.
- `Legacy.PlanState.ApplyPatch`: the lists of rejected drafts and skipped requests in its result are not modelled.
- `Legacy.PlanState.AddNodes`: the reason given for a rejected draft is not modelled.
- `Interventions.Desk.AcceptAnswer`: white space is ASCII white space, and the answer's text and the history entry are not modelled.
- `Interventions.Desk.ExpireNodeInterventions`: the order of the reported list is not modelled.
- `Interventions.Desk.NormalizeInterventions`: the order of the reported list is not modelled.
- `Scheduler.Runner.RunPlan`: replanning on failure, inbound messages, derived nodes and questions are off; their steps are in `LegacyRuns`.
- `History.LiveEqualsRebuilt`: no task is excluded from the rebuild, no rewind hides a compaction, and the first rebuild of a session does not race with recordings.
- `Chunking.ConsumeArtifacts`: artifact names and the events forwarded to the client are not modelled.
- `Chunking.ConsumptionRestoresText`: task snapshots and bare messages in the same stream are not interleaved, and the final join and strip into the node's output is not modelled.
- `ConversationView.ApplyStateDelta`: members, interventions and notifications of a delta are not part of the view.
- `ConversationView.ViewRestoresText`: artifact ids are new to the view at the first chunk; task snapshots, function calls, notifications, members and questions are not part of the view.
- Placeholder resolution in instructions, mention parsing and receipt markers: regular expressions.
- The chain guards of the subagent tool: they only refuse a helper node, and `LegacyRuns` covers every helper node that is spawned.
- Timeouts, backoff, cancellation of remote tasks and cleanup on errors: wall-clock behaviour and input or output.
- Remote protocol, HTTP, storage, agent registry, LLM clients, prompts and user interface components.
- State snapshots as JSON: a field-by-field copy.
