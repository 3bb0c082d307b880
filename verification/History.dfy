/** Conversation history: the live message list, the artifacts it is mirrored to, folding old messages
    into a summary, and rebuilding the list from the artifacts after a restart. */
module History {
  import opened Common

  datatype Message =
    | User(content: string)
    | Assistant(content: string)
    | ToolCall(id: string, name: string, arguments: string)
    | ToolResult(callId: string, result: string)

  datatype Role = UserRole | AssistantRole

  /** A function-call artifact; the dumps are the structured payloads rebuild falls back to. */
  datatype Exchange = Exchange(name: string, callId: string, argsJson: string, resultJson: string,
                               argsDump: string, resultDump: string)

  datatype Artifact =
    | Text(role: Role, text: string)          // decision or history
    | FunctionCall(exchange: Exchange)
    | Compaction(count: nat, summary: string)
    | Unrelated                               // anything that is not LLM history

  datatype CompactionState = CompactionState(count: nat, summary: string)

  /** A compaction that waits for the model: the list had length messages and was split, recent is the
      copied second part, count is how many raw messages the summary will cover, and prompt is what the model
      was asked. */
  datatype Cut = Cut(length: nat, split: nat, recent: seq<Message>, count: nat, prompt: string)

  /** The live list, the in-memory compaction state, everything emitted so far and the compaction under way. */
  datatype Session = Session(messages: seq<Message>, state: Option<CompactionState>, artifacts: seq<Artifact>,
                             cut: Option<Cut>)

  const EMPTY := Session([], None, [], None)

  // ---- rebuilding ----

  function TextMessage(role: Role, text: string): Message {
    if role == UserRole then User(text) else Assistant(text)
  }

  function Pair(e: Exchange): seq<Message> {
    [ToolCall(e.callId, e.name, e.argsJson), ToolResult(e.callId, e.resultJson)]
  }

  /** The message pair read back from a function-call artifact; freshId replaces a missing call id. */
  function ReadExchange(e: Exchange, freshId: string): seq<Message> {
    if e.name == "" then []
    else
      var id := if e.callId == "" then freshId else e.callId;
      [ToolCall(id, e.name, if e.argsJson == "" then e.argsDump else e.argsJson),
       ToolResult(id, if e.resultJson == "" then e.resultDump else e.resultJson)]
  }

  /** A function-call artifact; "fresh" stands for a generated id, which RecordedExchangeReplays shows unused. */
  function ReadArtifact(a: Artifact): seq<Message> {
    match a
    case Text(role, text) => [TextMessage(role, text)]
    case FunctionCall(e) => ReadExchange(e, "fresh")
    case Compaction(_, _) => []
    case Unrelated => []
  }

  function Raw(artifacts: seq<Artifact>): seq<Message> {
    if artifacts == [] then [] else Raw(artifacts[..|artifacts| - 1]) + ReadArtifact(artifacts[|artifacts| - 1])
  }

  function LatestCompaction(artifacts: seq<Artifact>): Option<CompactionState> {
    if artifacts == [] then None
    else
      var last := artifacts[|artifacts| - 1];
      if last.Compaction? then Some(CompactionState(last.count, last.summary))
      else LatestCompaction(artifacts[..|artifacts| - 1])
  }

  function DropFirst(s: seq<Message>, n: nat): seq<Message> {
    if n <= |s| then s[n..] else []
  }

  function Rebuilt(artifacts: seq<Artifact>): seq<Message> {
    match LatestCompaction(artifacts)
    case Some(c) => [Assistant(c.summary)] + DropFirst(Raw(artifacts), c.count)
    case None => Raw(artifacts)
  }

  // ---- recording ----

  function RecordMessage(s: Session, role: Role, text: string): Session {
    s.(messages := s.messages + [TextMessage(role, text)], artifacts := s.artifacts + [Text(role, text)])
  }

  /** Every tool declares a name, a generated id is never empty, and a JSON dump has at least its braces. */
  type NonEmpty = t: string | t != "" witness "x"

  /** What emit_function_call and emit_function_error are given; error is the message as a JSON string. */
  datatype ToolUse =
    | Succeeded(tool: NonEmpty, callId: string, args: NonEmpty, result: NonEmpty, argsDump: string, resultDump: string)
    | Errored(tool: NonEmpty, callId: string, argsJson: string, error: NonEmpty, argsDump: string, resultDump: string)

  function OrElse(text: string, default: NonEmpty): NonEmpty {
    if text == "" then default else text
  }

  /** The recorded exchange: a missing call id is generated and missing arguments become an empty object. */
  function ExchangeOf(use: ToolUse, freshId: NonEmpty): Exchange {
    match use
    case Succeeded(tool, callId, args, result, argsDump, resultDump) =>
      Exchange(tool, OrElse(callId, freshId), args, result, argsDump, resultDump)
    case Errored(tool, callId, argsJson, error, argsDump, resultDump) =>
      Exchange(tool, OrElse(callId, freshId), OrElse(argsJson, "{}"),
               "{\"success\":false,\"error\":" + error + "}", argsDump, resultDump)
  }

  function RecordExchange(s: Session, e: Exchange): Session {
    s.(messages := s.messages + Pair(e), artifacts := s.artifacts + [FunctionCall(e)])
  }

  function Emit(s: Session, a: Artifact): Session {
    s.(artifacts := s.artifacts + [a])
  }

  // ---- compaction ----

  /** Step back from a tool result to the call it answers. */
  function StepBack(messages: seq<Message>, split: nat): nat {
    if 0 < split < |messages| && messages[split].ToolResult? then StepBack(messages, split - 1) else split
  }

  function SplitPoint(messages: seq<Message>, retention: int): nat {
    StepBack(messages, if |messages| - retention > 0 then |messages| - retention else 0)
  }

  function TakeFirst(s: seq<Message>, n: nat): seq<Message> {
    if n <= |s| then s[..n] else s
  }

  /** The line that shows a message to the model, if it has any text. */
  function LineOf(m: Message): seq<string> {
    match m
    case User(c) => if c != "" then ["[user] " + c] else []
    case Assistant(c) => if c != "" then ["[assistant] " + c] else []
    case ToolCall(_, name, arguments) =>
      if name != "" || arguments != "" then ["[tool_call] " + name + " " + arguments] else []
    case ToolResult(_, r) => if r != "" then ["[tool] " + r] else []
  }

  function Lines(messages: seq<Message>): seq<string> {
    if messages == [] then [] else Lines(messages[..|messages| - 1]) + LineOf(messages[|messages| - 1])
  }

  function Join(lines: seq<string>): string {
    if lines == [] then ""
    else if |lines| == 1 then lines[0]
    else Join(lines[..|lines| - 1]) + "\n" + lines[|lines| - 1]
  }

  /** _messages_text. */
  function MessagesText(messages: seq<Message>): string {
    Join(Lines(messages))
  }

  /** What the model is asked to summarise: the old summary, if there is one, with what came after it. */
  function Prompt(state: Option<CompactionState>, older: seq<Message>): string {
    match state
    case Some(c) =>
      "Previous summary:\n" + c.summary + "\n\nNew messages:\n" + MessagesText(DropFirst(older, 1))
    case None => MessagesText(older)
  }

  /** How many raw messages are covered once the first split live messages are folded. */
  function Covered(state: Option<CompactionState>, split: nat): int {
    if state.Some? then state.value.count + split - 1 else split
  }

  /** The first half of a compaction, up to the call of the model: the slices are taken from the list as it
      is now.  The model is not asked when there is nothing new to summarise.  The session lock keeps a second
      compaction out while one is under way. */
  function Begin(s: Session, retention: int, overThreshold: bool): Session {
    var split := SplitPoint(s.messages, retention);
    if s.cut.Some? || !overThreshold || split == 0 then s
    else
      var older, recent := TakeFirst(s.messages, split), DropFirst(s.messages, split);
      match s.state
      case Some(state) =>
        var newMsgs := DropFirst(older, 1);
        var s1 := s.(cut := Some(Cut(|s.messages|, split, recent, state.count + |newMsgs|, Prompt(s.state, older))));
        if MessagesText(newMsgs) != "" then s1 else Install(s1, state.summary)
      case None => s.(cut := Some(Cut(|s.messages|, split, recent, split, Prompt(None, older))))
  }

  /** The second half: the summary and the copied messages replace the list, whatever it has become. */
  function Install(s: Session, summary: string): Session {
    match s.cut
    case Some(c) =>
      Session([Assistant(summary)] + c.recent, Some(CompactionState(c.count, summary)),
              s.artifacts + [Compaction(c.count, summary)], None)
    case None => s
  }

  /** The model failed or the turn was cancelled: nothing is replaced. */
  function Abandon(s: Session): Session {
    s.(cut := None)
  }

  // ---- the class ----

  class Conversation {
    const retention: int
    var messages: seq<Message>
    var compactionState: Option<CompactionState>
    var artifacts: seq<Artifact>
    /** The local variables of a compaction that waits for the model. */
    var cut: Option<Cut>

    function State(): Session
      reads this
    {
      Session(messages, compactionState, artifacts, cut)
    }

    constructor (retention: int)
      ensures State() == EMPTY && this.retention == retention
    {
      this.retention := retention;
      messages, compactionState, artifacts, cut := [], None, [], None;
    }

    method Record(role: Role, text: string)
      modifies this
      ensures State() == RecordMessage(old(State()), role, text)
      ensures messages == old(messages) + [if role == UserRole then User(text) else Assistant(text)]
      ensures artifacts == old(artifacts) + [Text(role, text)]
    {
      messages := messages + [TextMessage(role, text)];
      artifacts := artifacts + [Text(role, text)];
    }

    method RecordToolExchange(e: Exchange)
      modifies this
      ensures State() == RecordExchange(old(State()), e)
    {
      messages := messages + [ToolCall(e.callId, e.name, e.argsJson)];
      messages := messages + [ToolResult(e.callId, e.resultJson)];
      artifacts := artifacts + [FunctionCall(e)];
      assert messages == old(messages) + Pair(e);
    }

    /** emit_function_call and emit_function_error. */
    method EmitFunction(use: ToolUse, freshId: NonEmpty)
      modifies this
      ensures State() == RecordExchange(old(State()), ExchangeOf(use, freshId))
      ensures var id := if use.callId != "" then use.callId else freshId;
              messages == old(messages)
                + match use
                  case Succeeded(tool, _, args, result, _, _) => [ToolCall(id, tool, args), ToolResult(id, result)]
                  case Errored(tool, _, argsJson, error, _, _) =>
                    [ToolCall(id, tool, if argsJson != "" then argsJson else "{}"),
                     ToolResult(id, "{\"success\":false,\"error\":" + error + "}")]
    {
      var callId := if use.callId != "" then use.callId else freshId;
      match use {
        case Succeeded(tool, _, args, result, argsDump, resultDump) =>
          RecordToolExchange(Exchange(tool, callId, args, result, argsDump, resultDump));
        case Errored(tool, _, argsJson, error, argsDump, resultDump) =>
          RecordToolExchange(Exchange(tool, callId, if argsJson != "" then argsJson else "{}",
                                      "{\"success\":false,\"error\":" + error + "}", argsDump, resultDump));
      }
    }

    /** compact up to the await of the model. */
    method BeginCompaction(overThreshold: bool)
      modifies this
      ensures State() == Begin(old(State()), retention, overThreshold)
    {
      if cut.Some? || !overThreshold {
        return;
      }
      var split: nat := if |messages| - retention > 0 then |messages| - retention else 0;
      while split > 0 && split < |messages| && messages[split].ToolResult?
        invariant StepBack(messages, split) == SplitPoint(messages, retention)
        decreases split
      {
        split := split - 1;
      }
      if split == 0 {
        return;
      }
      var older, recent := TakeFirst(messages, split), DropFirst(messages, split);
      if compactionState.Some? {
        var newMsgs := DropFirst(older, 1);
        var newText := MessagesText(newMsgs);
        cut := Some(Cut(|messages|, split, recent, compactionState.value.count + |newMsgs|,
                        "Previous summary:\n" + compactionState.value.summary + "\n\nNew messages:\n" + newText));
        if newText == "" {
          FinishCompaction(compactionState.value.summary);
        }
      } else {
        cut := Some(Cut(|messages|, split, recent, split, MessagesText(older)));
      }
    }

    /** compact after the await, and plan_and_launch replacing the list and emitting the artifact. */
    method FinishCompaction(summary: string)
      modifies this
      ensures State() == Install(old(State()), summary)
      ensures old(cut).Some? ==>
                && messages == [Assistant(summary)] + old(cut).value.recent && cut == None
                && artifacts == old(artifacts) + [Compaction(old(cut).value.count, summary)]
    {
      if cut.Some? {
        compactionState := Some(CompactionState(cut.value.count, summary));
        messages := [Assistant(summary)] + cut.value.recent;
        artifacts := artifacts + [Compaction(cut.value.count, summary)];
        cut := None;
      }
    }

    /** Rebuild over the artifacts of all tasks, oldest first; recovers the compaction state as well. */
    method Rebuild(tasks: seq<seq<Artifact>>) returns (rebuilt: seq<Message>)
      modifies this`compactionState
      ensures rebuilt == Rebuilt(Flatten(tasks))
      ensures compactionState == if LatestCompaction(Flatten(tasks)).Some? then LatestCompaction(Flatten(tasks))
                                 else old(compactionState)
    {
      var raw: seq<Message> := [];
      var latest: Option<CompactionState> := None;
      for t := 0 to |tasks|
        invariant compactionState == old(compactionState)
        invariant raw == Raw(Flatten(tasks[..t])) && latest == LatestCompaction(Flatten(tasks[..t]))
      {
        assert tasks[..t + 1][..t] == tasks[..t];
        raw, latest := ReadTask(tasks[t], raw, latest, Flatten(tasks[..t]));
      }
      assert tasks[..|tasks|] == tasks;
      rebuilt := raw;
      if latest.Some? {
        compactionState := latest;
        rebuilt := [Assistant(latest.value.summary)] + DropFirst(raw, latest.value.count);
      }
    }
  }

  method ReadTask(task: seq<Artifact>, raw0: seq<Message>, latest0: Option<CompactionState>,
                  ghost before: seq<Artifact>)
    returns (raw: seq<Message>, latest: Option<CompactionState>)
    requires raw0 == Raw(before) && latest0 == LatestCompaction(before)
    ensures raw == Raw(before + task) && latest == LatestCompaction(before + task)
  {
    raw, latest := raw0, latest0;
    assert before + task[..0] == before;
    for i := 0 to |task|
      invariant raw == Raw(before + task[..i]) && latest == LatestCompaction(before + task[..i])
    {
      TakeOneMore(task, i);
      Associates(before, task[..i], [task[i]]);
      AppendArtifact(before + task[..i], task[i]);
      var more: seq<Message> := [];
      match task[i] {
        case Compaction(count, summary) => latest := Some(CompactionState(count, summary));
        case Text(role, text) => more := [TextMessage(role, text)];
        case FunctionCall(e) => more := ReadExchange(e, "fresh");
        case Unrelated =>
      }
      assert more == ReadArtifact(task[i]);
      raw := raw + more;
    }
    assert task[..|task|] == task;
  }

  function Flatten(tasks: seq<seq<Artifact>>): seq<Artifact> {
    if tasks == [] then [] else Flatten(tasks[..|tasks| - 1]) + tasks[|tasks| - 1]
  }

  // ---- live list and rebuilt list ----

  /** Every exchange that is recorded replays as it was recorded, whatever id is generated on the way back. */
  lemma RecordedExchangeReplays(use: ToolUse, freshId: NonEmpty, otherId: string)
    ensures ReadExchange(ExchangeOf(use, freshId), otherId) == Pair(ExchangeOf(use, freshId))
    ensures Pair(ExchangeOf(use, freshId))[0].id != "" && Pair(ExchangeOf(use, freshId))[0].arguments != ""
  {
    var e := ExchangeOf(use, freshId);
    assert e.resultJson != "" by {
      assert use.Errored? ==> e.resultJson[0] == '{';
    }
  }

  /** Tool results directly follow their calls. */
  ghost predicate Paired(ms: seq<Message>) {
    forall i :: 0 <= i < |ms| && ms[i].ToolResult? ==> i > 0 && ms[i - 1].ToolCall? && ms[i - 1].id == ms[i].callId
  }

  /** The live list is the summary and the raw messages it does not cover. */
  ghost predicate Live(s: Session) {
    && s.messages == Rebuilt(s.artifacts)
    && s.state == LatestCompaction(s.artifacts)
    && (s.state.Some? ==> s.state.value.count <= |Raw(s.artifacts)|)
    && Paired(s.messages)
  }

  lemma AppendArtifact(artifacts: seq<Artifact>, a: Artifact)
    ensures Raw(artifacts + [a]) == Raw(artifacts) + ReadArtifact(a)
    ensures LatestCompaction(artifacts + [a])
            == if a.Compaction? then Some(CompactionState(a.count, a.summary)) else LatestCompaction(artifacts)
  {
    assert (artifacts + [a])[..|artifacts|] == artifacts;
  }

  lemma RecordingKeepsLive(s: Session, role: Role, text: string)
    requires Live(s)
    ensures Live(RecordMessage(s, role, text))
  {
    AppendArtifact(s.artifacts, Text(role, text));
    if s.state.Some? {
      var raw, n := Raw(s.artifacts), s.state.value.count;
      DropAppend(raw, n, [TextMessage(role, text)]);
      Associates([Assistant(s.state.value.summary)], DropFirst(raw, n), [TextMessage(role, text)]);
    }
  }

  lemma DropAppend(raw: seq<Message>, n: nat, more: seq<Message>)
    requires n <= |raw|
    ensures DropFirst(raw + more, n) == DropFirst(raw, n) + more
  {
  }

  lemma PairedAppend(ms: seq<Message>, e: Exchange)
    requires Paired(ms)
    ensures Paired(ms + Pair(e))
  {
    var r := ms + Pair(e);
    forall i | 0 <= i < |r| && r[i].ToolResult? ensures i > 0 && r[i - 1].ToolCall? && r[i - 1].id == r[i].callId {
      assert i < |ms| ==> r[i] == ms[i] && (i > 0 ==> r[i - 1] == ms[i - 1]);
    }
  }

  lemma ExchangeKeepsLive(s: Session, e: Exchange)
    requires Live(s) && ReadArtifact(FunctionCall(e)) == Pair(e)
    ensures Live(RecordExchange(s, e))
  {
    AppendArtifact(s.artifacts, FunctionCall(e));
    PairedAppend(s.messages, e);
    if s.state.Some? {
      DropAppend(Raw(s.artifacts), s.state.value.count, Pair(e));
      Associates([Assistant(s.state.value.summary)], DropFirst(Raw(s.artifacts), s.state.value.count), Pair(e));
    }
  }

  lemma EmittingKeepsLive(s: Session)
    requires Live(s)
    ensures Live(Emit(s, Unrelated))
  {
    AppendArtifact(s.artifacts, Unrelated);
  }

  lemma {:induction false} StepBackBounds(ms: seq<Message>, split: nat)
    ensures StepBack(ms, split) <= split
    ensures var k := StepBack(ms, split); 0 < k < |ms| ==> !ms[k].ToolResult?
  {
    if 0 < split < |ms| && ms[split].ToolResult? {
      StepBackBounds(ms, split - 1);
    }
  }

  /** Cutting a paired list anywhere but before a tool result keeps it paired behind a summary. */
  lemma CutKeepsPairs(ms: seq<Message>, split: nat, summary: string)
    requires Paired(ms) && split <= |ms| && (split < |ms| ==> !ms[split].ToolResult?)
    ensures Paired([Assistant(summary)] + ms[split..])
  {
    var r := [Assistant(summary)] + ms[split..];
    forall i | 0 <= i < |r| && r[i].ToolResult? ensures i > 0 && r[i - 1].ToolCall? && r[i - 1].id == r[i].callId {
      assert r[i] == ms[split + i - 1] && i > 1;
      assert r[i - 1] == ms[split + i - 2];
    }
  }

  /** Folding split messages of a live list covers that many raw messages, the old summary not counted. */
  lemma FoldedCount(s: Session, split: nat)
    requires Live(s) && 0 < split <= |s.messages|
    ensures 0 <= Covered(s.state, split) <= |Raw(s.artifacts)|
            && s.messages[split..] == Raw(s.artifacts)[Covered(s.state, split)..]
  {
    if s.state.Some? {
      var n := s.state.value.count;
      assert s.messages == [Assistant(s.state.value.summary)] + Raw(s.artifacts)[n..];
    }
  }

  // ---- a compaction under way ----

  /** The slices were taken from what is still the front of the live list. */
  ghost predicate CutOk(s: Session) {
    s.cut.Some? ==>
      var c := s.cut.value;
      && 0 < c.split <= c.length <= |s.messages|
      && c.recent == s.messages[c.split..c.length]
      && c.count == Covered(s.state, c.split)
      && (c.split < c.length ==> !s.messages[c.split].ToolResult?)
  }

  /** How many messages were recorded since the slices were taken. */
  ghost function Missed(s: Session): nat
    requires CutOk(s) && s.cut.Some?
  {
    |s.messages| - s.cut.value.length
  }

  /** Replacing the list keeps it equal to the rebuilt one exactly when nothing was recorded meanwhile. */
  lemma InstallKeepsLive(s: Session, summary: string)
    requires Live(s) && CutOk(s) && s.cut.Some?
    ensures Live(Install(s, summary)) <==> Missed(s) == 0
    ensures Install(s, summary).messages == Rebuilt(Install(s, summary).artifacts) <==> Missed(s) == 0
  {
    var c, t := s.cut.value, Install(s, summary);
    AppendArtifact(s.artifacts, Compaction(c.count, summary));
    assert Raw(s.artifacts) + [] == Raw(s.artifacts);
    FoldedCount(s, c.split);
    InstallKeepsPairs(s, summary);
    assert |Rebuilt(t.artifacts)| == 1 + |s.messages[c.split..]|;
    if Missed(s) == 0 {
      assert c.recent == s.messages[c.split..];
    }
  }

  lemma InstallKeepsPairs(s: Session, summary: string)
    requires CutOk(s) && s.cut.Some? && Paired(s.messages)
    ensures Paired(Install(s, summary).messages)
  {
    var c := s.cut.value;
    var atCut := s.messages[..c.length];
    assert atCut[c.split..] == c.recent;
    CutKeepsPairs(atCut, c.split, summary);
  }

  lemma BeginKeepsLive(s: Session, retention: int, overThreshold: bool)
    requires Live(s) && CutOk(s) && retention >= 0
    ensures Live(Begin(s, retention, overThreshold)) && CutOk(Begin(s, retention, overThreshold))
    ensures Begin(s, retention, overThreshold).cut.Some? && s.cut.None? ==>
              Missed(Begin(s, retention, overThreshold)) == 0
  {
    BeginCuts(s, retention, overThreshold);
    var split := SplitPoint(s.messages, retention);
    if s.cut.None? && overThreshold && split != 0 && s.state.Some?
      && MessagesText(DropFirst(TakeFirst(s.messages, split), 1)) == "" {
      InstallKeepsLive(CutOff(s, split), s.state.value.summary);
    }
  }

  ghost function CutOff(s: Session, split: nat): Session
    requires 0 < split <= |s.messages| && Covered(s.state, split) >= 0
  {
    s.(cut := Some(Cut(|s.messages|, split, s.messages[split..], Covered(s.state, split),
                       Prompt(s.state, s.messages[..split]))))
  }

  /** What the first half of a compaction does, if anything. */
  lemma BeginCuts(s: Session, retention: int, overThreshold: bool)
    requires retention >= 0 && CutOk(s)
    ensures var split, t := SplitPoint(s.messages, retention), Begin(s, retention, overThreshold);
            if s.cut.Some? || !overThreshold || split == 0 then t == s
            else
              && split <= |s.messages| && CutOk(CutOff(s, split)) && Missed(CutOff(s, split)) == 0
              && (t == CutOff(s, split) || (s.state.Some? && t == Install(CutOff(s, split), s.state.value.summary)))
              && (t == CutOff(s, split) || MessagesText(DropFirst(TakeFirst(s.messages, split), 1)) == "")
  {
    var split := SplitPoint(s.messages, retention);
    StepBackBounds(s.messages, if |s.messages| - retention > 0 then |s.messages| - retention else 0);
    if s.cut.None? && split != 0 {
      assert TakeFirst(s.messages, split) == s.messages[..split];
      assert |DropFirst(s.messages[..split], 1)| == split - 1;
    }
  }

  // ---- what is folded, and what the model sees of it ----

  /** The list is cut as late as the retention allows without separating a tool result from its call. */
  lemma SplitsExactly(messages: seq<Message>, retention: int)
    ensures var goal := if |messages| > retention then |messages| - retention else 0;
            var split := SplitPoint(messages, retention);
            && split <= goal
            && (0 < split < |messages| ==> !messages[split].ToolResult?)
            && (forall j :: split < j <= goal && j < |messages| ==> messages[j].ToolResult?)
            && (goal >= |messages| ==> split == goal)
  {
    StepsBackExactly(messages, if |messages| - retention > 0 then |messages| - retention else 0);
  }

  lemma {:induction false} StepsBackExactly(messages: seq<Message>, goal: nat)
    ensures var split := StepBack(messages, goal);
            && split <= goal
            && (0 < split < |messages| ==> !messages[split].ToolResult?)
            && (goal >= |messages| ==> split == goal)
            && forall j :: split < j <= goal && j < |messages| ==> messages[j].ToolResult?
  {
    if 0 < goal < |messages| && messages[goal].ToolResult? {
      StepsBackExactly(messages, goal - 1);
    }
  }

  ghost predicate StandsAt(s: string, w: string, i: int) {
    0 <= i && i + |w| <= |s| && s[i..i + |w|] == w
  }

  ghost predicate Contains(s: string, w: string) {
    exists i :: StandsAt(s, w, i)
  }

  lemma ContainsMore(before: string, s: string, after: string, w: string)
    requires Contains(s, w)
    ensures Contains(before + s + after, w)
  {
    var i :| StandsAt(s, w, i);
    var j := |before| + i;
    assert (before + s + after)[j..j + |w|] == s[i..i + |w|];
    assert StandsAt(before + s + after, w, j);
  }

  lemma {:induction false} JoinContains(lines: seq<string>, k: nat)
    requires k < |lines|
    ensures Contains(Join(lines), lines[k])
  {
    var last := lines[|lines| - 1];
    if |lines| == 1 {
      assert StandsAt(last, last, 0);
    } else if k == |lines| - 1 {
      var front := Join(lines[..|lines| - 1]) + "\n";
      assert StandsAt(front + last, last, |front|);
    } else {
      JoinContains(lines[..|lines| - 1], k);
      ContainsMore("", Join(lines[..|lines| - 1]), "\n" + last, lines[k]);
      assert "" + Join(lines[..|lines| - 1]) + ("\n" + last) == Join(lines);
    }
  }

  lemma {:induction false} LineIsThere(messages: seq<Message>, i: nat)
    requires i < |messages|
    ensures forall line :: line in LineOf(messages[i]) ==> line in Lines(messages)
  {
    if i < |messages| - 1 {
      LineIsThere(messages[..|messages| - 1], i);
    }
  }

  /** The text of some messages is empty exactly when none of them has any. */
  lemma {:induction false} TextIsEmptyExactly(messages: seq<Message>)
    ensures MessagesText(messages) == "" <==> forall i :: 0 <= i < |messages| ==> LineOf(messages[i]) == []
    ensures MessagesText(messages) == "" <==> Lines(messages) == []
  {
    if messages != [] {
      var front, last := messages[..|messages| - 1], messages[|messages| - 1];
      TextIsEmptyExactly(front);
      LinesHaveText(messages);
      assert forall i :: 0 <= i < |front| ==> front[i] == messages[i];
      assert messages[|front|] == last;
    }
  }

  lemma {:induction false} LinesHaveText(messages: seq<Message>)
    ensures forall line :: line in Lines(messages) ==> line != ""
    ensures MessagesText(messages) == "" <==> Lines(messages) == []
  {
    if messages != [] {
      LinesHaveText(messages[..|messages| - 1]);
      var lines := Lines(messages);
      if lines != [] {
        assert lines[|lines| - 1] in lines;
      }
    }
  }

  /** What a message says, whoever says it. */
  function Texts(m: Message): set<string> {
    match m
    case User(c) => {c}
    case Assistant(c) => {c}
    case ToolCall(_, name, arguments) => {name, arguments}
    case ToolResult(_, r) => {r}
  }

  lemma EmptyIsContained(s: string)
    ensures Contains(s, "")
  {
    assert StandsAt(s, "", 0);
  }

  lemma ContainsWithin(s: string, before: string, w: string, after: string)
    requires Contains(s, before + w + after)
    ensures Contains(s, w)
  {
    var line := before + w + after;
    var i :| StandsAt(s, line, i);
    var j := i + |before|;
    forall k | 0 <= k < |w| ensures s[j + k] == w[k] {
      assert s[i..i + |line|][|before| + k] == line[|before| + k];
    }
    assert s[j..j + |w|] == w;
    assert StandsAt(s, w, j);
  }

  lemma TaggedTextShows(s: string, lines: seq<string>, tag: string, w: string)
    requires forall line :: line in lines ==> Contains(s, line)
    requires lines == if w != "" then [tag + w] else []
    ensures Contains(s, w)
  {
    if w == "" {
      EmptyIsContained(s);
    } else {
      assert tag + w in lines;
      assert tag + w == tag + w + "";
      ContainsWithin(s, tag, w, "");
    }
  }

  lemma CallShows(s: string, lines: seq<string>, name: string, arguments: string)
    requires forall line :: line in lines ==> Contains(s, line)
    requires lines == if name != "" || arguments != "" then ["[tool_call] " + name + " " + arguments] else []
    ensures Contains(s, name) && Contains(s, arguments)
  {
    if name == "" && arguments == "" {
      EmptyIsContained(s);
    } else {
      var line := "[tool_call] " + name + " " + arguments;
      assert line in lines;
      Associates("[tool_call] " + name, " ", arguments);
      ContainsWithin(s, "[tool_call] ", name, " " + arguments);
      assert line == "[tool_call] " + name + " " + arguments + "";
      ContainsWithin(s, "[tool_call] " + name + " ", arguments, "");
    }
  }

  lemma LineShowsTexts(m: Message, s: string)
    requires forall line :: line in LineOf(m) ==> Contains(s, line)
    ensures forall w :: w in Texts(m) ==> Contains(s, w)
    ensures LineOf(m) == [] <==> Texts(m) == {""}
  {
    match m
    case User(c) => TaggedTextShows(s, LineOf(m), "[user] ", c);
    case Assistant(c) => TaggedTextShows(s, LineOf(m), "[assistant] ", c);
    case ToolCall(_, name, arguments) => CallShows(s, LineOf(m), name, arguments);
    case ToolResult(_, r) => TaggedTextShows(s, LineOf(m), "[tool] ", r);
  }

  /** Nothing is folded unread: when a compaction begins, the text of every message that it folds is in the prompt,
      with the old summary; when it does without the model, none of them has any text. */
  lemma NothingIsFoldedUnread(s: Session, retention: int, i: nat)
    requires retention >= 0 && CutOk(s) && s.cut.None?
    requires (if s.state.Some? then 1 else 0) <= i < SplitPoint(s.messages, retention) && i < |s.messages|
    ensures var t := Begin(s, retention, true);
            && (t.cut.Some? ==>
                  && (forall w :: w in Texts(s.messages[i]) ==> Contains(t.cut.value.prompt, w))
                  && (s.state.Some? ==> Contains(t.cut.value.prompt, s.state.value.summary)))
            && (t.cut.None? ==> s.state.Some? && Texts(s.messages[i]) == {""})
  {
    BeginCuts(s, retention, true);
    var split := SplitPoint(s.messages, retention);
    var older := s.messages[..split];
    assert TakeFirst(s.messages, split) == older;
    match s.state
    case None =>
      FoldedIsInText(older, i);
      LineShowsTexts(s.messages[i], MessagesText(older));
    case Some(c) =>
      var newMsgs := DropFirst(older, 1);
      assert newMsgs[i - 1] == s.messages[i];
      TextIsEmptyExactly(newMsgs);
      FoldedIsInPrompt(c, older, i);
      LineShowsTexts(s.messages[i], Prompt(s.state, older));
  }

  lemma FoldedIsInText(messages: seq<Message>, i: nat)
    requires i < |messages|
    ensures forall line :: line in LineOf(messages[i]) ==> Contains(MessagesText(messages), line)
  {
    LineIsThere(messages, i);
    forall line | line in LineOf(messages[i]) ensures Contains(MessagesText(messages), line) {
      var k :| 0 <= k < |Lines(messages)| && Lines(messages)[k] == line;
      JoinContains(Lines(messages), k);
    }
  }

  lemma ContainsEnd(before: string, s: string, w: string)
    requires Contains(s, w)
    ensures Contains(before + s, w)
  {
    ContainsMore(before, s, "", w);
    assert before + s + "" == before + s;
  }

  lemma ContainsMiddle(before: string, w: string, after: string)
    ensures Contains(before + w + after, w)
  {
    assert StandsAt(w, w, 0);
    ContainsMore(before, w, after, w);
  }

  lemma FoldedIsInPrompt(c: CompactionState, older: seq<Message>, i: nat)
    requires 1 <= i < |older|
    ensures forall line :: line in LineOf(older[i]) ==> Contains(Prompt(Some(c), older), line)
    ensures Contains(Prompt(Some(c), older), c.summary)
  {
    var newMsgs := DropFirst(older, 1);
    var text := MessagesText(newMsgs);
    FoldedIsInText(newMsgs, i - 1);
    forall line | line in LineOf(older[i]) ensures Contains(Prompt(Some(c), older), line) {
      ContainsEnd("Previous summary:\n" + c.summary + "\n\nNew messages:\n", text, line);
    }
    ContainsMiddle("Previous summary:\n", c.summary, "\n\nNew messages:\n" + text);
    Associates("Previous summary:\n" + c.summary, "\n\nNew messages:\n", text);
  }

  // ---- whole runs ----

  datatype Event =
    | Said(role: Role, text: string)
    | Called(use: ToolUse, freshId: NonEmpty)
    | Shown                                  // an artifact that is not history
    | Began(overThreshold: bool)             // a compaction takes its slices
    | Summarised(summary: string)            // its model call returns
    | GaveUp                                 // its model call fails

  function Apply(s: Session, e: Event, retention: int): Session {
    match e
    case Said(role, text) => RecordMessage(s, role, text)
    case Called(use, freshId) => RecordExchange(s, ExchangeOf(use, freshId))
    case Shown => Emit(s, Unrelated)
    case Began(over) => Begin(s, retention, over)
    case Summarised(summary) => Install(s, summary)
    case GaveUp => Abandon(s)
  }

  function Run(events: seq<Event>, retention: int): Session {
    if events == [] then EMPTY else Apply(Run(events[..|events| - 1], retention), events[|events| - 1], retention)
  }

  /** How many messages were recorded between the two halves of a compaction that was carried through. */
  function Lost(events: seq<Event>, retention: int): int {
    if events == [] then 0
    else
      var front, last := events[..|events| - 1], events[|events| - 1];
      var s := Run(front, retention);
      Lost(front, retention) + if last.Summarised? && s.cut.Some? then |s.messages| - s.cut.value.length else 0
  }

  /** The rebuilt list is longer than the live one by the messages that were lost. */
  ghost predicate Short(s: Session, lost: int) {
    && s.state == LatestCompaction(s.artifacts)
    && match s.state
       case Some(c) =>
         && c.count <= |Raw(s.artifacts)| && |s.messages| >= 1
         && |Raw(s.artifacts)| - c.count == |s.messages| - 1 + lost
       case None => |Raw(s.artifacts)| == |s.messages| + lost
  }

  lemma ShortMeansLength(s: Session, lost: int)
    requires Short(s, lost)
    ensures |Rebuilt(s.artifacts)| == |s.messages| + lost
  {
  }

  lemma InstallShort(s: Session, summary: string, lost: nat)
    requires Short(s, lost) && CutOk(s) && s.cut.Some?
    ensures Short(Install(s, summary), lost + Missed(s))
  {
    AppendArtifact(s.artifacts, Compaction(s.cut.value.count, summary));
  }

  /** An artifact that replays as the appended messages changes neither the deficit nor an open cut. */
  lemma AppendedShort(s: Session, a: Artifact, more: seq<Message>, lost: nat)
    requires Short(s, lost) && CutOk(s) && !a.Compaction? && ReadArtifact(a) == more
    ensures var t := s.(messages := s.messages + more, artifacts := s.artifacts + [a]); Short(t, lost) && CutOk(t)
  {
    AppendArtifact(s.artifacts, a);
  }

  lemma StepShort(s: Session, e: Event, retention: int, lost: nat)
    requires Short(s, lost) && CutOk(s) && Paired(s.messages) && retention >= 0
    ensures var t := Apply(s, e, retention);
            && Short(t, lost + if e.Summarised? && s.cut.Some? then Missed(s) else 0)
            && CutOk(t) && Paired(t.messages)
  {
    match e
    case Said(role, text) => AppendedShort(s, Text(role, text), [TextMessage(role, text)], lost);
    case Called(use, freshId) =>
      RecordedExchangeReplays(use, freshId, "fresh");
      PairedAppend(s.messages, ExchangeOf(use, freshId));
      AppendedShort(s, FunctionCall(ExchangeOf(use, freshId)), Pair(ExchangeOf(use, freshId)), lost);
    case Shown =>
      assert s.messages + [] == s.messages;
      AppendedShort(s, Unrelated, [], lost);
    case Began(over) => BeginShort(s, retention, over, lost);
    case Summarised(summary) =>
      if s.cut.Some? {
        InstallShort(s, summary, lost);
        InstallKeepsPairs(s, summary);
      }
    case GaveUp =>
  }

  lemma BeginShort(s: Session, retention: int, over: bool, lost: nat)
    requires Short(s, lost) && CutOk(s) && Paired(s.messages) && retention >= 0
    ensures var t := Begin(s, retention, over); Short(t, lost) && CutOk(t) && Paired(t.messages)
  {
    BeginCuts(s, retention, over);
    var split := SplitPoint(s.messages, retention);
    if s.cut.None? && over && split != 0 && s.state.Some? {
      InstallShort(CutOff(s, split), s.state.value.summary, lost);
      InstallKeepsPairs(CutOff(s, split), s.state.value.summary);
    }
  }

  lemma StepKeepsLive(s: Session, e: Event, retention: int)
    requires Live(s) && CutOk(s) && retention >= 0
    requires e.Summarised? && s.cut.Some? ==> Missed(s) == 0
    ensures Live(Apply(s, e, retention))
  {
    match e
    case Said(role, text) => RecordingKeepsLive(s, role, text);
    case Called(use, freshId) =>
      RecordedExchangeReplays(use, freshId, "fresh");
      ExchangeKeepsLive(s, ExchangeOf(use, freshId));
    case Shown => EmittingKeepsLive(s);
    case Began(over) => BeginKeepsLive(s, retention, over);
    case Summarised(summary) => if s.cut.Some? { InstallKeepsLive(s, summary); }
    case GaveUp =>
  }

  lemma {:induction false} RunFacts(events: seq<Event>, retention: int)
    requires retention >= 0
    ensures Lost(events, retention) >= 0
    ensures var s := Run(events, retention);
            && Short(s, Lost(events, retention)) && CutOk(s) && Paired(s.messages)
            && (Lost(events, retention) == 0 ==> Live(s))
  {
    if events != [] {
      var front, e := events[..|events| - 1], events[|events| - 1];
      RunFacts(front, retention);
      var s := Run(front, retention);
      StepShort(s, e, retention, Lost(front, retention));
      if Lost(events, retention) == 0 {
        StepKeepsLive(s, e, retention);
      }
    }
  }

  /** After any run, rebuilding from the artifacts gives the live list exactly when no message was recorded
      between the two halves of a compaction; and no tool result of the live list has lost its call. */
  lemma LiveEqualsRebuilt(events: seq<Event>, retention: int)
    requires retention >= 0
    ensures var s := Run(events, retention);
            (s.messages == Rebuilt(s.artifacts) <==> Lost(events, retention) == 0) && Paired(s.messages)
  {
    RunFacts(events, retention);
    ShortMeansLength(Run(events, retention), Lost(events, retention));
  }

  /** Nothing is recorded while a compaction is under way. */
  ghost predicate Undisturbed(events: seq<Event>, retention: int) {
    forall i :: 0 <= i < |events| && (events[i].Said? || events[i].Called?) ==> Run(events[..i], retention).cut.None?
  }

  lemma StepMissesNothing(s: Session, e: Event, retention: int)
    requires retention >= 0 && CutOk(s) && (s.cut.Some? ==> Missed(s) == 0)
    requires e.Said? || e.Called? ==> s.cut.None?
    ensures var t := Apply(s, e, retention); t.cut.Some? ==> |t.messages| == t.cut.value.length
  {
    if e.Began? {
      BeginCuts(s, retention, e.overThreshold);
    }
  }

  lemma FrontIsUndisturbed(events: seq<Event>, retention: int)
    requires events != [] && Undisturbed(events, retention)
    ensures Undisturbed(events[..|events| - 1], retention)
  {
    var front := events[..|events| - 1];
    forall i | 0 <= i < |front| && (front[i].Said? || front[i].Called?) ensures Run(front[..i], retention).cut.None? {
      assert events[i] == front[i] && events[..i] == front[..i];
    }
  }

  lemma {:induction false} UndisturbedLosesNothing(events: seq<Event>, retention: int)
    requires retention >= 0 && Undisturbed(events, retention)
    ensures Lost(events, retention) == 0
    ensures var s := Run(events, retention); s.cut.Some? ==> |s.messages| == s.cut.value.length
  {
    if events != [] {
      var front, e := events[..|events| - 1], events[|events| - 1];
      FrontIsUndisturbed(events, retention);
      UndisturbedLosesNothing(front, retention);
      RunFacts(front, retention);
      StepMissesNothing(Run(front, retention), e, retention);
    }
  }

  /** So runs without recordings during a compaction keep the two lists equal. */
  lemma UndisturbedRunsAgree(events: seq<Event>, retention: int)
    requires retention >= 0 && Undisturbed(events, retention)
    ensures Run(events, retention).messages == Rebuilt(Run(events, retention).artifacts)
  {
    UndisturbedLosesNothing(events, retention);
    LiveEqualsRebuilt(events, retention);
  }

  lemma RunOneMore(events: seq<Event>, e: Event, retention: int)
    ensures Run(events + [e], retention) == Apply(Run(events, retention), e, retention)
  {
    assert (events + [e])[..|events|] == events;
  }

  const A := User("a")
  const B := User("b")
  const C := User("c")
  const TEXTS := [Text(UserRole, "a"), Text(UserRole, "b"), Text(UserRole, "c")]

  /** The session just before the model returns, with c recorded meanwhile. */
  const WAITING := Session([A, B, C], None, TEXTS, Some(Cut(2, 1, [B], 1, "[user] a")))

  const BEFORE := Session([A, B], None, [Text(UserRole, "a"), Text(UserRole, "b")], None)

  lemma BeforeIsReached()
    ensures Run([Said(UserRole, "a"), Said(UserRole, "b")], 1) == BEFORE
  {
    RunOneMore([], Said(UserRole, "a"), 1);
    RunOneMore([Said(UserRole, "a")], Said(UserRole, "b"), 1);
    assert [] + [Said(UserRole, "a")] == [Said(UserRole, "a")];
    assert [Said(UserRole, "a")] + [Said(UserRole, "b")] == [Said(UserRole, "a"), Said(UserRole, "b")];
  }

  lemma BeforeIsCut()
    ensures Begin(BEFORE, 1, true) == BEFORE.(cut := Some(Cut(2, 1, [B], 1, "[user] a")))
  {
    assert SplitPoint(BEFORE.messages, 1) == 1;
    assert TakeFirst([A, B], 1) == [A] && [A][..0] == [];
    assert LineOf(A) == ["[user] a"] by {
      assert "[user] " + "a" == "[user] a";
    }
    assert Lines([A]) == [] + LineOf(A);
  }

  lemma WaitingIsReached()
    ensures Run([Said(UserRole, "a"), Said(UserRole, "b"), Began(true), Said(UserRole, "c")], 1) == WAITING
  {
    var said := [Said(UserRole, "a"), Said(UserRole, "b")];
    BeforeIsReached();
    BeforeIsCut();
    RunOneMore(said, Began(true), 1);
    RunOneMore(said + [Began(true)], Said(UserRole, "c"), 1);
    assert said + [Began(true)] + [Said(UserRole, "c")]
             == [Said(UserRole, "a"), Said(UserRole, "b"), Began(true), Said(UserRole, "c")];
  }

  lemma WaitingRebuilds()
    ensures Raw(TEXTS) == [A, B, C]
  {
    AppendArtifact([], TEXTS[0]);
    AppendArtifact([TEXTS[0]], TEXTS[1]);
    AppendArtifact([TEXTS[0], TEXTS[1]], TEXTS[2]);
    assert [] + [TEXTS[0]] == [TEXTS[0]] && [TEXTS[0]] + [TEXTS[1]] == [TEXTS[0], TEXTS[1]];
    assert [TEXTS[0], TEXTS[1]] + [TEXTS[2]] == TEXTS;
  }

  /** A run that loses a message: c is recorded while the model summarises a. */
  lemma MessageLostWhileSummarising()
    ensures var s := Run([Said(UserRole, "a"), Said(UserRole, "b"), Began(true), Said(UserRole, "c"),
                          Summarised("sum")], 1);
            s.messages == [Assistant("sum"), B] && Rebuilt(s.artifacts) == [Assistant("sum"), B, C]
  {
    var events := [Said(UserRole, "a"), Said(UserRole, "b"), Began(true), Said(UserRole, "c")];
    RunOneMore(events, Summarised("sum"), 1);
    assert events + [Summarised("sum")]
             == [Said(UserRole, "a"), Said(UserRole, "b"), Began(true), Said(UserRole, "c"), Summarised("sum")];
    WaitingIsReached();
    WaitingRebuilds();
    AppendArtifact(TEXTS, Compaction(1, "sum"));
    assert Raw(TEXTS) + [] == Raw(TEXTS);
  }

  /** A negative retention breaks the equality even without a disturbance: the first compaction claims more
      messages than there are, and the next recorded message is lost on rebuild. */
  lemma RetentionMatters(s: Session, retention: int, llm: string, text: string)
    requires Live(s) && s.cut.None? && s.state.None? && s.messages != []
    ensures var s1 := RecordMessage(Install(Begin(s, retention, true), llm), UserRole, text);
            s1.messages == Rebuilt(s1.artifacts) <==> retention >= 0
  {
    var s0 := Install(Begin(s, retention, true), llm);
    if retention >= 0 {
      BeginKeepsLive(s, retention, true);
      if Begin(s, retention, true).cut.Some? {
        InstallKeepsLive(Begin(s, retention, true), llm);
      }
      RecordingKeepsLive(s0, UserRole, text);
    } else {
      var split := SplitPoint(s.messages, retention);
      assert split == |s.messages| - retention;
      AppendArtifact(s.artifacts, Compaction(split, llm));
      AppendArtifact(s0.artifacts, Text(UserRole, text));
      assert Raw(s.artifacts) + [] == Raw(s.artifacts);
      var s1 := RecordMessage(s0, UserRole, text);
      assert |s1.messages| == 2 && |Rebuilt(s1.artifacts)| == 1;
    }
  }
}
