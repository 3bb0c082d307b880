/** The frontend view: agent output arrives in chunks, node statuses arrive in between, and in the end
    one message shows the whole text. */
module ConversationView {
  import opened Common
  import opened Chunking

  /** A chat message, or a working bubble: text shown under an artifact id, for a node or for "". */
  datatype Item = Item(id: string, node: string, text: string)

  datatype NodeInfo = NodeInfo(id: string, status: string)

  datatype View = View(messages: seq<Item>, bubbles: seq<Item>, active: set<string>, nodes: seq<NodeInfo>)

  /** assistant: a planner thought, or text of the assistant itself, which is shown as it comes. */
  datatype ViewEvent =
    | Piece(c: Chunk, assistant: bool, node: Option<string>)
    | Delta(changes: seq<(string, Option<string>)>)

  const TERMINAL_STATUSES := {"completed", "failed", "canceled", "invalidated"}

  // ---- items ----

  function Shown(items: seq<Item>, id: string): seq<string> {
    if items == [] then []
    else
      var last := items[|items| - 1];
      Shown(items[..|items| - 1], id) + if last.id == id then [last.text] else []
  }

  predicate Has(items: seq<Item>, id: string) {
    exists i :: 0 <= i < |items| && items[i].id == id
  }

  /** The text of the first item with the id. */
  function FirstText(items: seq<Item>, id: string): string
    requires Has(items, id)
  {
    if items[0].id == id then items[0].text else FirstText(items[1..], id)
  }

  function SetText(items: seq<Item>, id: string, text: string): seq<Item> {
    seq(|items|, i requires 0 <= i < |items| => if items[i].id == id then items[i].(text := text) else items[i])
  }

  function Replace(items: seq<Item>, item: Item): seq<Item> {
    seq(|items|, i requires 0 <= i < |items| => if items[i].id == item.id then item else items[i])
  }

  function Without(items: seq<Item>, id: string): seq<Item> {
    if items == [] then []
    else
      var last := items[|items| - 1];
      Without(items[..|items| - 1], id) + if last.id == id then [] else [last]
  }

  // ---- node statuses ----

  function StatusOf(nodes: seq<NodeInfo>, id: string): Option<string> {
    if nodes == [] then None else if nodes[0].id == id then Some(nodes[0].status) else StatusOf(nodes[1..], id)
  }

  predicate IsTerminal(nodes: seq<NodeInfo>, node: Option<string>) {
    node.Some? && StatusOf(nodes, node.value).Some? && StatusOf(nodes, node.value).value in TERMINAL_STATUSES
  }

  function TerminalIds(nodes: seq<NodeInfo>): set<string> {
    set n | n in nodes && n.status in TERMINAL_STATUSES :: n.id
  }

  function SetStatus(nodes: seq<NodeInfo>, id: string, status: string): seq<NodeInfo> {
    seq(|nodes|, i requires 0 <= i < |nodes| => if nodes[i].id == id then nodes[i].(status := status) else nodes[i])
  }

  function ApplyChange(nodes: seq<NodeInfo>, change: (string, Option<string>)): seq<NodeInfo> {
    if StatusOf(nodes, change.0).None?
    then nodes + [NodeInfo(change.0, if change.1.Some? then change.1.value else "pending")]
    else if change.1.Some? then SetStatus(nodes, change.0, change.1.value)
    else nodes
  }

  function ApplyChanges(nodes: seq<NodeInfo>, changes: seq<(string, Option<string>)>): seq<NodeInfo> {
    if changes == [] then nodes else ApplyChange(ApplyChanges(nodes, changes[..|changes| - 1]), changes[|changes| - 1])
  }

  // ---- steps ----

  /** materializeBubble: the bubble's text becomes the message of its id. */
  function Materialize(messages: seq<Item>, bubble: Item): seq<Item> {
    if !Has(messages, bubble.id) then messages + [bubble]
    else if FirstText(messages, bubble.id) == bubble.text then messages
    else SetText(messages, bubble.id, bubble.text)
  }

  function MaterializeAll(messages: seq<Item>, bubbles: seq<Item>, terminal: set<string>): seq<Item> {
    if bubbles == [] then messages
    else
      var front, last := MaterializeAll(messages, bubbles[..|bubbles| - 1], terminal), bubbles[|bubbles| - 1];
      if last.node in terminal then Materialize(front, last) else front
  }

  function Unfinished(bubbles: seq<Item>, terminal: set<string>): seq<Item> {
    if bubbles == [] then []
    else
      var last := bubbles[|bubbles| - 1];
      Unfinished(bubbles[..|bubbles| - 1], terminal) + if last.node in terminal then [] else [last]
  }

  /** applyStateDelta, as far as nodes, bubbles and messages go. */
  function ApplyDelta(v: View, changes: seq<(string, Option<string>)>): View {
    var nodes := ApplyChanges(v.nodes, changes);
    View(MaterializeAll(v.messages, v.bubbles, TerminalIds(nodes)), Unfinished(v.bubbles, TerminalIds(nodes)),
         v.active, nodes)
  }

  function NextActive(active: set<string>, c: Chunk): set<string> {
    if c.last then active - {c.id} else if !c.append then active + {c.id} else active
  }

  function AssistantText(v: View, c: Chunk): View {
    if Has(v.messages, c.id) then
      v.(active := NextActive(v.active, c),
         messages := SetText(v.messages, c.id, if c.append then FirstText(v.messages, c.id) + c.piece else c.piece))
    else v.(active := NextActive(v.active, c), messages := v.messages + [Item(c.id, "", c.piece)])
  }

  function NodeName(node: Option<string>): string {
    if node.Some? then node.value else ""
  }

  function OneShot(v: View, c: Chunk, node: Option<string>): View {
    if Has(v.messages, c.id) then v else v.(messages := v.messages + [Item(c.id, NodeName(node), c.piece)])
  }

  /** The text an appended chunk extends: the bubble's, else the message's. */
  function Base(v: View, id: string): string {
    if Has(v.bubbles, id) then FirstText(v.bubbles, id) else if Has(v.messages, id) then FirstText(v.messages, id)
    else ""
  }

  function Streamed(v: View, c: Chunk, node: Option<string>): View {
    var terminal := IsTerminal(v.nodes, node);
    var bubble := Item(c.id, NodeName(node), if c.append then Base(v, c.id) + c.piece else c.piece);
    var bubbles := if Has(v.bubbles, c.id) then Replace(v.bubbles, bubble) else if terminal then v.bubbles
                   else v.bubbles + [bubble];
    var nodes := if node.Some? && !terminal then SetStatus(v.nodes, node.value, "working") else v.nodes;
    if c.last || terminal
    then View(Materialize(v.messages, bubble), Without(bubbles, c.id), NextActive(v.active, c), nodes)
    else View(v.messages, bubbles, NextActive(v.active, c), nodes)
  }

  /** The text branches for an artifact update. */
  function ApplyPiece(v: View, c: Chunk, assistant: bool, node: Option<string>): View {
    if c.piece == "" then v
    else if assistant then AssistantText(v, c)
    else if c.last && c.id !in v.active then OneShot(v, c, node)
    else Streamed(v, c, node)
  }

  function Apply(v: View, e: ViewEvent): View {
    match e
    case Piece(c, assistant, node) => ApplyPiece(v, c, assistant, node)
    case Delta(changes) => ApplyDelta(v, changes)
  }

  function ApplyAll(v: View, log: seq<ViewEvent>): View {
    if log == [] then v else Apply(ApplyAll(v, log[..|log| - 1]), log[|log| - 1])
  }

  /** applyStateDelta's two loops over local variables. */
  method ApplyStateDelta(v: View, changes: seq<(string, Option<string>)>) returns (r: View)
    ensures r == ApplyDelta(v, changes)
  {
    var nodes := v.nodes;
    for i := 0 to |changes|
      invariant nodes == ApplyChanges(v.nodes, changes[..i])
    {
      assert changes[..i + 1][..i] == changes[..i];
      var (id, status) := changes[i];
      if StatusOf(nodes, id).Some? {
        if status.Some? {
          nodes := SetStatus(nodes, id, status.value);
        }
      } else {
        nodes := nodes + [NodeInfo(id, if status.Some? then status.value else "pending")];
      }
    }
    assert changes[..|changes|] == changes;
    var terminal := TerminalIds(nodes);
    var messages := v.messages;
    for i := 0 to |v.bubbles|
      invariant messages == MaterializeAll(v.messages, v.bubbles[..i], terminal)
    {
      assert v.bubbles[..i + 1][..i] == v.bubbles[..i];
      if v.bubbles[i].node in terminal {
        messages := Materialize(messages, v.bubbles[i]);
      }
    }
    assert v.bubbles[..|v.bubbles|] == v.bubbles;
    r := View(messages, Unfinished(v.bubbles, terminal), v.active, nodes);
  }

  // ---- what the item operations show ----

  lemma ShownAdd(items: seq<Item>, item: Item, id: string)
    ensures Shown(items + [item], id) == Shown(items, id) + if item.id == id then [item.text] else []
  {
    assert (items + [item])[..|items|] == items;
  }

  lemma {:induction false} ShownFirst(items: seq<Item>, id: string)
    ensures Has(items, id) <==> Shown(items, id) != []
    ensures Has(items, id) ==> FirstText(items, id) == Shown(items, id)[0]
  {
    if items != [] {
      var front, last := items[..|items| - 1], items[|items| - 1];
      assert items == front + [last];
      ShownFirst(front, id);
      if Has(front, id) {
        FirstTextOfFront(front, last, id);
      } else if last.id == id {
        FirstTextLast(front, last);
        assert items[|items| - 1].id == id;
      }
    }
  }

  lemma {:induction false} FirstTextOfFront(front: seq<Item>, last: Item, id: string)
    requires Has(front, id)
    ensures Has(front + [last], id) && FirstText(front + [last], id) == FirstText(front, id)
  {
    var i :| 0 <= i < |front| && front[i].id == id;
    assert (front + [last])[i].id == id;
    if front[0].id != id {
      assert front[1..][i - 1].id == id;
      FirstTextOfFront(front[1..], last, id);
      assert (front + [last])[1..] == front[1..] + [last];
    }
  }

  lemma {:induction false} FirstTextLast(front: seq<Item>, last: Item)
    requires !Has(front, last.id)
    ensures Has(front + [last], last.id) && FirstText(front + [last], last.id) == last.text
  {
    assert (front + [last])[|front|] == last;
    if front != [] {
      assert front[0].id != last.id;
      forall i | 0 <= i < |front[1..]| ensures front[1..][i].id != last.id {
        assert front[i + 1].id != last.id;
      }
      FirstTextLast(front[1..], last);
      assert (front + [last])[1..] == front[1..] + [last];
    }
  }

  lemma {:induction false} ShownSetText(items: seq<Item>, at: string, text: string, id: string)
    ensures id != at ==> Shown(SetText(items, at, text), id) == Shown(items, id)
    ensures |Shown(items, at)| == 1 ==> Shown(SetText(items, at, text), at) == [text]
    ensures Shown(items, at) == [] ==> Shown(SetText(items, at, text), at) == []
  {
    if items != [] {
      var front := items[..|items| - 1];
      assert SetText(items, at, text)[..|items| - 1] == SetText(front, at, text);
      ShownSetText(front, at, text, id);
    }
  }

  lemma {:induction false} ShownReplace(items: seq<Item>, item: Item, id: string)
    ensures id != item.id ==> Shown(Replace(items, item), id) == Shown(items, id)
    ensures |Shown(items, item.id)| == 1 ==> Shown(Replace(items, item), item.id) == [item.text]
    ensures Shown(items, item.id) == [] ==> Shown(Replace(items, item), item.id) == []
  {
    if items != [] {
      var front := items[..|items| - 1];
      assert Replace(items, item)[..|items| - 1] == Replace(front, item);
      ShownReplace(front, item, id);
    }
  }

  lemma {:induction false} ShownWithout(items: seq<Item>, at: string, id: string)
    ensures Shown(Without(items, at), id) == if id == at then [] else Shown(items, id)
  {
    if items != [] {
      var front, last := items[..|items| - 1], items[|items| - 1];
      ShownWithout(front, at, id);
      if last.id != at {
        ShownAdd(Without(front, at), last, id);
      } else {
        assert Without(items, at) == Without(front, at);
      }
    }
  }

  lemma ShownMaterialize(messages: seq<Item>, bubble: Item, id: string)
    ensures bubble.id != id ==> Shown(Materialize(messages, bubble), id) == Shown(messages, id)
    ensures bubble.id == id && |Shown(messages, id)| <= 1 ==> Shown(Materialize(messages, bubble), id) == [bubble.text]
  {
    ShownFirst(messages, bubble.id);
    ShownAdd(messages, bubble, id);
    ShownSetText(messages, bubble.id, bubble.text, id);
  }

  /** Either nothing about the id changes, or its one bubble becomes its message. */
  ghost predicate Moves(m0: seq<string>, b0: seq<string>, m1: seq<string>, b1: seq<string>) {
    (m1 == m0 && b1 == b0) || (m1 == b0 && b1 == [] && |m1| == 1)
  }

  lemma MoveOne(messages: seq<Item>, unfinished: seq<Item>, last: Item, terminal: set<string>, id: string)
    requires |Shown(messages, id)| <= 1
    ensures var m := Shown(if last.node in terminal then Materialize(messages, last) else messages, id);
            var b := Shown(unfinished + if last.node in terminal then [] else [last], id);
            if last.id != id then m == Shown(messages, id) && b == Shown(unfinished, id)
            else if last.node in terminal then m == [last.text] && b == Shown(unfinished, id)
            else m == Shown(messages, id) && b == Shown(unfinished, id) + [last.text]
  {
    ShownMaterialize(messages, last, id);
    ShownAdd(unfinished, last, id);
    assert unfinished + [] == unfinished;
  }

  /** A delta moves the bubble of a terminal node into its message and leaves it alone otherwise. */
  lemma {:induction false} ShownDelta(messages: seq<Item>, bubbles: seq<Item>, terminal: set<string>, id: string)
    requires |Shown(bubbles, id)| <= 1 && |Shown(messages, id)| <= 1
    ensures Moves(Shown(messages, id), Shown(bubbles, id),
                  Shown(MaterializeAll(messages, bubbles, terminal), id), Shown(Unfinished(bubbles, terminal), id))
  {
    if bubbles != [] {
      var front, last := bubbles[..|bubbles| - 1], bubbles[|bubbles| - 1];
      ShownDelta(messages, front, terminal, id);
      MoveOne(MaterializeAll(messages, front, terminal), Unfinished(front, terminal), last, terminal, id);
    }
  }

  // ---- what a delta does ----

  /** The node is listed with a status that ends it. */
  ghost predicate HasEnded(nodes: seq<NodeInfo>, node: string) {
    exists i :: 0 <= i < |nodes| && nodes[i].id == node
                && (nodes[i].status == "completed" || nodes[i].status == "failed" || nodes[i].status == "canceled"
                    || nodes[i].status == "invalidated")
  }

  lemma EndedMeans(nodes: seq<NodeInfo>, node: string)
    ensures node in TerminalIds(nodes) <==> HasEnded(nodes, node)
  {
    if node in TerminalIds(nodes) {
      var n :| n in nodes && n.status in TERMINAL_STATUSES && n.id == node;
      var i :| 0 <= i < |nodes| && nodes[i] == n;
      assert nodes[i].id == node;
    }
    if HasEnded(nodes, node) {
      var i :| 0 <= i < |nodes| && nodes[i].id == node && nodes[i].status in TERMINAL_STATUSES;
      assert nodes[i] in nodes;
    }
  }

  /** What shows under the id of a bubble that may have moved. */
  ghost predicate MovedIf(m: seq<Item>, b: seq<Item>, messages: seq<Item>, bubble: Item, ended: bool) {
    if ended then Shown(m, bubble.id) == [bubble.text] && Shown(b, bubble.id) == []
    else Shown(m, bubble.id) == Shown(messages, bubble.id) && Shown(b, bubble.id) == [bubble.text]
  }

  /** A bubble of a terminal node becomes the message of its id, and any other bubble stays. */
  lemma {:induction false} BubbleMoves(messages: seq<Item>, bubbles: seq<Item>, terminal: set<string>, i: nat)
    requires i < |bubbles| && |Shown(messages, bubbles[i].id)| <= 1
    requires forall j :: 0 <= j < |bubbles| && bubbles[j].id == bubbles[i].id ==> j == i
    ensures MovedIf(MaterializeAll(messages, bubbles, terminal), Unfinished(bubbles, terminal), messages, bubbles[i],
                    bubbles[i].node in terminal)
  {
    var front, last := bubbles[..|bubbles| - 1], bubbles[|bubbles| - 1];
    if i < |front| {
      forall j | 0 <= j < |front| && front[j].id == front[i].id ensures j == i {
        assert bubbles[j].id == bubbles[i].id;
      }
      BubbleMoves(messages, front, terminal, i);
    } else {
      NoBubbleMoves(messages, front, terminal, last.id);
    }
    assert bubbles == front + [last];
    ShownMove(messages, front, last, terminal, bubbles[i].id);
  }

  lemma ShownMove(messages: seq<Item>, front: seq<Item>, last: Item, terminal: set<string>, id: string)
    requires |Shown(MaterializeAll(messages, front, terminal), id)| <= 1
    ensures var m0, b0 := MaterializeAll(messages, front, terminal), Unfinished(front, terminal);
            var m, b := MaterializeAll(messages, front + [last], terminal), Unfinished(front + [last], terminal);
            if last.id != id then Shown(m, id) == Shown(m0, id) && Shown(b, id) == Shown(b0, id)
            else if last.node in terminal then Shown(m, id) == [last.text] && Shown(b, id) == Shown(b0, id)
            else Shown(m, id) == Shown(m0, id) && Shown(b, id) == Shown(b0, id) + [last.text]
  {
    assert (front + [last])[..|front|] == front;
    MoveOne(MaterializeAll(messages, front, terminal), Unfinished(front, terminal), last, terminal, id);
  }

  lemma {:induction false} NoBubbleMoves(messages: seq<Item>, bubbles: seq<Item>, terminal: set<string>, id: string)
    requires |Shown(messages, id)| <= 1 && forall j :: 0 <= j < |bubbles| ==> bubbles[j].id != id
    ensures Shown(MaterializeAll(messages, bubbles, terminal), id) == Shown(messages, id)
    ensures Shown(Unfinished(bubbles, terminal), id) == []
  {
    if bubbles != [] {
      var front, last := bubbles[..|bubbles| - 1], bubbles[|bubbles| - 1];
      NoBubbleMoves(messages, front, terminal, id);
      MoveOne(MaterializeAll(messages, front, terminal), Unfinished(front, terminal), last, terminal, id);
    }
  }

  /** After a delta the bubbles of ended nodes are messages, and those of other nodes are still bubbles. */
  lemma DeltaMovesBubbles(v: View, changes: seq<(string, Option<string>)>, i: nat)
    requires i < |v.bubbles| && |Shown(v.messages, v.bubbles[i].id)| <= 1
    requires forall j :: 0 <= j < |v.bubbles| && v.bubbles[j].id == v.bubbles[i].id ==> j == i
    ensures var w, b := ApplyDelta(v, changes), v.bubbles[i];
            && w.active == v.active
            && MovedIf(w.messages, w.bubbles, v.messages, b, HasEnded(w.nodes, b.node))
  {
    var nodes := ApplyChanges(v.nodes, changes);
    EndedMeans(nodes, v.bubbles[i].node);
    BubbleMoves(v.messages, v.bubbles, TerminalIds(nodes), i);
  }

  lemma {:induction false} SetStatusOf(nodes: seq<NodeInfo>, at: string, status: string, id: string)
    ensures StatusOf(SetStatus(nodes, at, status), id)
            == if id == at && StatusOf(nodes, id).Some? then Some(status) else StatusOf(nodes, id)
  {
    if nodes != [] && nodes[0].id != id {
      assert SetStatus(nodes, at, status)[1..] == SetStatus(nodes[1..], at, status);
      SetStatusOf(nodes[1..], at, status, id);
    }
  }

  lemma {:induction false} AddedStatusOf(nodes: seq<NodeInfo>, n: NodeInfo, id: string)
    ensures StatusOf(nodes + [n], id)
            == if StatusOf(nodes, id).Some? then StatusOf(nodes, id) else if n.id == id then Some(n.status) else None
  {
    if nodes != [] && nodes[0].id != id {
      assert (nodes + [n])[1..] == nodes[1..] + [n];
      AddedStatusOf(nodes[1..], n, id);
    }
  }

  lemma ChangeStatusOf(nodes: seq<NodeInfo>, change: (string, Option<string>), id: string)
    ensures StatusOf(ApplyChange(nodes, change), id)
            == if change.0 != id then StatusOf(nodes, id)
               else if change.1.Some? then change.1
               else if StatusOf(nodes, id).Some? then StatusOf(nodes, id) else Some("pending")
  {
    if StatusOf(nodes, change.0).None? {
      AddedStatusOf(nodes, NodeInfo(change.0, if change.1.Some? then change.1.value else "pending"), id);
    } else if change.1.Some? {
      SetStatusOf(nodes, change.0, change.1.value, id);
    }
  }

  /** A node has the last status the delta gives it. */
  lemma {:induction false} LastStatusWins(nodes: seq<NodeInfo>, changes: seq<(string, Option<string>)>, k: nat)
    requires k < |changes| && changes[k].1.Some?
    requires forall j :: k < j < |changes| && changes[j].0 == changes[k].0 ==> changes[j].1.None?
    ensures StatusOf(ApplyChanges(nodes, changes), changes[k].0) == changes[k].1
  {
    var front, last := changes[..|changes| - 1], changes[|changes| - 1];
    if k < |front| {
      LastStatusWins(nodes, front, k);
    }
    ChangeStatusOf(ApplyChanges(nodes, front), last, changes[k].0);
  }

  /** Without one, a listed node keeps its status, a new node is pending, and an unmentioned one stays unlisted. */
  lemma {:induction false} StatusStays(nodes: seq<NodeInfo>, changes: seq<(string, Option<string>)>, id: string)
    requires forall j :: 0 <= j < |changes| && changes[j].0 == id ==> changes[j].1.None?
    ensures StatusOf(ApplyChanges(nodes, changes), id)
            == if StatusOf(nodes, id).Some? then StatusOf(nodes, id)
               else if exists j :: 0 <= j < |changes| && changes[j].0 == id then Some("pending") else None
  {
    if changes != [] {
      var front, last := changes[..|changes| - 1], changes[|changes| - 1];
      StatusStays(nodes, front, id);
      ChangeStatusOf(ApplyChanges(nodes, front), last, id);
      assert changes[|front|] == last && forall j :: 0 <= j < |front| ==> changes[j] == front[j];
      if j :| 0 <= j < |front| && front[j].0 == id {
        assert changes[j].0 == id;
      }
    }
  }

  /** A streamed chunk marks its node as working, unless the node has ended; other nodes keep their status. */
  lemma StreamingMarksWorking(v: View, c: Chunk, node: Option<string>, id: string)
    ensures StatusOf(Streamed(v, c, node).nodes, id)
            == if node == Some(id) && StatusOf(v.nodes, id).Some?
                  && StatusOf(v.nodes, id).value !in {"completed", "failed", "canceled", "invalidated"}
               then Some("working") else StatusOf(v.nodes, id)
  {
    if node.Some? {
      SetStatusOf(v.nodes, node.value, "working", id);
    }
  }

  /** Every item of the id belongs to the node. */
  ghost predicate BelongTo(items: seq<Item>, id: string, node: string) {
    forall i :: 0 <= i < |items| && items[i].id == id ==> items[i].node == node
  }

  lemma {:induction false} WithoutBelongs(items: seq<Item>, at: string, id: string, node: string)
    requires BelongTo(items, id, node)
    ensures BelongTo(Without(items, at), id, node)
  {
    if items != [] {
      var front, last := items[..|items| - 1], items[|items| - 1];
      assert BelongTo(front, id, node) by {
        forall i | 0 <= i < |front| && front[i].id == id ensures front[i].node == node {
          assert items[i].id == id;
        }
      }
      WithoutBelongs(front, at, id, node);
      assert last == items[|items| - 1];
    }
  }

  lemma ReplaceBelongs(items: seq<Item>, item: Item)
    ensures BelongTo(Replace(items, item), item.id, item.node)
  {
  }

  lemma AppendBelongs(items: seq<Item>, item: Item)
    requires BelongTo(items, item.id, item.node)
    ensures BelongTo(items + [item], item.id, item.node)
  {
  }

  lemma MaterializeBelongs(messages: seq<Item>, bubble: Item)
    requires BelongTo(messages, bubble.id, bubble.node)
    ensures BelongTo(Materialize(messages, bubble), bubble.id, bubble.node)
  {
    var set1 := SetText(messages, bubble.id, bubble.text);
    forall i | 0 <= i < |set1| && set1[i].id == bubble.id ensures set1[i].node == bubble.node {
      assert messages[i].id == bubble.id;
    }
    AppendBelongs(messages, bubble);
  }

  /** The bubbles before a last chunk removes its own. */
  lemma BubblesBelong(bubbles: seq<Item>, bubble: Item, terminal: bool)
    ensures BelongTo(if Has(bubbles, bubble.id) then Replace(bubbles, bubble)
                     else if terminal then bubbles else bubbles + [bubble], bubble.id, bubble.node)
  {
    if Has(bubbles, bubble.id) {
      ReplaceBelongs(bubbles, bubble);
    } else {
      assert forall i :: 0 <= i < |bubbles| ==> bubbles[i].id != bubble.id;
    }
  }

  lemma StreamedBelongs(v: View, c: Chunk, node: Option<string>)
    requires BelongTo(v.messages, c.id, NodeName(node))
    ensures BelongTo(Streamed(v, c, node).messages, c.id, NodeName(node))
    ensures BelongTo(Streamed(v, c, node).bubbles, c.id, NodeName(node))
  {
    var bubble := Item(c.id, NodeName(node), if c.append then Base(v, c.id) + c.piece else c.piece);
    MaterializeBelongs(v.messages, bubble);
    BubblesBelong(v.bubbles, bubble, IsTerminal(v.nodes, node));
    var bubbles := if Has(v.bubbles, c.id) then Replace(v.bubbles, bubble)
                   else if IsTerminal(v.nodes, node) then v.bubbles else v.bubbles + [bubble];
    WithoutBelongs(bubbles, c.id, c.id, NodeName(node));
  }

  /** A chunk shows under its node: a bubble always, a message unless it was there before. */
  lemma PiecesShowUnderTheirNode(v: View, c: Chunk, assistant: bool, node: Option<string>)
    requires c.piece != "" && BelongTo(v.messages, c.id, if assistant || node.None? then "" else node.value)
    ensures var w, name := ApplyPiece(v, c, assistant, node), if assistant || node.None? then "" else node.value;
            && BelongTo(w.messages, c.id, name)
            && (!assistant && !(c.last && c.id !in v.active) ==> BelongTo(w.bubbles, c.id, name))
  {
    if !assistant && !(c.last && c.id !in v.active) {
      StreamedBelongs(v, c, node);
    }
  }

  // ---- the invariant of a stream ----

  /** The text so far is in the bubble, or, once the node was terminal, in the message. */
  ghost predicate Holds(v: View, id: string, text: string) {
    && |Shown(v.messages, id)| <= 1
    && (Shown(v.bubbles, id) == [text] || (Shown(v.bubbles, id) == [] && Shown(v.messages, id) == [text]))
  }

  ghost predicate Fresh(v: View, id: string) {
    Shown(v.messages, id) == [] && Shown(v.bubbles, id) == [] && id !in v.active
  }

  ghost predicate Sealed(v: View, id: string, text: string) {
    Shown(v.messages, id) == [text] && Shown(v.bubbles, id) == []
  }

  ghost predicate Progress(v: View, id: string, assistant: bool, chunks: seq<Chunk>, k: nat)
    requires k <= |chunks|
  {
    if k == 0 then Fresh(v, id)
    else if k == |chunks| then Sealed(v, id, Text(chunks)) && id !in v.active
    else if assistant then Sealed(v, id, Text(chunks[..k])) && id in v.active
    else Holds(v, id, Text(chunks[..k])) && id in v.active
  }

  /** What the view shows under the id, and whether it is streaming. */
  ghost predicate SameFor(v: View, w: View, id: string) {
    && Shown(w.messages, id) == Shown(v.messages, id) && Shown(w.bubbles, id) == Shown(v.bubbles, id)
    && (id in w.active <==> id in v.active)
  }

  lemma OtherPiece(v: View, c: Chunk, assistant: bool, node: Option<string>, id: string)
    requires c.id != id
    ensures SameFor(v, ApplyPiece(v, c, assistant, node), id)
  {
    if c.piece != "" {
      if assistant {
        ShownAdd(v.messages, Item(c.id, "", c.piece), id);
        if Has(v.messages, c.id) {
          ShownSetText(v.messages, c.id, if c.append then FirstText(v.messages, c.id) + c.piece else c.piece, id);
        }
      } else if c.last && c.id !in v.active {
        ShownAdd(v.messages, Item(c.id, NodeName(node), c.piece), id);
      } else {
        OtherStreamed(v, c, node, id);
      }
    }
  }

  lemma OtherStreamed(v: View, c: Chunk, node: Option<string>, id: string)
    requires c.id != id
    ensures SameFor(v, Streamed(v, c, node), id)
  {
    var bubble := Item(c.id, NodeName(node), if c.append then Base(v, c.id) + c.piece else c.piece);
    var terminal := IsTerminal(v.nodes, node);
    var bubbles := if Has(v.bubbles, c.id) then Replace(v.bubbles, bubble) else if terminal then v.bubbles
                   else v.bubbles + [bubble];
    ShownReplace(v.bubbles, bubble, id);
    ShownAdd(v.bubbles, bubble, id);
    assert Shown(bubbles, id) == Shown(v.bubbles, id);
    ShownWithout(bubbles, c.id, id);
    ShownMaterialize(v.messages, bubble, id);
  }

  lemma DeltaKeepsProgress(v: View, changes: seq<(string, Option<string>)>, id: string, assistant: bool,
                           chunks: seq<Chunk>, k: nat)
    requires k <= |chunks| && Progress(v, id, assistant, chunks, k)
    ensures Progress(ApplyDelta(v, changes), id, assistant, chunks, k)
  {
    ShownDelta(v.messages, v.bubbles, TerminalIds(ApplyChanges(v.nodes, changes)), id);
  }

  lemma StreamedShows(v: View, c: Chunk, node: Option<string>)
    requires Fresh(v, c.id) || exists t :: Holds(v, c.id, t)
    ensures var w, text := Streamed(v, c, node), if c.append then Base(v, c.id) + c.piece else c.piece;
            if c.last then Sealed(w, c.id, text) else Holds(w, c.id, text)
  {
    var id := c.id;
    var bubble := Item(id, NodeName(node), if c.append then Base(v, id) + c.piece else c.piece);
    var terminal := IsTerminal(v.nodes, node);
    var bubbles := if Has(v.bubbles, id) then Replace(v.bubbles, bubble) else if terminal then v.bubbles
                   else v.bubbles + [bubble];
    ShownFirst(v.bubbles, id);
    ShownReplace(v.bubbles, bubble, id);
    ShownAdd(v.bubbles, bubble, id);
    ShownWithout(bubbles, id, id);
    ShownMaterialize(v.messages, bubble, id);
  }

  lemma BaseIsHeld(v: View, id: string, text: string)
    requires Holds(v, id, text)
    ensures Base(v, id) == text
  {
    ShownFirst(v.bubbles, id);
    ShownFirst(v.messages, id);
  }

  lemma OwnPiece(v: View, node: Option<string>, id: string, assistant: bool, chunks: seq<Chunk>, text: string, k: nat)
    requires IsStream(chunks, id, text) && text != "" && 0 < k <= |chunks| && Progress(v, id, assistant, chunks, k - 1)
    ensures Progress(ApplyPiece(v, chunks[k - 1], assistant, node), id, assistant, chunks, k)
  {
    var c := chunks[k - 1];
    TextGrows(chunks, k);
    assert chunks[..|chunks|] == chunks && chunks[..0] == [] && "" + c.piece == c.piece;
    if assistant {
      OwnAssistant(v, c);
    } else if c.last && id !in v.active {
      ShownFirst(v.messages, id);
      ShownAdd(v.messages, Item(id, NodeName(node), c.piece), id);
    } else {
      if k > 1 {
        BaseIsHeld(v, id, Text(chunks[..k - 1]));
      }
      StreamedShows(v, c, node);
    }
  }

  lemma OwnAssistant(v: View, c: Chunk)
    requires |Shown(v.messages, c.id)| <= 1
    ensures var w := AssistantText(v, c);
            && Shown(w.messages, c.id) == [if c.append && Shown(v.messages, c.id) != []
                                           then Shown(v.messages, c.id)[0] + c.piece else c.piece]
            && w.bubbles == v.bubbles
  {
    ShownFirst(v.messages, c.id);
    ShownAdd(v.messages, Item(c.id, "", c.piece), c.id);
    if Has(v.messages, c.id) {
      ShownSetText(v.messages, c.id, if c.append then FirstText(v.messages, c.id) + c.piece else c.piece, c.id);
    }
  }

  // ---- the result ----

  function ChunksOf(log: seq<ViewEvent>, id: string): seq<Chunk> {
    if log == [] then []
    else
      var last := log[|log| - 1];
      ChunksOf(log[..|log| - 1], id) + if last.Piece? && last.c.id == id then [last.c] else []
  }

  /** All chunks of the artifact are of one kind. */
  ghost predicate OfKind(log: seq<ViewEvent>, id: string, assistant: bool) {
    forall i :: 0 <= i < |log| && log[i].Piece? && log[i].c.id == id ==> log[i].assistant == assistant
  }

  lemma LastOfView(log: seq<ViewEvent>, id: string, chunks: seq<Chunk>, k: nat)
    requires log != [] && k <= |chunks| && ChunksOf(log, id) == chunks[..k]
    ensures var front, last := log[..|log| - 1], log[|log| - 1];
            if last.Piece? && last.c.id == id
            then k > 0 && last.c == chunks[k - 1] && ChunksOf(front, id) == chunks[..k - 1]
            else ChunksOf(front, id) == chunks[..k]
  {
    var front, last := log[..|log| - 1], log[|log| - 1];
    if last.Piece? && last.c.id == id {
      assert ChunksOf(log, id)[|ChunksOf(front, id)|] == last.c;
      assert ChunksOf(log, id)[..|ChunksOf(front, id)|] == ChunksOf(front, id);
      assert chunks[..k][..k - 1] == chunks[..k - 1];
    }
  }

  lemma {:induction false} ViewProgress(v: View, log: seq<ViewEvent>, id: string, assistant: bool, chunks: seq<Chunk>,
                                        text: string, k: nat)
    requires IsStream(chunks, id, text) && text != "" && k <= |chunks| && ChunksOf(log, id) == chunks[..k]
    requires Fresh(v, id) && OfKind(log, id, assistant)
    ensures Progress(ApplyAll(v, log), id, assistant, chunks, k)
  {
    if log != [] {
      var front, last := log[..|log| - 1], log[|log| - 1];
      LastOfView(log, id, chunks, k);
      assert OfKind(front, id, assistant);
      var w := ApplyAll(v, front);
      if last.Delta? {
        ViewProgress(v, front, id, assistant, chunks, text, k);
        DeltaKeepsProgress(w, last.changes, id, assistant, chunks, k);
      } else if last.c.id == id {
        ViewProgress(v, front, id, assistant, chunks, text, k - 1);
        OwnPiece(w, last.node, id, assistant, chunks, text, k);
      } else {
        ViewProgress(v, front, id, assistant, chunks, text, k);
        OtherPiece(w, last.c, last.assistant, last.node, id);
      }
    }
  }

  lemma {:induction false} EmptyShowsNothing(v: View, log: seq<ViewEvent>, id: string)
    requires Fresh(v, id) && forall i :: 0 <= i < |log| && log[i].Piece? && log[i].c.id == id ==> log[i].c.piece == ""
    ensures Fresh(ApplyAll(v, log), id)
  {
    if log != [] {
      var front, last := log[..|log| - 1], log[|log| - 1];
      EmptyShowsNothing(v, front, id);
      var w := ApplyAll(v, front);
      if last.Delta? {
        ShownDelta(w.messages, w.bubbles, TerminalIds(ApplyChanges(w.nodes, last.changes)), id);
      } else if last.c.id != id {
        OtherPiece(w, last.c, last.assistant, last.node, id);
      }
    }
  }

  lemma {:induction false} MemberOfChunks(log: seq<ViewEvent>, id: string, i: nat)
    requires i < |log| && log[i].Piece? && log[i].c.id == id
    ensures log[i].c in ChunksOf(log, id)
  {
    if i < |log| - 1 {
      MemberOfChunks(log[..|log| - 1], id, i);
    }
  }

  /** Split, interleave with other artifacts and with status deltas, and apply: the view ends with one
      message of that id, holding the whole text; an empty text shows nothing. */
  lemma ViewRestoresText(v: View, log: seq<ViewEvent>, id: string, assistant: bool, text: string, size: int)
    requires ChunksOf(log, id) == Emit(id, text, size) && Fresh(v, id) && OfKind(log, id, assistant)
    ensures Shown(ApplyAll(v, log).messages, id) == if text == "" then [] else [text]
    ensures Shown(ApplyAll(v, log).bubbles, id) == [] && id !in ApplyAll(v, log).active
  {
    EmitIsStream(id, text, size);
    var chunks := Emit(id, text, size);
    assert chunks[..|chunks|] == chunks;
    if text != "" {
      ViewProgress(v, log, id, assistant, chunks, text, |chunks|);
    } else {
      assert forall c :: c in chunks ==> c.piece == "";
      forall i | 0 <= i < |log| && log[i].Piece? && log[i].c.id == id ensures log[i].c.piece == "" {
        MemberOfChunks(log, id, i);
      }
      EmptyShowsNothing(v, log, id);
    }
  }
}
