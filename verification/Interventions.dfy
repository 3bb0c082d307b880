/** Questions to the user about single nodes: asking, answering, expiring. */
module Interventions {
  import opened Common
  import opened Legacy

  datatype Kind = Question | ConfirmCancel

  datatype QuestionType = Input | Select | Confirm

  datatype AnswerState = Unanswered | Resolved | Expired

  datatype Intervention = Intervention(node: string, kind: Kind, qtype: QuestionType, options: seq<string>,
                                       multi: bool, state: AnswerState)

  type Book = map<string, Intervention>

  /** A typed answer: a string, a list of options, or a boolean. */
  datatype Reply = Text(text: string) | Choices(choices: seq<string>) | Flag(flag: bool)

  const ACTIVE := {Submitted, Working}
  const PENDING := {Pending, Ready, Recover}
  const TERMINAL := {Completed, NodeStatus.Failed, Canceled, Invalidated}
  const WHITESPACE := " \t\n\r\U{0b}\U{0c}"

  predicate Blank(text: string) {
    forall c :: c in text ==> c in WHITESPACE
  }

  /** _validate_answer returns no error. */
  predicate ValidReply(iv: Intervention, reply: Reply) {
    match iv.qtype
    case Select =>
      if iv.multi then reply.Choices? && reply.choices != [] && forall c :: c in reply.choices ==> c in iv.options
      else reply.Text? && reply.text in iv.options
    case Confirm => reply.Flag?
    case Input => reply.Text? && !Blank(reply.text)
  }

  predicate Waits(book: Book, k: string, node: string) {
    k in book && book[k].node == node && book[k].state == Unanswered
  }

  predicate PendingFor(book: Book, node: string) {
    exists k :: k in book && Waits(book, k, node)
  }

  /** The target no longer waits for this answer. */
  predicate Stale(nodes: Nodes, iv: Intervention) {
    || iv.node !in nodes
    || (iv.kind == ConfirmCancel && nodes[iv.node].status !in ACTIVE)
    || (iv.kind == Question && nodes[iv.node].status != InputRequired)
  }

  /** Expire what is unanswered and stale, among the questions about the given nodes. */
  function ExpireAmong(nodes: Nodes, book: Book, about: set<string>): Book {
    map k | k in book ::
      if book[k].node in about && book[k].state == Unanswered && Stale(nodes, book[k]) then book[k].(state := Expired)
      else book[k]
  }

  /** normalize_interventions: the same, for questions about any node. */
  function Normalize(nodes: Nodes, book: Book): Book {
    map k | k in book ::
      if book[k].state == Unanswered && Stale(nodes, book[k]) then book[k].(state := Expired) else book[k]
  }

  /** request_user_input: nothing happens while the node has a pending question. */
  function Request(book: Book, k: string, iv: Intervention): Book {
    if PendingFor(book, iv.node) then book else book[k := iv]
  }

  function SetState(book: Book, k: string, to: AnswerState): Book
    requires k in book
  {
    book[k := book[k].(state := to)]
  }

  // ---- cancelling a node ----

  /** blocked_nodes: pending with a dependency that ended, in whatever way. */
  predicate Blocked(nodes: Nodes, id: string) {
    && id in nodes && nodes[id].status == Pending
    && exists d :: d in nodes[id].deps && d in nodes && nodes[d].status in TERMINAL
  }

  function BlockedSet(nodes: Nodes): set<string> {
    set id | id in nodes && Blocked(nodes, id)
  }

  /** The node is cancelled and what is then blocked is invalidated. */
  function Cancel(nodes: Nodes, id: string): Nodes
    requires id in nodes
  {
    var moved := Move(nodes, id, Canceled);
    InvalidateAll(moved, BlockedSet(moved))
  }

  // ---- answering ----

  /** What a holder of the session lock still has to do once its await returns. */
  datatype Held = Readying(node: string) | Cancelling(node: string, expires: bool)

  datatype Accepted = Accepted(book: Book, resolved: bool, held: Option<Held>)

  /** answer_intervention up to its await: the entry is closed, the node is not yet touched. */
  function Accept(nodes: Nodes, book: Book, k: string, reply: Reply): Accepted {
    if k !in book || book[k].state != Unanswered || !ValidReply(book[k], reply) then Accepted(book, false, None)
    else if Stale(nodes, book[k]) then Accepted(SetState(book, k, Expired), false, None)
    else
      Accepted(SetState(book, k, Resolved), true,
               if book[k].kind == Question then Some(Readying(book[k].node))
               else if reply == Flag(true) then Some(Cancelling(book[k].node, true))
               else None)
  }

  datatype Resumed = Resumed(nodes: Nodes, book: Book, refused: bool)

  /** The rest, on the nodes as they are by then; refused stands for the InvalidTransition that is raised. */
  function Resume(nodes: Nodes, book: Book, held: Held): Resumed {
    var id := held.node;
    if id !in nodes || !CanTransition(nodes[id].status, if held.Readying? then Ready else Canceled)
    then Resumed(nodes, book, true)
    else match held
      case Readying(_) => Resumed(Move(nodes, id, Ready), book, false)
      case Cancelling(_, expires) =>
        var nodes' := Cancel(nodes, id);
        Resumed(nodes', if expires then ExpireAmong(nodes', book, {id} + BlockedSet(Move(nodes, id, Canceled)))
                        else book, false)
  }

  // ---- what these keep ----

  /** At most one pending question per node. */
  ghost predicate OnePending(book: Book) {
    forall j, k, node :: Waits(book, j, node) && Waits(book, k, node) ==> j == k
  }

  /** A pending question is about a node that waits for input. */
  ghost predicate QuestionsWait(nodes: Nodes, book: Book) {
    forall k :: k in book && book[k].state == Unanswered && book[k].kind == Question ==>
      book[k].node in nodes && nodes[book[k].node].status == InputRequired
  }

  /** No entry disappears, and only unanswered entries change, in their state alone. */
  ghost predicate OnlyCloses(book0: Book, book1: Book) {
    forall k :: k in book0 ==>
      && k in book1 && book1[k] == book0[k].(state := book1[k].state)
      && (book0[k].state != Unanswered ==> book1[k].state == book0[k].state)
  }

  lemma ExpiringOnlyCloses(nodes: Nodes, book: Book, about: set<string>)
    ensures OnlyCloses(book, ExpireAmong(nodes, book, about)) && OnlyCloses(book, Normalize(nodes, book))
    ensures OnePending(book) ==> OnePending(ExpireAmong(nodes, book, about)) && OnePending(Normalize(nodes, book))
  {
    var a, b := ExpireAmong(nodes, book, about), Normalize(nodes, book);
    forall k, node | Waits(a, k, node) || Waits(b, k, node) ensures Waits(book, k, node) {
    }
  }

  lemma RequestKeepsOnePending(book: Book, k: string, iv: Intervention)
    requires OnePending(book) && k !in book
    ensures OnePending(Request(book, k, iv)) && OnlyCloses(book, Request(book, k, iv))
    ensures iv.state == Unanswered ==> PendingFor(Request(book, k, iv), iv.node)
  {
    var r := Request(book, k, iv);
    if !PendingFor(book, iv.node) {
      forall i, j, node | Waits(r, i, node) && Waits(r, j, node) ensures i == j {
        assert i != k ==> Waits(book, i, node);
        assert j != k ==> Waits(book, j, node);
      }
      assert iv.state == Unanswered ==> Waits(r, k, iv.node);
    }
  }

  /** After a normalization no pending entry is stale, and a second one changes nothing. */
  lemma NormalizeIsIdempotent(nodes: Nodes, book: Book)
    ensures var n := Normalize(nodes, book);
            && Normalize(nodes, n) == n
            && (forall k :: k in n && n[k].state == Unanswered ==> k in book && book[k] == n[k] && !Stale(nodes, n[k]))
            && (forall k :: k in book && !(book[k].state == Unanswered && Stale(nodes, book[k])) ==>
                k in n && n[k] == book[k])
            && QuestionsWait(nodes, n)
  {
  }

  lemma SetStateKeepsOnePending(book: Book, k: string, to: AnswerState)
    requires k in book && book[k].state == Unanswered && to != Unanswered && OnePending(book)
    ensures OnePending(SetState(book, k, to)) && OnlyCloses(book, SetState(book, k, to))
  {
    var b := SetState(book, k, to);
    forall j, node | Waits(b, j, node) ensures Waits(book, j, node) && j != k {
    }
  }

  lemma CancelOnly(nodes: Nodes, id: string)
    requires id in nodes
    ensures Cancel(nodes, id).Keys == nodes.Keys
    ensures forall n :: n in nodes && n != id && nodes[n].status != Pending ==> Cancel(nodes, id)[n] == nodes[n]
    ensures Cancel(nodes, id)[id] == nodes[id].(status := Canceled)
  {
  }

  /** Once an entry is closed, nothing pending is left about its node. */
  lemma ClosedFrees(book: Book, k: string, to: AnswerState)
    requires OnePending(book) && k in book && book[k].state == Unanswered && to != Unanswered
    ensures OnePending(SetState(book, k, to)) && OnlyCloses(book, SetState(book, k, to))
    ensures !PendingFor(SetState(book, k, to), book[k].node)
  {
    var closed, node := SetState(book, k, to), book[k].node;
    SetStateKeepsOnePending(book, k, to);
    assert Waits(book, k, node);
    forall j | j in closed ensures !Waits(closed, j, node) {
      assert j != k ==> (Waits(closed, j, node) <==> Waits(book, j, node));
    }
  }

  /** Accepting an answer keeps the discipline, closes one entry at most, and leaves nothing pending about the
      node it goes on to move; it resolves exactly the pending, well-typed and still wanted answers. */
  lemma AcceptKeepsDiscipline(nodes: Nodes, book: Book, k: string, reply: Reply)
    requires OnePending(book)
    ensures var a := Accept(nodes, book, k, reply);
            && OnePending(a.book) && OnlyCloses(book, a.book)
            && (QuestionsWait(nodes, book) ==> QuestionsWait(nodes, a.book))
            && (a.resolved <==>
                k in book && book[k].state == Unanswered && ValidReply(book[k], reply) && !Stale(nodes, book[k]))
            && (a.resolved ==> k in a.book && a.book[k].state == Resolved)
            && (a.held.Some? ==> a.resolved && a.held.value.node in nodes && !PendingFor(a.book, a.held.value.node))
  {
    if k in book && book[k].state == Unanswered {
      ClosedFrees(book, k, Expired);
      ClosedFrees(book, k, Resolved);
    }
  }

  lemma ResumeKeepsBook(nodes: Nodes, book: Book, held: Held)
    requires OnePending(book)
    ensures OnePending(Resume(nodes, book, held).book) && OnlyCloses(book, Resume(nodes, book, held).book)
  {
    if held.node in nodes {
      ExpiringOnlyCloses(Cancel(nodes, held.node), book, {held.node} + BlockedSet(Move(nodes, held.node, Canceled)));
    }
  }

  lemma ExpiringKeepsWaiting(nodes: Nodes, book: Book, about: set<string>)
    requires QuestionsWait(nodes, book)
    ensures QuestionsWait(nodes, ExpireAmong(nodes, book, about))
  {
  }

  /** Moving a node nothing pending is about leaves every question with its waiting node. */
  lemma FreeNodeMoves(nodes: Nodes, moved: Nodes, book: Book, id: string)
    requires QuestionsWait(nodes, book) && !PendingFor(book, id)
    requires forall n :: n in nodes && n != id && nodes[n].status == InputRequired ==>
               n in moved && moved[n] == nodes[n]
    ensures QuestionsWait(moved, book)
  {
    forall k | k in book && book[k].state == Unanswered ensures book[k].node != id {
      assert Waits(book, k, book[k].node);
    }
  }

  /** Whatever became of the node during the await, resuming keeps the discipline. */
  lemma ResumeKeepsDiscipline(nodes: Nodes, book: Book, held: Held)
    requires OnePending(book) && QuestionsWait(nodes, book) && !PendingFor(book, held.node)
    ensures var r := Resume(nodes, book, held);
            OnePending(r.book) && QuestionsWait(r.nodes, r.book) && OnlyCloses(book, r.book)
  {
    ResumeKeepsBook(nodes, book, held);
    var r, id := Resume(nodes, book, held), held.node;
    if !r.refused {
      if held.Readying? {
        FreeNodeMoves(nodes, r.nodes, book, id);
      } else {
        CancelOnly(nodes, id);
        FreeNodeMoves(nodes, r.nodes, book, id);
        ExpiringKeepsWaiting(r.nodes, book, {id} + BlockedSet(Move(nodes, id, Canceled)));
      }
    }
  }

  /** An accepted answer is refused exactly when its node has left the statuses it could be moved from; if
      nothing happened during the await it takes effect. */
  lemma RefusedExactly(nodes: Nodes, book: Book, k: string, reply: Reply, later: Nodes)
    requires Accept(nodes, book, k, reply).held.Some?
    ensures var a, h := Accept(nodes, book, k, reply), Accept(nodes, book, k, reply).held.value;
            && (Resume(later, a.book, h).refused <==>
                  h.node !in later
                  || later[h.node].status in TERMINAL - (if h.Cancelling? then {Canceled} else {})
                  || (h.Readying? && later[h.node].status in {Submitted, Working, Recover}))
            && !Resume(nodes, a.book, h).refused
  {
  }

  // ---- the steps, entry by entry and node by node ----

  /** The question no longer has anyone to answer it for: its node is gone, or moved on. */
  ghost predicate Outdated(nodes: Nodes, iv: Intervention) {
    iv.node in nodes ==>
      match iv.kind
      case Question => nodes[iv.node].status != InputRequired
      case ConfirmCancel => nodes[iv.node].status != Submitted && nodes[iv.node].status != Working
  }

  lemma OutdatedMeans(nodes: Nodes, iv: Intervention)
    ensures Outdated(nodes, iv) <==> Stale(nodes, iv)
  {
  }

  /** Expiring closes exactly the outdated pending entries about the given nodes. */
  lemma ExpiresExactly(nodes: Nodes, book: Book, about: set<string>)
    ensures ExpireAmong(nodes, book, about).Keys == book.Keys
    ensures forall k :: k in book ==>
              ExpireAmong(nodes, book, about)[k]
              == if book[k].node in about && book[k].state == Unanswered && Outdated(nodes, book[k])
                 then book[k].(state := Expired) else book[k]
  {
    forall k | k in book ensures Outdated(nodes, book[k]) <==> Stale(nodes, book[k]) {
      OutdatedMeans(nodes, book[k]);
    }
  }

  lemma NormalizesExactly(nodes: Nodes, book: Book)
    ensures Normalize(nodes, book).Keys == book.Keys
    ensures forall k :: k in book ==>
              Normalize(nodes, book)[k] == if book[k].state == Unanswered && Outdated(nodes, book[k])
                                           then book[k].(state := Expired) else book[k]
  {
    forall k | k in book ensures Outdated(nodes, book[k]) <==> Stale(nodes, book[k]) {
      OutdatedMeans(nodes, book[k]);
    }
  }

  /** Asking enters the question as it is, unless one about the node is pending. */
  lemma RequestsExactly(book: Book, k: string, iv: Intervention)
    ensures (exists j :: j in book && book[j].node == iv.node && book[j].state == Unanswered) ==>
              Request(book, k, iv) == book
    ensures (forall j :: j in book && book[j].node == iv.node ==> book[j].state != Unanswered) ==>
              Request(book, k, iv) == book[k := iv]
  {
    if j :| j in book && book[j].node == iv.node && book[j].state == Unanswered {
      assert Waits(book, j, iv.node);
    }
  }

  /** Cancelling a node invalidates the pending nodes that have it or another ended node among their dependencies. */
  lemma CancelsExactly(nodes: Nodes, id: string)
    requires id in nodes
    ensures var n1 := Cancel(nodes, id);
            n1.Keys == nodes.Keys && forall n :: n in nodes ==>
              n1[n] == if n == id then nodes[n].(status := Canceled)
                       else if nodes[n].status == Pending
                               && exists d :: d in nodes[n].deps && d in nodes
                                    && (d == id || nodes[d].status in {Completed, NodeStatus.Failed, Canceled,
                                                                       Invalidated})
                       then nodes[n].(status := Invalidated)
                       else nodes[n]
  {
  }

  ghost predicate OnlySpace(text: string) {
    forall i :: 0 <= i < |text| ==> text[i] in " \t\n\r\U{0b}\U{0c}"
  }

  /** Single choices must be offered, several must be offered and be some, a confirmation is a truth value, and a
      text must have a character that is not white space. */
  lemma ValidRepliesExactly(iv: Intervention, reply: Reply)
    ensures iv.qtype == Select && iv.multi ==>
              (ValidReply(iv, reply) <==>
                 reply.Choices? && |reply.choices| > 0
                 && forall i :: 0 <= i < |reply.choices| ==> reply.choices[i] in iv.options)
    ensures iv.qtype == Select && !iv.multi ==>
              (ValidReply(iv, reply) <==> exists i :: 0 <= i < |iv.options| && reply == Text(iv.options[i]))
    ensures iv.qtype == Confirm ==> (ValidReply(iv, reply) <==> reply == Flag(true) || reply == Flag(false))
    ensures iv.qtype == Input ==>
              (ValidReply(iv, reply) <==> reply.Text? && !OnlySpace(reply.text))
  {
    if iv.qtype == Input && reply.Text? {
      BlankMeans(reply.text);
    }
  }

  lemma BlankMeans(text: string)
    ensures Blank(text) <==> OnlySpace(text)
  {
    if Blank(text) {
      forall i | 0 <= i < |text| ensures text[i] in " \t\n\r\U{0b}\U{0c}" {
        assert text[i] in text;
      }
    }
  }

  /** What an answer leads to: a question readies its node, a confirmed cancellation cancels it, a refused one does
      nothing more, and an outdated entry expires. */
  lemma AcceptsExactly(nodes: Nodes, book: Book, k: string, reply: Reply)
    ensures var a := Accept(nodes, book, k, reply);
            if k !in book || book[k].state != Unanswered || !ValidReply(book[k], reply)
            then a == Accepted(book, false, None)
            else if Outdated(nodes, book[k]) then a == Accepted(book[k := book[k].(state := Expired)], false, None)
            else
              && a.book == book[k := book[k].(state := Resolved)] && a.resolved
              && (book[k].kind == Question ==> a.held == Some(Readying(book[k].node)))
              && (book[k].kind == ConfirmCancel && reply == Flag(true) ==>
                  a.held == Some(Cancelling(book[k].node, true)))
              && (book[k].kind == ConfirmCancel && reply != Flag(true) ==> a.held == None)
  {
  }

  /** Unless it is refused, resuming readies the node, or cancels it and expires what that outdates. */
  lemma ResumesExactly(nodes: Nodes, book: Book, held: Held)
    ensures var r := Resume(nodes, book, held);
            && (r.refused ==> r.nodes == nodes && r.book == book)
            && (!r.refused ==>
                  && held.node in nodes
                  && (held.Readying? ==>
                      r.nodes == nodes[held.node := nodes[held.node].(status := Ready)] && r.book == book)
                  && (held.Cancelling? ==>
                        && r.nodes == Cancel(nodes, held.node)
                        && (!held.expires ==> r.book == book)
                        && (held.expires ==>
                              r.book == ExpireAmong(r.nodes, book,
                                                    {held.node} + set n | n in nodes && r.nodes[n] != nodes[n]))))
  {
    if held.node in nodes && held.Cancelling? {
      CancelsExactly(nodes, held.node);
      var moved := Move(nodes, held.node, Canceled);
      assert {held.node} + BlockedSet(moved)
          == {held.node} + set n | n in nodes && Cancel(nodes, held.node)[n] != nodes[n];
    }
  }

  // ---- the class ----

  class Desk {
    var nodes: Nodes
    var book: Book
    var held: Option<Held>

    method RequestUserInput(k: string, iv: Intervention) returns (created: bool)
      requires k !in book && iv.state == Unanswered
      modifies this`book
      ensures book == Request(old(book), k, iv) && created == !PendingFor(old(book), iv.node)
    {
      created := !PendingFor(book, iv.node);
      if created {
        book := book[k := iv];
      }
    }

    method ExpireNodeInterventions(node: string) returns (expired: set<string>)
      modifies this`book
      ensures book == ExpireAmong(nodes, old(book), {node})
      ensures expired == set k | k in old(book) && book[k] != old(book)[k]
    {
      ghost var was := book;
      ghost var goal := ExpireAmong(nodes, was, {node});
      var rest := book.Keys;
      expired := {};
      while rest != {}
        invariant rest <= was.Keys == book.Keys
        invariant forall k :: k in was ==> book[k] == if k in rest then was[k] else goal[k]
        invariant forall k :: k in expired <==> k in was && k !in rest && goal[k] != was[k]
      {
        var k :| k in rest;
        rest := rest - {k};
        if book[k].state == Unanswered && book[k].node == node && Stale(nodes, book[k]) {
          book := book[k := book[k].(state := Expired)];
          expired := expired + {k};
        }
      }
    }

    method NormalizeInterventions() returns (expired: set<string>)
      modifies this`book
      ensures book == Normalize(nodes, old(book))
      ensures expired == set k | k in old(book) && book[k] != old(book)[k]
    {
      ghost var was := book;
      ghost var goal := Normalize(nodes, was);
      var rest := book.Keys;
      expired := {};
      while rest != {}
        invariant rest <= was.Keys == book.Keys
        invariant forall k :: k in was ==> book[k] == if k in rest then was[k] else goal[k]
        invariant forall k :: k in expired <==> k in was && k !in rest && goal[k] != was[k]
      {
        var k :| k in rest;
        rest := rest - {k};
        if book[k].state == Unanswered && Stale(nodes, book[k]) {
          book := book[k := book[k].(state := Expired)];
          expired := expired + {k};
        }
      }
    }

    method Invalidate(ids: set<string>)
      modifies this`nodes
      ensures nodes == InvalidateAll(old(nodes), ids)
    {
      ghost var was := nodes;
      var rest := nodes.Keys * ids;
      while rest != {}
        invariant rest <= was.Keys * ids && nodes.Keys == was.Keys
        invariant forall n :: n in was ==>
                    nodes[n] == if n in ids && n !in rest then was[n].(status := Invalidated) else was[n]
      {
        var n :| n in rest;
        rest := rest - {n};
        nodes := Move(nodes, n, Invalidated);
      }
    }

    method ExpireAll(ids: set<string>)
      modifies this`book
      ensures book == ExpireAmong(nodes, old(book), ids)
    {
      ghost var was := book;
      var rest := ids;
      while rest != {}
        invariant rest <= ids
        invariant book == ExpireAmong(nodes, was, ids - rest)
      {
        var n :| n in rest;
        rest := rest - {n};
        var _ := ExpireNodeInterventions(n);
      }
    }

    /** cancel_node after the remote cancellation; false where InvalidTransition is raised. */
    method CancelNode(id: string) returns (ok: bool)
      modifies this`nodes, this`book
      ensures Resumed(nodes, book, !ok) == Resume(old(nodes), old(book), Cancelling(id, true))
    {
      if id !in nodes || !CanTransition(nodes[id].status, Canceled) {
        return false;
      }
      nodes := Move(nodes, id, Canceled);
      var blocked := BlockedSet(nodes);
      Invalidate(blocked);
      ExpireAll({id} + blocked);
      return true;
    }

    /** answer_intervention up to its first await. */
    method AcceptAnswer(k: string, reply: Reply) returns (resolved: bool)
      requires held.None?
      modifies this`book, this`held
      ensures Accepted(book, resolved, held) == Accept(nodes, old(book), k, reply)
    {
      if k !in book || book[k].state != Unanswered || !ValidReply(book[k], reply) {
        return false;
      }
      var iv := book[k];
      if iv.kind == ConfirmCancel {
        if iv.node !in nodes || nodes[iv.node].status !in ACTIVE {
          book := book[k := iv.(state := Expired)];
          return false;
        }
        book := book[k := iv.(state := Resolved)];
        if reply == Flag(true) {
          held := Some(Cancelling(iv.node, true));
        }
        return true;
      }
      if iv.node !in nodes || nodes[iv.node].status != InputRequired {
        book := book[k := iv.(state := Expired)];
        return false;
      }
      book := book[k := iv.(state := Resolved)];
      held := Some(Readying(iv.node));
      return true;
    }

    /** answer_intervention after its awaits. */
    method CompleteAnswer() returns (ok: bool)
      requires held.Some? && (held.value.Cancelling? ==> held.value.expires)
      modifies this
      ensures held.None? && Resumed(nodes, book, !ok) == Resume(old(nodes), old(book), old(held).value)
    {
      var id := held.value.node;
      if held.value.Cancelling? {
        ok := CancelNode(id);
      } else {
        ok := id in nodes && CanTransition(nodes[id].status, Ready);
        if ok {
          nodes := Move(nodes, id, Ready);
        }
      }
      held := None;
    }
  }
}
