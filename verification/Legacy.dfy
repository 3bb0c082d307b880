/** The legacy orchestrator's plan state: node statuses, the transition table, and plan patches. */
module Legacy {
  import opened Common
  import opened Digraph
  import Ids

  datatype NodeStatus =
    Pending | Ready | Submitted | Working | InputRequired | Recover | Completed | Failed | Canceled | Invalidated

  /** ALLOWED_TRANSITIONS. */
  function Allowed(s: NodeStatus): set<NodeStatus> {
    match s
    case Pending => {Ready, Submitted, InputRequired, Failed, Canceled, Invalidated}
    case Ready => {Submitted, InputRequired, Failed, Canceled, Invalidated}
    case Submitted => {Working, Completed, Failed, InputRequired, Canceled, Recover, Pending, Invalidated}
    case Working => {Submitted, Completed, Failed, InputRequired, Canceled, Recover, Pending, Invalidated}
    case Recover => {Submitted, Working, Completed, Failed, InputRequired, Canceled, Pending, Invalidated}
    case InputRequired => {Ready, Submitted, Failed, Canceled, Invalidated}
    case Failed => {Pending, Invalidated}
    case Completed => {}
    case Canceled => {}
    case Invalidated => {}
  }

  predicate CanTransition(s: NodeStatus, to: NodeStatus) {
    to == s || to in Allowed(s)
  }

  datatype Node = Node(agent: string, deps: seq<string>, status: NodeStatus, attempt: nat,
                       derived: bool, requestedBy: Option<string>, inputText: string)

  type Nodes = map<string, Node>

  function Move(nodes: Nodes, id: string, to: NodeStatus): Nodes
    requires id in nodes
  {
    nodes[id := nodes[id].(status := to)]
  }

  // ---- adding nodes ----

  datatype Draft = Draft(agent: string, instruction: string, deps: seq<string>)

  datatype Patch = Patch(add: seq<Draft>, invalidate: seq<string>)

  function PatchId(k: nat): string {
    "x" + Ids.Dec(k)
  }

  lemma PatchIdsDiffer(j: nat, k: nat)
    requires PatchId(j) == PatchId(k)
    ensures j == k
  {
    Ids.GeneratedIdsDiffer("x", j, "x", k);
  }

  /** Keys that a counter above count could still generate. */
  ghost function Taken(keys: set<string>, count: nat): set<string> {
    set id | id in keys && exists j: nat :: j > count && id == PatchId(j)
  }

  lemma TakenShrinks(keys: set<string>, count: nat)
    requires PatchId(count + 1) in keys
    ensures Taken(keys, count + 1) < Taken(keys, count)
  {
    assert PatchId(count + 1) in Taken(keys, count);
    if PatchId(count + 1) in Taken(keys, count + 1) {
      var j: nat :| j > count + 1 && PatchId(count + 1) == PatchId(j);
      PatchIdsDiffer(j, count + 1);
    }
  }

  /** The next counter value whose id is free. */
  function NextFree(keys: set<string>, count: nat): (k: nat)
    ensures k > count && PatchId(k) !in keys && forall j :: count < j < k ==> PatchId(j) in keys
    decreases Taken(keys, count)
  {
    if PatchId(count + 1) in keys then
      TakenShrinks(keys, count);
      NextFree(keys, count + 1)
    else count + 1
  }

  predicate Accepts(nodes: Nodes, d: Draft, known: set<string>) {
    d.agent in known && forall dep :: dep in d.deps ==> dep in nodes
  }

  function DraftNode(d: Draft): Node {
    Node(d.agent, d.deps, Pending, 0, true, None, d.instruction)
  }

  datatype Adding = Adding(nodes: Nodes, count: nat, added: seq<string>)

  function AddDraft(a: Adding, d: Draft, known: set<string>): Adding {
    if !Accepts(a.nodes, d, known) then a
    else
      var k := NextFree(a.nodes.Keys, a.count);
      Adding(a.nodes[PatchId(k) := DraftNode(d)], k, a.added + [PatchId(k)])
  }

  /** Accepted drafts become nodes, in order; later drafts may depend on earlier ones. */
  function AddDrafts(nodes: Nodes, count: nat, drafts: seq<Draft>, known: set<string>): Adding {
    if drafts == [] then Adding(nodes, count, [])
    else AddDraft(AddDrafts(nodes, count, drafts[..|drafts| - 1], known), drafts[|drafts| - 1], known)
  }

  /** Added ids are distinct and new, and nothing else about the old nodes changes. */
  lemma {:induction false} AddedIdsAreFresh(nodes: Nodes, count: nat, drafts: seq<Draft>, known: set<string>)
    ensures var a := AddDrafts(nodes, count, drafts, known);
            && Distinct(a.added)
            && (forall id :: id in a.added ==> id !in nodes && id in a.nodes && a.nodes[id].status == Pending)
            && a.nodes.Keys == nodes.Keys + (set id | id in a.added)
            && (forall id :: id in nodes ==> id in a.nodes && a.nodes[id] == nodes[id])
            && a.count >= count
  {
    if drafts != [] {
      AddedIdsAreFresh(nodes, count, drafts[..|drafts| - 1], known);
    }
  }

  /** The node of the id has the agent, the dependencies and the text of the k-th draft, and is pending. */
  ghost predicate DrawnAt(drafts: seq<Draft>, nodes1: Nodes, id: string, k: nat) {
    && k < |drafts| && id in nodes1
    && nodes1[id] == Node(drafts[k].agent, drafts[k].deps, Pending, 0, true, None, drafts[k].instruction)
  }

  /** Each added node is drawn from its draft. */
  ghost predicate DrawnFrom(drafts: seq<Draft>, nodes1: Nodes, added: seq<string>, at: seq<nat>) {
    && |at| == |added| && Ascending(at)
    && forall i :: 0 <= i < |at| ==> DrawnAt(drafts, nodes1, added[i], at[i])
  }

  /** The agent is known and each dependency is an old node or was added before. */
  ghost predicate Acceptable(nodes: Nodes, drafts: seq<Draft>, known: set<string>, added: seq<string>, at: seq<nat>,
                             k: nat)
    requires k < |drafts| && |at| == |added|
  {
    drafts[k].agent in known && forall d :: d in drafts[k].deps ==> Known(nodes, added, at, d, k)
  }

  /** What a patch adds: the acceptable drafts, in order, each with its own agent, dependencies and text. */
  ghost predicate AddsAccepted(nodes: Nodes, drafts: seq<Draft>, known: set<string>, nodes1: Nodes,
                               added: seq<string>, at: seq<nat>) {
    && DrawnFrom(drafts, nodes1, added, at)
    && forall k :: 0 <= k < |drafts| ==> (k in at <==> Acceptable(nodes, drafts, known, added, at, k))
  }

  /** d is an old node or was added by a draft before the k-th. */
  ghost predicate Known(nodes: Nodes, added: seq<string>, at: seq<nat>, d: string, k: nat)
    requires |at| == |added|
  {
    d in nodes || exists i :: 0 <= i < |at| && at[i] < k && added[i] == d
  }

  /** Added ids are x1, x2, and so on, each the next one that is free. */
  lemma {:induction false} AddedIdsCountUp(nodes: Nodes, count: nat, drafts: seq<Draft>, known: set<string>)
    returns (ks: seq<nat>)
    ensures var a := AddDrafts(nodes, count, drafts, known);
            && |ks| == |a.added| && Ascending(ks)
            && (forall i :: 0 <= i < |ks| ==> count < ks[i] <= a.count && a.added[i] == "x" + Ids.Dec(ks[i]))
            && a.count == if ks == [] then count else ks[|ks| - 1]
  {
    if drafts == [] {
      ks := [];
    } else {
      var front, d := drafts[..|drafts| - 1], drafts[|drafts| - 1];
      ks := AddedIdsCountUp(nodes, count, front, known);
      var a := AddDrafts(nodes, count, front, known);
      if Accepts(a.nodes, d, known) {
        ks := ks + [NextFree(a.nodes.Keys, a.count)];
      }
    }
  }

  lemma {:induction false} AddsExactly(nodes: Nodes, count: nat, drafts: seq<Draft>, known: set<string>)
    returns (at: seq<nat>)
    ensures var a := AddDrafts(nodes, count, drafts, known);
            AddsAccepted(nodes, drafts, known, a.nodes, a.added, at)
  {
    if drafts == [] {
      at := [];
    } else {
      var front, d := drafts[..|drafts| - 1], drafts[|drafts| - 1];
      at := AddsExactly(nodes, count, front, known);
      AddedIdsAreFresh(nodes, count, front, known);
      AddsOneMore(nodes, AddDrafts(nodes, count, front, known), front, d, known, at);
      assert drafts == front + [d];
      if Accepts(AddDrafts(nodes, count, front, known).nodes, d, known) {
        at := at + [|front|];
      }
    }
  }

  lemma KnownIsPresent(nodes: Nodes, nodes1: Nodes, drafts: seq<Draft>, added: seq<string>, at: seq<nat>, d: string)
    requires DrawnFrom(drafts, nodes1, added, at) && nodes1.Keys == nodes.Keys + set id | id in added
    ensures Known(nodes, added, at, d, |drafts|) <==> d in nodes1
  {
  }

  lemma KnownStays(nodes: Nodes, added: seq<string>, at: seq<nat>, id: string, last: nat, d: string, k: nat)
    requires |at| == |added| && k <= last
    ensures Known(nodes, added + [id], at + [last], d, k) <==> Known(nodes, added, at, d, k)
  {
    if Known(nodes, added, at, d, k) && d !in nodes {
      var i :| 0 <= i < |at| && at[i] < k && added[i] == d;
      assert (at + [last])[i] == at[i] && (added + [id])[i] == d;
    }
  }

  lemma AcceptableStays(nodes: Nodes, front: seq<Draft>, d: Draft, known: set<string>, added: seq<string>, at: seq<nat>,
                        id: string, k: nat)
    requires |at| == |added| && k <= |front|
    ensures Acceptable(nodes, front + [d], known, added + [id], at + [|front|], k)
            <==> Acceptable(nodes, front + [d], known, added, at, k)
    ensures k < |front| ==>
              (Acceptable(nodes, front + [d], known, added, at, k) <==> Acceptable(nodes, front, known, added, at, k))
  {
    forall dep ensures Known(nodes, added + [id], at + [|front|], dep, k) <==> Known(nodes, added, at, dep, k) {
      KnownStays(nodes, added, at, id, |front|, dep, k);
    }
  }

  lemma LastIsAcceptable(nodes: Nodes, a: Adding, front: seq<Draft>, d: Draft, known: set<string>, at: seq<nat>)
    requires DrawnFrom(front, a.nodes, a.added, at) && a.nodes.Keys == nodes.Keys + set id | id in a.added
    ensures Acceptable(nodes, front + [d], known, a.added, at, |front|) <==> Accepts(a.nodes, d, known)
  {
    forall dep ensures Known(nodes, a.added, at, dep, |front|) <==> dep in a.nodes {
      KnownIsPresent(nodes, a.nodes, front, a.added, at, dep);
    }
  }

  lemma AddsOneMore(nodes: Nodes, a: Adding, front: seq<Draft>, d: Draft, known: set<string>, at: seq<nat>)
    requires AddsAccepted(nodes, front, known, a.nodes, a.added, at)
    requires a.nodes.Keys == nodes.Keys + set id | id in a.added
    ensures var at1 := if Accepts(a.nodes, d, known) then at + [|front|] else at;
            AddsAccepted(nodes, front + [d], known, AddDraft(a, d, known).nodes, AddDraft(a, d, known).added, at1)
  {
    var drafts, b := front + [d], AddDraft(a, d, known);
    var at1 := if Accepts(a.nodes, d, known) then at + [|front|] else at;
    LastIsAcceptable(nodes, a, front, d, known, at);
    DrawOneMore(a, front, d, known, at);
    forall k | 0 <= k < |drafts| ensures k in at1 <==> Acceptable(nodes, drafts, known, b.added, at1, k) {
      AcceptableStays(nodes, front, d, known, a.added, at, PatchId(NextFree(a.nodes.Keys, a.count)), k);
      assert k in at + [|front|] <==> k in at || k == |front|;
    }
  }

  lemma DrawOneMore(a: Adding, front: seq<Draft>, d: Draft, known: set<string>, at: seq<nat>)
    requires DrawnFrom(front, a.nodes, a.added, at)
    ensures var at1 := if Accepts(a.nodes, d, known) then at + [|front|] else at;
            DrawnFrom(front + [d], AddDraft(a, d, known).nodes, AddDraft(a, d, known).added, at1)
  {
    if Accepts(a.nodes, d, known) {
      DrawAccepted(a.nodes, a.added, front, d, at, PatchId(NextFree(a.nodes.Keys, a.count)));
    } else {
      forall i | 0 <= i < |at| ensures DrawnAt(front + [d], a.nodes, a.added[i], at[i]) {
        assert DrawnAt(front, a.nodes, a.added[i], at[i]);
      }
    }
  }

  lemma DrawAccepted(nodes: Nodes, added: seq<string>, front: seq<Draft>, d: Draft, at: seq<nat>, id: string)
    requires DrawnFrom(front, nodes, added, at) && id !in nodes
    ensures DrawnFrom(front + [d], nodes[id := DraftNode(d)], added + [id], at + [|front|])
  {
    var at1, added1 := at + [|front|], added + [id];
    forall i | 0 <= i < |at1| ensures DrawnAt(front + [d], nodes[id := DraftNode(d)], added1[i], at1[i]) {
      if i < |at| {
        assert DrawnAt(front, nodes, added[i], at[i]);
      }
    }
    forall i | 0 <= i < |at| ensures at[i] < |front| {
      assert DrawnAt(front, nodes, added[i], at[i]);
    }
  }

  // ---- invalidating nodes ----

  const INVALIDATABLE := {Pending, Ready, Recover, Failed}

  predicate Open(nodes: Nodes, id: string) {
    id in nodes && nodes[id].status in INVALIDATABLE
  }

  /** (d, n): invalidating d drags n along. */
  ghost function Drags(nodes: Nodes): Graph {
    set n, d | n in nodes && d in nodes[n].deps && Open(nodes, n) && Open(nodes, d) :: (d, n)
  }

  ghost predicate Dragged(nodes: Nodes, requested: seq<string>, n: string) {
    exists r :: r in requested && Open(nodes, r) && Reaches(Drags(nodes), r, n)
  }

  /** The requested open nodes and everything that reaches one through chains of open dependencies. */
  ghost function Closure(nodes: Nodes, requested: seq<string>): set<string> {
    set n | n in nodes && Open(nodes, n) && Dragged(nodes, requested, n)
  }

  function InvalidateAll(nodes: Nodes, s: set<string>): Nodes {
    map id | id in nodes :: if id in s then nodes[id].(status := Invalidated) else nodes[id]
  }

  /** Each node of the chain may be invalidated, and each depends on the one before it. */
  ghost predicate DependencyChain(nodes: Nodes, c: seq<string>) {
    && c != []
    && (forall i :: 0 <= i < |c| ==>
          c[i] in nodes && (nodes[c[i]].status == Pending || nodes[c[i]].status == Ready
                            || nodes[c[i]].status == Recover || nodes[c[i]].status == Failed))
    && forall i {:trigger c[i + 1]} :: 0 <= i < |c| - 1 ==> c[i] in nodes[c[i + 1]].deps
  }

  /** A patch invalidates what depends, through a chain, on a requested node, and nothing else.  Nodes in flight,
      nodes that wait for the user and nodes that have ended are spared and pass nothing on. */
  lemma InvalidatesExactly(nodes: Nodes, requested: seq<string>, n: string)
    ensures n in Closure(nodes, requested)
            <==> exists c :: DependencyChain(nodes, c) && c[0] in requested && c[|c| - 1] == n
  {
    if n in Closure(nodes, requested) {
      var r :| r in requested && Open(nodes, r) && Reaches(Drags(nodes), r, n);
      var c :| IsWalk(Drags(nodes), c) && c[0] == r && c[|c| - 1] == n;
      WalkIsChain(nodes, c);
    }
    if c :| DependencyChain(nodes, c) && c[0] in requested && c[|c| - 1] == n {
      forall i | 0 <= i < |c| - 1 ensures (c[i], c[i + 1]) in Drags(nodes) {
        assert c[i] in nodes[c[i + 1]].deps;
      }
      assert Reaches(Drags(nodes), c[0], n);
    }
  }

  lemma WalkIsChain(nodes: Nodes, c: seq<string>)
    requires IsWalk(Drags(nodes), c) && Open(nodes, c[0])
    ensures DependencyChain(nodes, c)
  {
    forall i | 0 <= i < |c| ensures Open(nodes, c[i]) {
      assert i > 0 ==> (c[i - 1], c[i]) in Drags(nodes);
    }
    forall i | 0 <= i < |c| - 1 ensures c[i] in nodes[c[i + 1]].deps {
      assert (c[i], c[i + 1]) in Drags(nodes);
    }
  }

  lemma RequestedIsInClosure(nodes: Nodes, requested: seq<string>, r: string)
    requires r in requested && Open(nodes, r)
    ensures r in Closure(nodes, requested)
  {
    ReachesSelf(Drags(nodes), r);
  }

  lemma DraggedIsInClosure(nodes: Nodes, requested: seq<string>, d: string, n: string)
    requires d in Closure(nodes, requested) && Open(nodes, n) && d in nodes[n].deps
    ensures n in Closure(nodes, requested)
  {
    var r :| r in requested && Open(nodes, r) && Reaches(Drags(nodes), r, d);
    ReachesStep(Drags(nodes), r, d, n);
  }

  lemma CascadeIsClosure(nodes: Nodes, requested: seq<string>, s: set<string>)
    requires Absorbs(nodes, s) && s <= Closure(nodes, requested)
    requires forall r :: r in requested && Open(nodes, r) ==> r in s
    ensures s == Closure(nodes, requested)
  {
    ClosedContainsClosure(nodes, requested, s);
  }

  lemma PassSeesOpenNodes(start: Nodes, s: set<string>, invalidated: seq<string>, n: string, d: string)
    requires Open(start, n) && d in start[n].deps && d in invalidated && s == set id | id in invalidated
    ensures var nodes := InvalidateAll(start, s);
            n in s || (n in nodes && nodes[n].status in INVALIDATABLE && DependsOnAny(nodes[n], invalidated))
  {
  }

  predicate DependsOnAny(n: Node, ids: seq<string>) {
    exists d :: d in n.deps && d in ids
  }

  /** Whatever is open and depends on a member is a member. */
  ghost predicate Absorbs(nodes: Nodes, s: set<string>) {
    forall n, d :: Open(nodes, n) && d in nodes[n].deps && d in s ==> n in s
  }

  lemma ClosureAbsorbs(nodes: Nodes, requested: seq<string>)
    ensures Absorbs(nodes, Closure(nodes, requested))
    ensures forall r :: r in requested && Open(nodes, r) ==> r in Closure(nodes, requested)
  {
    forall n, d | Open(nodes, n) && d in nodes[n].deps && d in Closure(nodes, requested)
      ensures n in Closure(nodes, requested)
    {
      DraggedIsInClosure(nodes, requested, d, n);
    }
    forall r | r in requested && Open(nodes, r) ensures r in Closure(nodes, requested) {
      RequestedIsInClosure(nodes, requested, r);
    }
  }

  /** A set with the requested nodes that drags nothing further along contains the closure. */
  lemma ClosedContainsClosure(nodes: Nodes, requested: seq<string>, s: set<string>)
    requires forall r :: r in requested && Open(nodes, r) ==> r in s
    requires Absorbs(nodes, s)
    ensures Closure(nodes, requested) <= s
  {
    forall n | n in Closure(nodes, requested) ensures n in s {
      var r :| r in requested && Open(nodes, r) && Reaches(Drags(nodes), r, n);
      var p :| IsWalk(Drags(nodes), p) && p[0] == r && p[|p| - 1] == n;
      ClosedSetKeepsWalks(Drags(nodes), s, p);
    }
  }

  // ---- the class ----

  class PlanState {
    var nodes: Nodes
    var patchCount: nat

    /** apply_transition; an InvalidTransition would be raised where the precondition fails. */
    method Transition(id: string, to: NodeStatus)
      requires id in nodes && CanTransition(nodes[id].status, to)
      modifies this`nodes
      ensures nodes == Move(old(nodes), id, to)
    {
      nodes := nodes[id := nodes[id].(status := to)];
    }

    /** apply_patch: add the accepted drafts, then invalidate the requested nodes and cascade. */
    method ApplyPatch(patch: Patch, known: set<string>) returns (added: seq<string>, invalidated: seq<string>)
      modifies this
      ensures var a := AddDrafts(old(nodes), old(patchCount), patch.add, known);
              && added == a.added && patchCount == a.count
              && nodes == InvalidateAll(a.nodes, Closure(a.nodes, patch.invalidate))
              && Distinct(invalidated)
              && forall id :: id in invalidated <==> id in Closure(a.nodes, patch.invalidate)
    {
      added := AddNodes(patch.add, known);
      invalidated := InvalidateClosure(patch.invalidate);
    }

    method InvalidateClosure(requested: seq<string>) returns (invalidated: seq<string>)
      modifies this`nodes
      ensures nodes == InvalidateAll(old(nodes), Closure(old(nodes), requested))
      ensures nodes.Keys == old(nodes).Keys && forall n :: n in old(nodes) ==>
                nodes[n] == if n in Closure(old(nodes), requested) then old(nodes)[n].(status := Invalidated)
                            else old(nodes)[n]
      ensures Distinct(invalidated) && forall id :: id in invalidated <==> id in Closure(old(nodes), requested)
    {
      ghost var start := nodes;
      invalidated := InvalidateRequested(requested);
      ClosureAbsorbs(start, requested);
      invalidated := Cascade(start, Closure(start, requested), invalidated);
      CascadeIsClosure(start, requested, set id | id in invalidated);
    }

    method AddNodes(drafts: seq<Draft>, known: set<string>) returns (added: seq<string>)
      modifies this
      ensures Adding(nodes, patchCount, added) == AddDrafts(old(nodes), old(patchCount), drafts, known)
    {
      added := [];
      for i := 0 to |drafts|
        invariant Adding(nodes, patchCount, added) == AddDrafts(old(nodes), old(patchCount), drafts[..i], known)
      {
        assert drafts[..i + 1][..i] == drafts[..i];
        var d := drafts[i];
        if d.agent !in known || exists dep :: dep in d.deps && dep !in nodes {
          continue;
        }
        ghost var k := NextFree(nodes.Keys, patchCount);
        patchCount := patchCount + 1;
        while PatchId(patchCount) in nodes
          invariant patchCount >= 1 && NextFree(nodes.Keys, patchCount - 1) == k
          invariant nodes == AddDrafts(old(nodes), old(patchCount), drafts[..i], known).nodes
          decreases Taken(nodes.Keys, patchCount - 1)
        {
          TakenShrinks(nodes.Keys, patchCount - 1);
          patchCount := patchCount + 1;
        }
        nodes := nodes[PatchId(patchCount) := DraftNode(d)];
        added := added + [PatchId(patchCount)];
      }
      assert drafts[..|drafts|] == drafts;
    }

    /** Open requested nodes are invalidated at once; others are skipped. */
    method InvalidateRequested(requested: seq<string>) returns (invalidated: seq<string>)
      modifies this`nodes
      ensures nodes == InvalidateAll(old(nodes), set id | id in invalidated)
      ensures Distinct(invalidated)
      ensures forall id :: id in invalidated <==> id in requested && Open(old(nodes), id)
    {
      invalidated := [];
      for i := 0 to |requested|
        invariant nodes == InvalidateAll(old(nodes), set id | id in invalidated)
        invariant Distinct(invalidated)
        invariant forall id :: id in invalidated <==>
                    (exists j :: 0 <= j < i && requested[j] == id) && Open(old(nodes), id)
      {
        var id := requested[i];
        if id in nodes && nodes[id].status in INVALIDATABLE {
          assert id !in invalidated;
          Transition(id, Invalidated);
          invalidated := invalidated + [id];
        }
      }
    }

    /** Repeat passes over all nodes until a pass invalidates nothing. */
    method Cascade(ghost start: Nodes, ghost closure: set<string>, invalidated0: seq<string>)
      returns (invalidated: seq<string>)
      requires nodes == InvalidateAll(start, set id | id in invalidated0) && Distinct(invalidated0)
      requires forall id :: id in invalidated0 ==> id in closure
      requires Absorbs(start, closure)
      modifies this`nodes
      ensures nodes == InvalidateAll(start, set id | id in invalidated) && Distinct(invalidated)
      ensures forall id :: id in invalidated ==> id in closure
      ensures forall id :: id in invalidated0 ==> id in invalidated
      ensures Absorbs(start, set id | id in invalidated)
    {
      invalidated := invalidated0;
      while true
        invariant nodes == InvalidateAll(start, set id | id in invalidated) && Distinct(invalidated)
        invariant forall id :: id in invalidated0 ==> id in invalidated
        invariant forall id :: id in invalidated ==> id in closure
        decreases closure - set id | id in invalidated
      {
        var cascaded := set n | n in nodes && nodes[n].status in INVALIDATABLE && DependsOnAny(nodes[n], invalidated);
        forall n | n in cascaded ensures Open(start, n) && n in closure && n !in invalidated {
          var d :| d in nodes[n].deps && d in invalidated;
        }
        if cascaded == {} {
          forall n, d | Open(start, n) && d in start[n].deps && d in (set id | id in invalidated)
            ensures n in (set id | id in invalidated)
          {
            PassSeesOpenNodes(start, (set id | id in invalidated), invalidated, n, d);
            assert n !in cascaded;
          }
          break;
        }
        var n :| n in cascaded;
        assert n in closure - set id | id in invalidated;
        invalidated := InvalidateEach(start, invalidated, cascaded);
      }
    }

    method InvalidateEach(ghost start: Nodes, invalidated0: seq<string>, cascaded: set<string>)
      returns (invalidated: seq<string>)
      requires nodes == InvalidateAll(start, set id | id in invalidated0) && Distinct(invalidated0)
      requires forall n :: n in cascaded ==> Open(start, n) && n !in invalidated0
      modifies this`nodes
      ensures nodes == InvalidateAll(start, set id | id in invalidated) && Distinct(invalidated)
      ensures forall id :: id in invalidated <==> id in invalidated0 || id in cascaded
    {
      invalidated := invalidated0;
      var rest := cascaded;
      while rest != {}
        invariant rest <= cascaded
        invariant nodes == InvalidateAll(start, set id | id in invalidated) && Distinct(invalidated)
        invariant forall id :: id in invalidated <==> id in invalidated0 || id in cascaded - rest
      {
        var n :| n in rest;
        Transition(n, Invalidated);
        invalidated := invalidated + [n];
        rest := rest - {n};
      }
    }
  }
}
