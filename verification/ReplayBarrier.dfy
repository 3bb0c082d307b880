/** Replaying recorded node runs in their original order. */
module ReplayBarrier {
  import opened Common

  type Path = seq<string>

  // ---- scanning the recorded events ----

  datatype Event = Event(path: Path, outputFor: seq<Path>, terminal: bool)

  predicate IsDescendant(path: Path, base: Path) {
    |path| > |base| && path[..|base|] == base
  }

  /** The event ends the run of a direct child of base. */
  predicate Counts(e: Event, base: Path, strict: bool) {
    && IsDescendant(e.path, base)
    && (strict ==> |e.path| == |base| + 1)
    && (|e.path| == |base| + 1 || e.path[..|base| + 1] in e.outputFor)
    && e.terminal
  }

  predicate CountsFor(e: Event, base: Path, strict: bool, segment: string) {
    Counts(e, base, strict) && e.path[|base|] == segment
  }

  /** x ends for the first time before y does. */
  ghost predicate EndsBefore(events: seq<Event>, base: Path, strict: bool, x: string, y: string) {
    exists a :: 0 <= a < |events| && CountsFor(events[a], base, strict, x)
      && forall b :: 0 <= b <= a ==> !CountsFor(events[b], base, strict, y)
  }

  /** sequence lists every segment that ends, once each, by first end. */
  ghost predicate IsRecorded(events: seq<Event>, base: Path, strict: bool, sequence: seq<string>) {
    && Distinct(sequence)
    && (forall s :: s in sequence <==> exists a :: 0 <= a < |events| && CountsFor(events[a], base, strict, s))
    && (forall i, j :: 0 <= i < j < |sequence| ==> EndsBefore(events, base, strict, sequence[i], sequence[j]))
  }

  lemma AppendRecorded(events: seq<Event>, base: Path, strict: bool, sequence: seq<string>, e: Event)
    requires IsRecorded(events, base, strict, sequence)
    ensures !Counts(e, base, strict) || e.path[|base|] in sequence ==> IsRecorded(events + [e], base, strict, sequence)
    ensures Counts(e, base, strict) && e.path[|base|] !in sequence ==>
              IsRecorded(events + [e], base, strict, sequence + [e.path[|base|]])
  {
    var all := events + [e];
    forall x, y | EndsBefore(events, base, strict, x, y) ensures EndsBefore(all, base, strict, x, y) {
      var a :| 0 <= a < |events| && CountsFor(events[a], base, strict, x)
        && forall b :: 0 <= b <= a ==> !CountsFor(events[b], base, strict, y);
      assert CountsFor(all[a], base, strict, x);
    }
    forall s | s in sequence ensures exists a :: 0 <= a < |all| && CountsFor(all[a], base, strict, s) {
      var a :| 0 <= a < |events| && CountsFor(events[a], base, strict, s);
      assert CountsFor(all[a], base, strict, s);
    }
    if Counts(e, base, strict) && e.path[|base|] !in sequence {
      var last := e.path[|base|];
      assert CountsFor(all[|events|], base, strict, last);
      forall x | x in sequence ensures EndsBefore(all, base, strict, x, last) {
        var a :| 0 <= a < |events| && CountsFor(events[a], base, strict, x);
        assert CountsFor(all[a], base, strict, x);
      }
    }
  }

  lemma NotBothFirst(events: seq<Event>, base: Path, strict: bool, x: string, y: string)
    ensures !(EndsBefore(events, base, strict, x, y) && EndsBefore(events, base, strict, y, x))
  {
    if EndsBefore(events, base, strict, x, y) {
      var a :| 0 <= a < |events| && CountsFor(events[a], base, strict, x)
        && forall b :: 0 <= b <= a ==> !CountsFor(events[b], base, strict, y);
      forall c | 0 <= c < |events| && CountsFor(events[c], base, strict, y) ensures c > a {
      }
    }
  }

  ghost predicate SameMembers(s: seq<string>, t: seq<string>) {
    forall x :: x in s <==> x in t
  }

  /** No two entries of s are in the opposite order in t. */
  ghost predicate NoInversion(s: seq<string>, t: seq<string>) {
    forall i, j, k, l :: 0 <= i < j < |s| && 0 <= k < l < |t| && s[i] == t[l] ==> s[j] != t[k]
  }

  lemma AgreeAt(s: seq<string>, t: seq<string>, i: nat)
    requires Distinct(s) && SameMembers(s, t) && NoInversion(s, t) && i < |s| && i <= |t|
    requires Distinct(t) && forall m :: 0 <= m < i ==> s[m] == t[m]
    ensures i < |t| && s[i] == t[i]
  {
    assert s[i] in s;
    var l :| 0 <= l < |t| && t[l] == s[i];
    assert l >= i;
    assert t[i] in t;
    var j :| 0 <= j < |s| && s[j] == t[i];
    assert j >= i;
  }

  lemma {:induction false} AgreeUpTo(s: seq<string>, t: seq<string>, i: nat)
    requires Distinct(s) && Distinct(t) && SameMembers(s, t) && NoInversion(s, t) && i <= |s|
    ensures i <= |t| && forall m :: 0 <= m < i ==> s[m] == t[m]
  {
    if i > 0 {
      AgreeUpTo(s, t, i - 1);
      AgreeAt(s, t, i - 1);
    }
  }

  /** The recorded order is unique, so IsRecorded says all there is to say. */
  lemma RecordedIsUnique(events: seq<Event>, base: Path, strict: bool, s: seq<string>, t: seq<string>)
    requires IsRecorded(events, base, strict, s) && IsRecorded(events, base, strict, t)
    ensures s == t
  {
    forall i, j, k, l | 0 <= i < j < |s| && 0 <= k < l < |t| && s[i] == t[l] ensures s[j] != t[k] {
      NotBothFirst(events, base, strict, s[i], s[j]);
      assert EndsBefore(events, base, strict, t[k], t[l]);
    }
    AgreeUpTo(s, t, |s|);
    AgreeUpTo(t, s, |t|);
  }

  /** _scan_sequence.  Its removal of an earlier entry never happens. */
  method ScanSequence(events: seq<Event>, base: Path, strict: bool) returns (sequence: seq<string>)
    ensures IsRecorded(events, base, strict, sequence)
  {
    sequence := [];
    var completed: set<string> := {};
    for i := 0 to |events|
      invariant completed == set s | s in sequence
      invariant IsRecorded(events[..i], base, strict, sequence)
    {
      var e := events[i];
      assert events[..i + 1] == events[..i] + [e];
      AppendRecorded(events[..i], base, strict, sequence, e);
      if !IsDescendant(e.path, base) {
        continue;
      }
      var child := e.path[..|base| + 1];
      if strict && e.path != child {
        continue;
      }
      if !(e.path == child || child in e.outputFor) || !e.terminal {
        continue;
      }
      var segment := child[|base|];
      if segment in completed {
        continue;
      }
      assert segment !in sequence;
      sequence := sequence + [segment];
      completed := completed + {segment};
    }
    assert events[..|events|] == events;
  }

  // ---- the barrier ----

  /** The entries that are unblocked when the first n of them have advanced. */
  function Unblocked(sequence: seq<string>, n: nat): set<string> {
    set i | 0 <= i <= n && i < |sequence| :: sequence[i]
  }

  /** Where an advance by key takes the index. */
  function Advance(sequence: seq<string>, index: nat, key: string): nat {
    if index < |sequence| && key == sequence[index] then index + 1 else index
  }

  class Barrier {
    const sequence: seq<string>
    var currentIndex: nat
    var events: map<string, bool>

    /** The unblocked keys are exactly the first currentIndex + 1 entries. */
    ghost predicate Valid()
      reads this
    {
      && currentIndex <= |sequence|
      && (forall k :: k in events <==> k in sequence)
      && (forall k :: k in events ==> (events[k] <==> k in Unblocked(sequence, currentIndex)))
    }

    constructor (sequence: seq<string>)
      ensures Valid() && this.sequence == sequence && currentIndex == 0
    {
      this.sequence := sequence;
      currentIndex := 0;
      var flags := map k | k in sequence :: false;
      events := if sequence != [] then flags[sequence[0] := true] else flags;
      new;
      OnlyTheFirst(sequence);
    }

    /** Whether a wait for key returns without a timeout. */
    predicate MayPass(key: string)
      requires Valid()
      reads this
      ensures MayPass(key) <==> key !in sequence || key in Unblocked(sequence, currentIndex)
    {
      key in events ==> events[key]
    }

    method CheckAndAdvance(key: string)
      requires Valid()
      modifies this
      ensures Valid() && currentIndex == Advance(sequence, old(currentIndex), key)
    {
      if currentIndex >= |sequence| {
        return;
      }
      var expected := sequence[currentIndex];
      if key != expected {
        return;
      }
      currentIndex := currentIndex + 1;
      UnblockedGrows(sequence, currentIndex);
      if currentIndex < |sequence| {
        var next := sequence[currentIndex];
        events := events[next := true];
      }
    }
  }

  lemma OnlyTheFirst(sequence: seq<string>)
    ensures Unblocked(sequence, 0) == if sequence == [] then {} else {sequence[0]}
  {
  }

  lemma UnblockedGrows(sequence: seq<string>, n: nat)
    requires n > 0
    ensures n < |sequence| ==> Unblocked(sequence, n) == Unblocked(sequence, n - 1) + {sequence[n]}
    ensures n >= |sequence| ==> Unblocked(sequence, n) == Unblocked(sequence, n - 1)
  {
  }

  // ---- runs that wait, replay and advance ----

  datatype Phase = Waiting | Holding | TimedOut | Advanced

  /** Each recorded run takes part under its own key. */
  datatype State = State(index: nat, phase: map<string, Phase>)

  datatype Move = Arrive(key: string) | Pass(key: string) | TimeOut(key: string) | Leave(key: string)

  ghost predicate Enabled(sequence: seq<string>, s: State, m: Move) {
    match m
    case Arrive(k) => k !in s.phase
    case Pass(k) => k in s.phase && s.phase[k] == Waiting && (k !in sequence || k in Unblocked(sequence, s.index))
    case TimeOut(k) => k in s.phase && s.phase[k] == Waiting && k in sequence
    case Leave(k) => k in s.phase && s.phase[k] == Holding
  }

  function Next(sequence: seq<string>, s: State, m: Move): State {
    match m
    case Arrive(k) => s.(phase := s.phase[k := Waiting])
    case Pass(k) => s.(phase := s.phase[k := Holding])
    case TimeOut(k) => s.(phase := s.phase[k := TimedOut])
    case Leave(k) => State(Advance(sequence, s.index, k), s.phase[k := Advanced])
  }

  ghost predicate IsRun(sequence: seq<string>, states: seq<State>, moves: seq<Move>) {
    && |states| == |moves| + 1 && states[0] == State(0, map[])
    && forall i {:trigger moves[i]} :: 0 <= i < |moves| ==>
         Enabled(sequence, states[i], moves[i]) && states[i + 1] == Next(sequence, states[i], moves[i])
  }

  /** Only the key at the index can hold the turn, and exactly the keys before it have advanced. */
  ghost predicate InOrder(sequence: seq<string>, s: State) {
    && s.index <= |sequence|
    && (forall p :: 0 <= p < |sequence| && sequence[p] in s.phase ==>
          && (s.phase[sequence[p]] == Holding ==> p == s.index)
          && (s.phase[sequence[p]] == Advanced <==> p < s.index))
    && (forall p :: 0 <= p < s.index ==> sequence[p] in s.phase)
  }

  lemma StepKeepsOrder(sequence: seq<string>, s: State, m: Move)
    requires Distinct(sequence) && InOrder(sequence, s) && Enabled(sequence, s, m)
    ensures InOrder(sequence, Next(sequence, s, m))
    ensures m.Leave? && m.key in sequence ==> s.index < |sequence| && sequence[s.index] == m.key
  {
  }

  /** Keys of the sequence, in the order in which their runs advanced. */
  function Advances(sequence: seq<string>, moves: seq<Move>): seq<string> {
    if moves == [] then []
    else
      var front, last := moves[..|moves| - 1], moves[|moves| - 1];
      if last.Leave? && last.key in sequence then Advances(sequence, front) + [last.key] else Advances(sequence, front)
  }

  lemma RunPrefix(sequence: seq<string>, states: seq<State>, moves: seq<Move>)
    requires IsRun(sequence, states, moves) && moves != []
    ensures IsRun(sequence, states[..|moves|], moves[..|moves| - 1])
  {
    var front := moves[..|moves| - 1];
    forall i {:trigger front[i]} | 0 <= i < |front|
      ensures Enabled(sequence, states[..|moves|][i], front[i])
              && states[..|moves|][i + 1] == Next(sequence, states[..|moves|][i], front[i])
    {
      assert front[i] == moves[i];
    }
  }

  /** Whatever the interleaving, recorded runs advance in recorded order and none of their advances is lost. */
  lemma {:induction false} ReplayFollowsTheRecord(sequence: seq<string>, states: seq<State>, moves: seq<Move>)
    requires Distinct(sequence) && IsRun(sequence, states, moves)
    ensures InOrder(sequence, states[|moves|])
    ensures Advances(sequence, moves) == sequence[..states[|moves|].index]
  {
    if moves != [] {
      var n := |moves| - 1;
      RunPrefix(sequence, states, moves);
      ReplayFollowsTheRecord(sequence, states[..n + 1], moves[..n]);
      assert Enabled(sequence, states[n], moves[n]);
      StepKeepsOrder(sequence, states[n], moves[n]);
    }
  }

  /** At most one recorded run at a time is between its wait and its advance. */
  lemma OneAtATime(sequence: seq<string>, states: seq<State>, moves: seq<Move>, x: string, y: string)
    requires Distinct(sequence) && IsRun(sequence, states, moves)
    requires x in sequence && y in sequence
    requires var phase := states[|moves|].phase; x in phase && phase[x] == Holding && y in phase && phase[y] == Holding
    ensures x == y
  {
    ReplayFollowsTheRecord(sequence, states, moves);
  }

  /** Until the record is used up, exactly one recorded run that has not advanced may pass. */
  lemma TheNextMayPass(sequence: seq<string>, states: seq<State>, moves: seq<Move>, k: string)
    requires Distinct(sequence) && IsRun(sequence, states, moves) && k in sequence
    ensures var s := states[|moves|];
            (k in Unblocked(sequence, s.index) && !(k in s.phase && s.phase[k] == Advanced)) <==>
                (s.index < |sequence| && k == sequence[s.index])
  {
    ReplayFollowsTheRecord(sequence, states, moves);
    var p :| 0 <= p < |sequence| && sequence[p] == k;
  }
}
