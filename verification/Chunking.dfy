/** Splitting a text into artifact chunks and putting it together again in the two Python consumers. */
module Chunking {
  import opened Common

  /** One artifact update carrying one text part. */
  datatype Chunk = Chunk(id: string, piece: string, append: bool, last: bool)

  // ---- splitting ----

  /** The slices of the text, or one empty piece. */
  function Pieces(text: string, size: nat): (r: seq<string>)
    requires size > 0
    ensures r != []
    decreases |text|
  {
    if |text| <= size then [text] else [text[..size]] + Pieces(text[size..], size)
  }

  function ToChunks(id: string, pieces: seq<string>): seq<Chunk> {
    seq(|pieces|, i requires 0 <= i < |pieces| => Chunk(id, pieces[i], i > 0, i == |pieces| - 1))
  }

  function Emit(id: string, text: string, size: int): seq<Chunk> {
    if size <= 0 then [Chunk(id, text, false, true)] else ToChunks(id, Pieces(text, size))
  }

  /** The slice that starts at index, cut off at the end of the text. */
  function Slice(text: string, index: nat, size: nat): string
    requires index <= |text|
  {
    if index + size <= |text| then text[index..index + size] else text[index..]
  }

  /** The slices from index on. */
  function SlicesFrom(text: string, index: nat, size: nat): seq<string>
    requires size > 0
  {
    if index < |text| then Pieces(text[index..], size) else []
  }

  lemma NextSlice(text: string, index: nat, size: nat)
    requires size > 0 && index < |text|
    ensures SlicesFrom(text, index, size) == [Slice(text, index, size)] + SlicesFrom(text, index + size, size)
  {
    var rest := text[index..];
    if index + size < |text| {
      assert text[index..index + size] == rest[..size] && text[index + size..] == rest[size..];
    } else if index + size == |text| {
      assert text[index..index + size] == rest;
    }
  }

  method Slices(text: string, size: nat) returns (pieces: seq<string>)
    requires size > 0
    ensures pieces == SlicesFrom(text, 0, size)
  {
    pieces := [];
    var index := 0;
    while index < |text|
      invariant SlicesFrom(text, 0, size) == pieces + SlicesFrom(text, index, size)
      decreases |text| - index
    {
      NextSlice(text, index, size);
      Associates(pieces, [Slice(text, index, size)], SlicesFrom(text, index + size, size));
      pieces := pieces + [Slice(text, index, size)];
      index := index + size;
    }
  }

  /** _emit_artifact. */
  method EmitArtifact(id: string, text: string, size: int) returns (sent: seq<Chunk>)
    ensures sent == Emit(id, text, size)
  {
    if size <= 0 {
      return [Chunk(id, text, false, true)];
    }
    var pieces := Slices(text, size);
    assert text[0..] == text;
    if pieces == [] {
      pieces := [""];
    }
    sent := [];
    for i := 0 to |pieces|
      invariant sent == ToChunks(id, pieces)[..i]
    {
      sent := sent + [Chunk(id, pieces[i], i > 0, i == |pieces| - 1)];
    }
  }

  function Concat(pieces: seq<string>): string {
    if pieces == [] then "" else Concat(pieces[..|pieces| - 1]) + pieces[|pieces| - 1]
  }

  function Text(chunks: seq<Chunk>): string {
    if chunks == [] then "" else Text(chunks[..|chunks| - 1]) + chunks[|chunks| - 1].piece
  }

  /** What a consumer relies on: the first chunk starts the artifact, the others append, the last closes it. */
  ghost predicate IsStream(chunks: seq<Chunk>, id: string, text: string) {
    && chunks != [] && Text(chunks) == text
    && (forall i :: 0 <= i < |chunks| ==>
          && chunks[i].id == id && (chunks[i].append <==> i > 0) && (chunks[i].last <==> i == |chunks| - 1)
          && (text != "" ==> chunks[i].piece != ""))
  }

  lemma {:induction false} ConcatFront(first: string, rest: seq<string>)
    ensures Concat([first] + rest) == first + Concat(rest)
  {
    var all := [first] + rest;
    if rest == [] {
      assert all[..0] == [];
    } else {
      var front, last := rest[..|rest| - 1], rest[|rest| - 1];
      assert all[..|all| - 1] == [first] + front;
      ConcatFront(first, front);
    }
  }

  lemma {:induction false} PiecesJoin(text: string, size: nat)
    requires size > 0
    ensures Concat(Pieces(text, size)) == text
    ensures forall i :: 0 <= i < |Pieces(text, size)| ==>
              |Pieces(text, size)[i]| <= size && (text != "" ==> Pieces(text, size)[i] != "")
    ensures forall i :: 0 <= i < |Pieces(text, size)| - 1 ==> |Pieces(text, size)[i]| == size
    decreases |text|
  {
    if |text| <= size {
      assert [text][..0] == [];
    } else {
      PiecesJoin(text[size..], size);
      ConcatFront(text[..size], Pieces(text[size..], size));
    }
  }

  lemma {:induction false} TextOfChunks(id: string, pieces: seq<string>, k: nat)
    requires k <= |pieces|
    ensures Text(ToChunks(id, pieces)[..k]) == Concat(pieces[..k])
  {
    if k > 0 {
      TextOfChunks(id, pieces, k - 1);
      assert ToChunks(id, pieces)[..k][..k - 1] == ToChunks(id, pieces)[..k - 1];
      assert pieces[..k][..k - 1] == pieces[..k - 1];
    }
  }

  /** Splitting loses nothing, for every text and every chunk size. */
  lemma EmitIsStream(id: string, text: string, size: int)
    ensures IsStream(Emit(id, text, size), id, text)
  {
    if size <= 0 {
      var chunk := Chunk(id, text, false, true);
      assert [chunk][..0] == [];
    } else {
      var pieces := Pieces(text, size);
      PiecesJoin(text, size);
      TextOfChunks(id, pieces, |pieces|);
      assert pieces[..|pieces|] == pieces && ToChunks(id, pieces)[..|pieces|] == ToChunks(id, pieces);
    }
  }

  /** Every piece but the last has exactly the chunk size, and the last one has no more; without a size there is
      one piece. */
  lemma EmitSizes(id: string, text: string, size: int, i: nat)
    requires i < |Emit(id, text, size)|
    ensures size <= 0 ==> |Emit(id, text, size)| == 1
    ensures size > 0 ==> |Emit(id, text, size)[i].piece| <= size
    ensures size > 0 && i < |Emit(id, text, size)| - 1 ==> |Emit(id, text, size)[i].piece| == size
  {
    if size > 0 {
      PiecesJoin(text, size);
      assert Emit(id, text, size)[i].piece == Pieces(text, size)[i];
    }
  }

  // ---- an interleaved log ----

  /** The chunks of one artifact, in the order they arrive. */
  function Of(log: seq<Chunk>, id: string): seq<Chunk> {
    if log == [] then []
    else
      var last := log[|log| - 1];
      Of(log[..|log| - 1], id) + if last.id == id then [last] else []
  }

  /** Taking the last event off a log that has received k chunks of the stream. */
  lemma LastOfLog(log: seq<Chunk>, id: string, chunks: seq<Chunk>, k: nat)
    requires log != [] && k <= |chunks| && Of(log, id) == chunks[..k]
    ensures var front, last := log[..|log| - 1], log[|log| - 1];
            if last.id == id then k > 0 && last == chunks[k - 1] && Of(front, id) == chunks[..k - 1]
            else Of(front, id) == chunks[..k]
  {
    var front, last := log[..|log| - 1], log[|log| - 1];
    if last.id == id {
      assert Of(log, id)[|Of(front, id)|] == last;
      assert Of(log, id)[..|Of(front, id)|] == Of(front, id);
      assert chunks[..k][..k - 1] == chunks[..k - 1];
    }
  }

  lemma TextGrows(chunks: seq<Chunk>, k: nat)
    requires 0 < k <= |chunks|
    ensures Text(chunks[..k]) == Text(chunks[..k - 1]) + chunks[k - 1].piece
  {
    assert chunks[..k][..k - 1] == chunks[..k - 1];
  }

  // ---- the remote agent's aggregator ----

  /** An event passed on: an artifact with its parts. */
  datatype Event = Event(id: string, parts: seq<string>, append: bool, last: bool)

  /** is_final_artifact. */
  predicate IsFinal(e: Event) {
    !e.append && e.last
  }

  type Buffers = map<string, seq<string>>

  function Buffered(buffers: Buffers, c: Chunk): seq<string> {
    (if c.append && c.id in buffers then buffers[c.id] else []) + [c.piece]
  }

  function NextBuffers(buffers: Buffers, c: Chunk): Buffers {
    if c.last then buffers - {c.id} else buffers[c.id := Buffered(buffers, c)]
  }

  function PassedOn(buffers: Buffers, c: Chunk): seq<Event> {
    [Event(c.id, [c.piece], c.append, c.last)]
    + if c.last && c.append then [Event(c.id, Buffered(buffers, c), false, true)] else []
  }

  class RemoteAgent {
    var buffers: Buffers

    /** _aggregate_artifact_update. */
    method Aggregate(c: Chunk) returns (events: seq<Event>)
      modifies this
      ensures buffers == NextBuffers(old(buffers), c) && events == PassedOn(old(buffers), c)
    {
      var buffer;
      if c.append {
        buffer := (if c.id in buffers then buffers[c.id] else []) + [c.piece];
      } else {
        buffer := [c.piece];
      }
      assert [] + [c.piece] == [c.piece] && buffer == Buffered(buffers, c);
      buffers := buffers[c.id := buffer];
      events := [Event(c.id, [c.piece], c.append, c.last)];
      if c.last {
        if c.append {
          events := events + [Event(c.id, buffer, false, true)];
        }
        assert buffers - {c.id} == old(buffers) - {c.id};
        buffers := buffers - {c.id};
      }
      assert events == PassedOn(old(buffers), c);
    }
  }

  datatype Aggregated = Aggregated(buffers: Buffers, events: seq<Event>)

  function AggregateAll(buffers: Buffers, log: seq<Chunk>): Aggregated {
    if log == [] then Aggregated(buffers, [])
    else AggregateNext(AggregateAll(buffers, log[..|log| - 1]), log[|log| - 1])
  }

  /** The texts of the final events of one artifact. */
  function Finals(events: seq<Event>, id: string): seq<string> {
    if events == [] then []
    else
      var last := events[|events| - 1];
      Finals(events[..|events| - 1], id) + if last.id == id && IsFinal(last) then [Concat(last.parts)] else []
  }

  lemma {:induction false} FinalsAdd(a: seq<Event>, b: seq<Event>, id: string)
    ensures Finals(a + b, id) == Finals(a, id) + Finals(b, id)
  {
    if b == [] {
      assert a + b == a;
    } else {
      var front, last := b[..|b| - 1], [b[|b| - 1]];
      FinalsAdd(a, front, id);
      assert b == front + last;
      Associates(a, front, last);
      assert (a + front + last)[..|a + front|] == a + front;
    }
  }

  lemma FinalsPassedOn(buffers: Buffers, c: Chunk, id: string)
    ensures Finals(PassedOn(buffers, c), id) == if c.id != id || !c.last then []
                                                else if c.append then [Concat(Buffered(buffers, c))] else [c.piece]
  {
    var first := Event(c.id, [c.piece], c.append, c.last);
    assert [first][..0] == [];
    assert [c.piece][..0] == [];
    if c.last && c.append {
      var second := Event(c.id, Buffered(buffers, c), false, true);
      assert PassedOn(buffers, c) == [first, second] && [first, second][..1] == [first];
      assert Finals([first], id) == [];
      assert Finals([first, second], id) == [] + if c.id == id then [Concat(second.parts)] else [];
    } else {
      assert PassedOn(buffers, c) == [first] && Concat([c.piece]) == "" + c.piece == c.piece;
    }
  }

  lemma ConcatLast(parts: seq<string>, piece: string)
    ensures Concat(parts + [piece]) == Concat(parts) + piece
  {
    assert (parts + [piece])[..|parts|] == parts;
  }

  ghost predicate BufferHolds(buffers: Buffers, id: string, chunks: seq<Chunk>, k: nat)
    requires k <= |chunks|
  {
    && (0 < k < |chunks| ==> id in buffers && Concat(buffers[id]) == Text(chunks[..k]))
    && (k == |chunks| ==> id !in buffers)
  }

  lemma BufferStep(buffers: Buffers, id: string, chunks: seq<Chunk>, text: string, k: nat)
    requires IsStream(chunks, id, text) && 0 < k <= |chunks| && BufferHolds(buffers, id, chunks, k - 1)
    ensures BufferHolds(NextBuffers(buffers, chunks[k - 1]), id, chunks, k)
    ensures Finals(PassedOn(buffers, chunks[k - 1]), id) == if k == |chunks| then [text] else []
  {
    var c := chunks[k - 1];
    TextGrows(chunks, k);
    assert chunks[..|chunks|] == chunks;
    FinalsPassedOn(buffers, c, id);
    if c.append {
      ConcatLast(buffers[id], c.piece);
    } else {
      ConcatLast([], c.piece);
      assert [] + [c.piece] == [c.piece] && chunks[..0] == [];
    }
  }

  /** After k chunks the buffer holds their text, and the one final event has come with the last chunk. */
  ghost predicate Progress(a: Aggregated, id: string, chunks: seq<Chunk>, text: string, k: nat)
    requires k <= |chunks|
  {
    BufferHolds(a.buffers, id, chunks, k) && Finals(a.events, id) == if k == |chunks| then [text] else []
  }

  function AggregateNext(a: Aggregated, c: Chunk): Aggregated {
    Aggregated(NextBuffers(a.buffers, c), a.events + PassedOn(a.buffers, c))
  }

  lemma OwnChunk(a: Aggregated, id: string, chunks: seq<Chunk>, text: string, k: nat)
    requires IsStream(chunks, id, text) && 0 < k <= |chunks| && Progress(a, id, chunks, text, k - 1)
    ensures Progress(AggregateNext(a, chunks[k - 1]), id, chunks, text, k)
  {
    FinalsAdd(a.events, PassedOn(a.buffers, chunks[k - 1]), id);
    BufferStep(a.buffers, id, chunks, text, k);
  }

  lemma OtherChunk(a: Aggregated, c: Chunk, id: string, chunks: seq<Chunk>, text: string, k: nat)
    requires k <= |chunks| && Progress(a, id, chunks, text, k) && c.id != id
    ensures Progress(AggregateNext(a, c), id, chunks, text, k)
  {
    FinalsAdd(a.events, PassedOn(a.buffers, c), id);
    FinalsPassedOn(a.buffers, c, id);
  }

  lemma {:induction false} AggregatorProgress(buffers: Buffers, log: seq<Chunk>, id: string, chunks: seq<Chunk>,
                                              text: string, k: nat)
    requires IsStream(chunks, id, text) && k <= |chunks| && Of(log, id) == chunks[..k]
    ensures Progress(AggregateAll(buffers, log), id, chunks, text, k)
  {
    if log != [] {
      var front, c := log[..|log| - 1], log[|log| - 1];
      LastOfLog(log, id, chunks, k);
      if c.id == id {
        AggregatorProgress(buffers, front, id, chunks, text, k - 1);
        OwnChunk(AggregateAll(buffers, front), id, chunks, text, k);
      } else {
        AggregatorProgress(buffers, front, id, chunks, text, k);
        OtherChunk(AggregateAll(buffers, front), c, id, chunks, text, k);
      }
    }
  }

  /** Split, interleave with other artifacts and aggregate: exactly one final event, with the whole text. */
  lemma AggregationRestoresText(buffers: Buffers, log: seq<Chunk>, id: string, text: string, size: int)
    requires Of(log, id) == Emit(id, text, size)
    ensures Finals(AggregateAll(buffers, log).events, id) == [text] && id !in AggregateAll(buffers, log).buffers
  {
    EmitIsStream(id, text, size);
    var chunks := Emit(id, text, size);
    assert chunks[..|chunks|] == chunks;
    AggregatorProgress(buffers, log, id, chunks, text, |chunks|);
  }

  // ---- what is passed on ----

  /** The chunk's own event. */
  function OwnEvent(c: Chunk): Event {
    Event(c.id, [c.piece], c.append, c.last)
  }

  /** Event j is a final event directly behind the last, appended chunk k. */
  ghost predicate AddedBehind(log: seq<Chunk>, events: seq<Event>, at: seq<nat>, j: nat, k: nat)
    requires j < |events| && k < |log| == |at|
  {
    && at[k] + 1 == j && log[k].last && log[k].append
    && events[j].id == log[k].id && events[j].last && !events[j].append
  }

  /** Every chunk is passed on, in order, at these positions. */
  ghost predicate PassedAt(log: seq<Chunk>, events: seq<Event>, at: seq<nat>) {
    |at| == |log| && Ascending(at) && forall k :: 0 <= k < |log| ==>
        at[k] < |events| && events[at[k]] == OwnEvent(log[k])
  }

  /** Any other event is such a final event. */
  ghost predicate OthersAreFinals(log: seq<Chunk>, events: seq<Event>, at: seq<nat>)
    requires |at| == |log|
  {
    forall j :: 0 <= j < |events| && j !in at ==> exists k :: 0 <= k < |log| && AddedBehind(log, events, at, j, k)
  }

  /** Each last, appended chunk has one. */
  ghost predicate LastsHaveFinals(log: seq<Chunk>, events: seq<Event>, at: seq<nat>)
    requires |at| == |log|
  {
    forall k :: 0 <= k < |log| && log[k].last && log[k].append ==>
      at[k] + 1 < |events| && AddedBehind(log, events, at, at[k] + 1, k) && at[k] + 1 !in at
  }

  lemma PassOneMoreOn(log: seq<Chunk>, events: seq<Event>, at: seq<nat>, buffers: Buffers, c: Chunk)
    requires PassedAt(log, events, at)
    ensures PassedAt(log + [c], events + PassedOn(buffers, c), at + [|events|])
  {
    var log1, events1, at1 := log + [c], events + PassedOn(buffers, c), at + [|events|];
    forall k | 0 <= k < |log1| ensures at1[k] < |events1| && events1[at1[k]] == OwnEvent(log1[k]) {
      assert k < |log| ==> events[at[k]] == OwnEvent(log[k]);
    }
  }

  lemma StillBehind(log: seq<Chunk>, events: seq<Event>, at: seq<nat>, c: Chunk, more: seq<Event>, j: nat, k: nat)
    requires j < |events| && k < |log| == |at|
    ensures AddedBehind(log + [c], events + more, at + [|events|], j, k) <==> AddedBehind(log, events, at, j, k)
  {
  }

  lemma OtherIsFinal(log: seq<Chunk>, events: seq<Event>, at: seq<nat>, buffers: Buffers, c: Chunk, j: nat)
    requires PassedAt(log, events, at) && OthersAreFinals(log, events, at)
    requires j < |events + PassedOn(buffers, c)| && j !in at + [|events|]
    ensures exists k ::
              0 <= k < |log + [c]| && AddedBehind(log + [c], events + PassedOn(buffers, c), at + [|events|], j, k)
  {
    var log1, events1, at1 := log + [c], events + PassedOn(buffers, c), at + [|events|];
    if j < |events| {
      assert j !in at by {
        assert at1[..|at|] == at;
      }
      var k :| 0 <= k < |log| && AddedBehind(log, events, at, j, k);
      StillBehind(log, events, at, c, PassedOn(buffers, c), j, k);
    } else {
      assert j != |events| by {
        assert at1[|at|] == |events|;
      }
      assert AddedBehind(log1, events1, at1, j, |log|);
    }
  }

  lemma LastHasFinal(log: seq<Chunk>, events: seq<Event>, at: seq<nat>, buffers: Buffers, c: Chunk, k: nat)
    requires PassedAt(log, events, at) && LastsHaveFinals(log, events, at)
    requires k <= |log| && (log + [c])[k].last && (log + [c])[k].append
    ensures var at1 := at + [|events|];
            && at1[k] + 1 < |events + PassedOn(buffers, c)| && at1[k] + 1 !in at1
            && AddedBehind(log + [c], events + PassedOn(buffers, c), at1, at1[k] + 1, k)
  {
    if k < |log| {
      assert log[k].last && log[k].append;
      StillBehind(log, events, at, c, PassedOn(buffers, c), at[k] + 1, k);
    }
  }

  lemma FinalsOneMore(log: seq<Chunk>, events: seq<Event>, at: seq<nat>, buffers: Buffers, c: Chunk)
    requires PassedAt(log, events, at) && OthersAreFinals(log, events, at)
    ensures OthersAreFinals(log + [c], events + PassedOn(buffers, c), at + [|events|])
  {
    var log1, events1, at1 := log + [c], events + PassedOn(buffers, c), at + [|events|];
    forall j | 0 <= j < |events1| && j !in at1
      ensures exists k :: 0 <= k < |log1| && AddedBehind(log1, events1, at1, j, k)
    {
      OtherIsFinal(log, events, at, buffers, c, j);
    }
  }

  lemma LastsOneMore(log: seq<Chunk>, events: seq<Event>, at: seq<nat>, buffers: Buffers, c: Chunk)
    requires PassedAt(log, events, at) && LastsHaveFinals(log, events, at)
    ensures LastsHaveFinals(log + [c], events + PassedOn(buffers, c), at + [|events|])
  {
    var log1, events1, at1 := log + [c], events + PassedOn(buffers, c), at + [|events|];
    forall k | 0 <= k < |log1| && log1[k].last && log1[k].append
      ensures at1[k] + 1 < |events1| && AddedBehind(log1, events1, at1, at1[k] + 1, k) && at1[k] + 1 !in at1
    {
      LastHasFinal(log, events, at, buffers, c, k);
    }
  }

  /** The aggregator swallows nothing and adds nothing but the final events, whatever arrives. */
  lemma {:induction false} AggregationPassesOn(buffers: Buffers, log: seq<Chunk>) returns (at: seq<nat>)
    ensures PassedAt(log, AggregateAll(buffers, log).events, at)
    ensures OthersAreFinals(log, AggregateAll(buffers, log).events, at)
    ensures LastsHaveFinals(log, AggregateAll(buffers, log).events, at)
  {
    if log == [] {
      at := [];
    } else {
      var front, c := log[..|log| - 1], log[|log| - 1];
      at := AggregationPassesOn(buffers, front);
      var a := AggregateAll(buffers, front);
      PassOneMoreOn(front, a.events, at, a.buffers, c);
      FinalsOneMore(front, a.events, at, a.buffers, c);
      LastsOneMore(front, a.events, at, a.buffers, c);
      assert log == front + [c];
      at := at + [|a.events|];
    }
  }

  // ---- the orchestrator's consumer ----

  datatype Entry = Entry(id: string, text: string)

  /** The texts of one id. */
  function Texts(entries: seq<Entry>, id: string): seq<string> {
    if entries == [] then []
    else
      var last := entries[|entries| - 1];
      Texts(entries[..|entries| - 1], id) + if last.id == id then [last.text] else []
  }

  /** Where the first entry of an id is, or the length. */
  function Find(entries: seq<Entry>, id: string): (i: nat)
    ensures i <= |entries| && (i < |entries| ==> entries[i].id == id) && forall j :: 0 <= j < i ==> entries[j].id != id
  {
    if entries == [] then 0
    else if entries[0].id == id then 0
    else
      assert forall j :: 0 < j < |entries| ==> entries[j] == entries[1..][j - 1];
      1 + Find(entries[1..], id)
  }

  /** One artifact update: extend, replace or add the artifact's entry. */
  function Store(entries: seq<Entry>, c: Chunk): seq<Entry> {
    var i := Find(entries, c.id);
    if i == |entries| then entries + [Entry(c.id, c.piece)]
    else entries[i := Entry(c.id, if c.append then entries[i].text + c.piece else c.piece)]
  }

  function StoreAll(entries: seq<Entry>, log: seq<Chunk>): seq<Entry> {
    if log == [] then entries else Store(StoreAll(entries, log[..|log| - 1]), log[|log| - 1])
  }

  /** The artifact branch of consume_chunks. */
  method ConsumeArtifacts(entries0: seq<Entry>, log: seq<Chunk>) returns (entries: seq<Entry>)
    ensures entries == StoreAll(entries0, log)
  {
    entries := entries0;
    for n := 0 to |log|
      invariant entries == StoreAll(entries0, log[..n])
    {
      assert log[..n + 1][..n] == log[..n];
      var c := log[n];
      var i := Find(entries, c.id);
      if c.append && i < |entries| {
        entries := entries[i := Entry(c.id, entries[i].text + c.piece)];
      } else if i < |entries| {
        entries := entries[i := Entry(c.id, c.piece)];
      } else {
        entries := entries + [Entry(c.id, c.piece)];
      }
    }
    assert log[..|log|] == log;
  }

  /** Where the first chunk of an id is, or the length. */
  function FirstChunk(log: seq<Chunk>, id: string): nat {
    if log == [] then 0
    else
      var front, last := log[..|log| - 1], log[|log| - 1];
      var a := FirstChunk(front, id);
      if a < |front| then a else if last.id == id then |front| else |log|
  }

  lemma {:induction false} FirstChunkIsFirst(log: seq<Chunk>, id: string)
    ensures var a := FirstChunk(log, id);
            a <= |log| && (a < |log| ==> log[a].id == id) && forall b :: 0 <= b < a ==> log[b].id != id
  {
    if log != [] {
      FirstChunkIsFirst(log[..|log| - 1], id);
    }
  }

  lemma FirstChunkOneMore(log: seq<Chunk>, c: Chunk, id: string)
    ensures FirstChunk(log + [c], id)
            == if FirstChunk(log, id) < |log| then FirstChunk(log, id) else if c.id == id then |log| else |log| + 1
    ensures FirstChunk(log, id) <= |log|
  {
    FirstChunkIsFirst(log, id);
    assert (log + [c])[..|log|] == log;
  }

  /** Entry i belongs to a chunk, and its first chunk comes before that of any later entry. */
  ghost predicate InPlace(entries: seq<Entry>, log: seq<Chunk>, i: nat)
    requires i < |entries|
  {
    && FirstChunk(log, entries[i].id) < |log|
    && forall j :: i < j < |entries| ==> FirstChunk(log, entries[i].id) < FirstChunk(log, entries[j].id)
  }

  /** Entries stand in the order in which their ids first arrived. */
  ghost predicate InArrivalOrder(entries: seq<Entry>, log: seq<Chunk>) {
    forall i :: 0 <= i < |entries| ==> InPlace(entries, log, i)
  }

  lemma StoreIds(entries: seq<Entry>, c: Chunk)
    ensures var r := Store(entries, c);
            && (forall i :: 0 <= i < |entries| ==> r[i].id == entries[i].id)
            && |entries| <= |r| <= |entries| + 1
            && (|r| > |entries| <==> forall i :: 0 <= i < |entries| ==> entries[i].id != c.id)
            && (|r| > |entries| ==> r[|entries|].id == c.id)
  {
  }

  lemma StaysBefore(log: seq<Chunk>, c: Chunk, id: string, later: string)
    requires FirstChunk(log, id) < |log|
             && (FirstChunk(log, id) < FirstChunk(log, later) || FirstChunk(log, later) == |log|)
    ensures FirstChunk(log + [c], id) < |log| && FirstChunk(log + [c], id) < FirstChunk(log + [c], later)
  {
    FirstChunkOneMore(log, c, id);
    FirstChunkOneMore(log, c, later);
  }

  lemma OldEntryInPlace(entries: seq<Entry>, log: seq<Chunk>, c: Chunk, i: nat)
    requires i < |entries| && InPlace(entries, log, i)
    requires |Store(entries, c)| > |entries| ==> FirstChunk(log, c.id) == |log|
    ensures |Store(entries, c)| >= |entries| && InPlace(Store(entries, c), log + [c], i)
  {
    StoreIds(entries, c);
    var r := Store(entries, c);
    FirstChunkOneMore(log, c, entries[i].id);
    forall j | i < j < |r| ensures FirstChunk(log + [c], r[i].id) < FirstChunk(log + [c], r[j].id) {
      StaysBefore(log, c, r[i].id, r[j].id);
    }
  }

  lemma NewEntryInPlace(entries: seq<Entry>, log: seq<Chunk>, c: Chunk)
    requires |Store(entries, c)| > |entries| && FirstChunk(log, c.id) == |log|
    ensures InPlace(Store(entries, c), log + [c], |entries|)
  {
    StoreIds(entries, c);
    FirstChunkOneMore(log, c, c.id);
  }

  /** Every chunk has an entry. */
  lemma {:induction false} ArrivedIsStored(log: seq<Chunk>, id: string)
    ensures FirstChunk(log, id) < |log| <==> Find(StoreAll([], log), id) < |StoreAll([], log)|
  {
    if log != [] {
      var front, c := log[..|log| - 1], log[|log| - 1];
      assert log == front + [c];
      ArrivedIsStored(front, id);
      FirstChunkOneMore(front, c, id);
      StoreIds(StoreAll([], front), c);
      FindAfterStore(StoreAll([], front), c, id);
    }
  }

  lemma FindAfterStore(entries: seq<Entry>, c: Chunk, id: string)
    ensures Find(Store(entries, c), id) < |Store(entries, c)| <==> Find(entries, id) < |entries| || c.id == id
  {
    StoreIds(entries, c);
    var r := Store(entries, c);
    if Find(entries, id) < |entries| {
      assert r[Find(entries, id)].id == id;
    } else if c.id == id {
      assert r[|entries|].id == id;
    }
  }

  /** The artifacts of a node stand in the order in which they first arrived. */
  lemma {:induction false} EntriesInArrivalOrder(log: seq<Chunk>)
    ensures InArrivalOrder(StoreAll([], log), log)
  {
    if log != [] {
      var front, c := log[..|log| - 1], log[|log| - 1];
      var entries := StoreAll([], front);
      assert log == front + [c] && StoreAll([], log) == Store(entries, c);
      EntriesInArrivalOrder(front);
      ArrivedIsStored(front, c.id);
      NewMeansUnstored(entries, c);
      FirstChunkIsFirst(front, c.id);
      forall i | 0 <= i < |Store(entries, c)| ensures InPlace(Store(entries, c), log, i) {
        if i < |entries| {
          OldEntryInPlace(entries, front, c, i);
        } else {
          NewEntryInPlace(entries, front, c);
        }
      }
    }
  }

  lemma NewMeansUnstored(entries: seq<Entry>, c: Chunk)
    ensures |entries| <= |Store(entries, c)| <= |entries| + 1
    ensures |Store(entries, c)| > |entries| ==> Find(entries, c.id) == |entries|
  {
  }

  lemma {:induction false} TextsNone(entries: seq<Entry>, id: string)
    ensures (forall j :: 0 <= j < |entries| ==> entries[j].id != id) <==> Texts(entries, id) == []
  {
    if entries != [] {
      TextsNone(entries[..|entries| - 1], id);
    }
  }

  lemma {:induction false} TextsSplit(entries: seq<Entry>, i: nat, id: string)
    requires i < |entries|
    ensures Texts(entries, id)
            == Texts(entries[..i], id) + (if entries[i].id == id then [entries[i].text] else [])
               + Texts(entries[i + 1..], id)
  {
    if i == |entries| - 1 {
      assert entries[i + 1..] == [];
    } else {
      var front := entries[..|entries| - 1];
      TextsSplit(front, i, id);
      assert front[..i] == entries[..i];
      assert entries[i + 1..][..|entries[i + 1..]| - 1] == front[i + 1..];
      var head := Texts(entries[..i], id) + (if entries[i].id == id then [entries[i].text] else []);
      var last := entries[|entries| - 1];
      assert Texts(entries, id) == Texts(front, id) + if last.id == id then [last.text] else [];
    }
  }

  /** A store leaves other ids alone. */
  lemma StoreOther(entries: seq<Entry>, c: Chunk, id: string)
    requires c.id != id
    ensures Texts(Store(entries, c), id) == Texts(entries, id)
  {
    var i := Find(entries, c.id);
    var stored := Store(entries, c);
    if i == |entries| {
      assert stored[..|entries|] == entries;
    } else {
      assert stored[..i] == entries[..i] && stored[i + 1..] == entries[i + 1..];
      TextsSplit(entries, i, id);
      TextsSplit(stored, i, id);
    }
  }

  /** It extends or replaces the one entry of its id, or adds one. */
  lemma StoreOwn(entries: seq<Entry>, c: Chunk)
    requires |Texts(entries, c.id)| <= 1
    ensures Texts(Store(entries, c), c.id)
         == [if c.append && Texts(entries, c.id) != [] then Texts(entries, c.id)[0] + c.piece else c.piece]
  {
    var i := Find(entries, c.id);
    var stored := Store(entries, c);
    TextsNone(entries, c.id);
    if i == |entries| {
      assert stored[..|entries|] == entries;
    } else {
      assert stored[..i] == entries[..i] && stored[i + 1..] == entries[i + 1..];
      TextsSplit(entries, i, c.id);
      TextsSplit(stored, i, c.id);
      TextsNone(entries[..i], c.id);
    }
  }

  lemma {:induction false} StoreProgress(entries: seq<Entry>, log: seq<Chunk>, id: string, chunks: seq<Chunk>,
                                         text: string, k: nat)
    requires IsStream(chunks, id, text) && k <= |chunks| && Of(log, id) == chunks[..k] && |Texts(entries, id)| <= 1
    ensures Texts(StoreAll(entries, log), id) == if k == 0 then Texts(entries, id) else [Text(chunks[..k])]
  {
    if log != [] {
      var front, c := log[..|log| - 1], log[|log| - 1];
      LastOfLog(log, id, chunks, k);
      if c.id == id {
        StoreProgress(entries, front, id, chunks, text, k - 1);
        StoreOwn(StoreAll(entries, front), c);
        TextGrows(chunks, k);
        assert chunks[..0] == [] && "" + c.piece == c.piece;
      } else {
        StoreProgress(entries, front, id, chunks, text, k);
        StoreOther(StoreAll(entries, front), c, id);
      }
    }
  }

  /** Split, interleave with other artifacts and consume: one entry for the artifact, with the whole text. */
  lemma ConsumptionRestoresText(entries: seq<Entry>, log: seq<Chunk>, id: string, text: string, size: int)
    requires Of(log, id) == Emit(id, text, size) && |Texts(entries, id)| <= 1
    ensures Texts(StoreAll(entries, log), id) == [text]
  {
    EmitIsStream(id, text, size);
    var chunks := Emit(id, text, size);
    assert chunks[..|chunks|] == chunks;
    StoreProgress(entries, log, id, chunks, text, |chunks|);
  }
}
