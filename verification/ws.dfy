/** The console client's reassembly of chunked snapshots. */
module Ws {
  import opened Wrappers
  import opened Utf8
  import opened View

  type Text = seq<CodePoint>
  type SnapshotId = string

  /** A chunk frame as it arrives; absent fields read as "", -1 and 0. */
  datatype ChunkMsg = ChunkMsg(id: SnapshotId, index: int, total: int, chunk: Text)

  /** The chunks collected for one snapshot. */
  datatype ChunkBuf = ChunkBuf(total: int, parts: map<int, Text>)

  type Buffers = map<SnapshotId, ChunkBuf>

  /** Frames that fail this test are ignored. */
  predicate IsAcceptable(m: ChunkMsg) {
    m.id != "" && 0 <= m.index < m.total
  }

  /** The indices of a snapshot of `total` chunks. */
  ghost function Indices(total: int): (s: set<int>)
    ensures forall i :: i in s <==> 0 <= i < total
    decreases if total < 0 then 0 else total
  {
    if total <= 0 then {} else Indices(total - 1) + {total - 1}
  }

  /** The first `n` parts in index order. */
  function PartsInOrder(parts: map<int, Text>, n: nat): Text
    requires forall i :: 0 <= i < n ==> i in parts
  {
    if n == 0 then [] else PartsInOrder(parts, n - 1) + parts[n - 1]
  }

  /** Buffers hold only indices of their snapshot and never all of them. */
  ghost predicate BuffersOk(chunks: Buffers) {
    forall id :: id in chunks ==> BufferOk(chunks[id])
  }

  ghost predicate BufferOk(b: ChunkBuf) {
    b.parts.Keys < Indices(b.total)
  }

  /** The parts with which a new frame is put together: those already held for its id under the same total. */
  function HeldParts(chunks: Buffers, m: ChunkMsg): map<int, Text> {
    if m.id in chunks && chunks[m.id].total == m.total then chunks[m.id].parts else map[]
  }

  function NewParts(chunks: Buffers, m: ChunkMsg): map<int, Text> {
    HeldParts(chunks, m)[m.index := m.chunk]
  }

  /** The frame supplies the last index that was missing. */
  ghost predicate Completes(chunks: Buffers, m: ChunkMsg) {
    IsAcceptable(m) && NewParts(chunks, m).Keys == Indices(m.total)
  }

  ghost function BuffersAfter(chunks: Buffers, m: ChunkMsg): Buffers {
    if !IsAcceptable(m) then chunks
    else if Completes(chunks, m) then chunks - {m.id}
    else chunks[m.id := ChunkBuf(m.total, NewParts(chunks, m))]
  }

  /** The text handed to the JSON parser, if the frame completes a snapshot. */
  ghost function DeliveredBy(chunks: Buffers, m: ChunkMsg): Option<Text> {
    if Completes(chunks, m) then Some(PartsInOrder(NewParts(chunks, m), m.total)) else None
  }

  lemma {:induction false} IndexCount(n: nat)
    ensures |Indices(n)| == n
  {
    if n > 0 {
      IndexCount(n - 1);
    }
  }

  /** A set of indices as large as the number of indices is all of them. */
  lemma Pigeonhole(s: set<int>, n: nat)
    requires s <= Indices(n)
    ensures |s| == n <==> s == Indices(n)
  {
    IndexCount(n);
    var missing := Indices(n) - s;
    assert Indices(n) == s + missing;
    assert |Indices(n)| == |s| + |missing|;
  }

  /** Accepting a frame keeps the buffers within bounds. */
  lemma BuffersStayOk(chunks: Buffers, m: ChunkMsg)
    requires BuffersOk(chunks)
    ensures BuffersOk(BuffersAfter(chunks, m))
    ensures IsAcceptable(m) ==> NewParts(chunks, m).Keys <= Indices(m.total)
  {
    assert m.id in chunks ==> BufferOk(chunks[m.id]);
    forall id | id in BuffersAfter(chunks, m)
      ensures BufferOk(BuffersAfter(chunks, m)[id])
    {
      assert id in chunks ==> BufferOk(chunks[id]);
    }
  }

  /** All parts in index order; a missing one would read as empty. */
  method JoinParts(parts: map<int, Text>, total: nat) returns (joined: Text)
    requires forall i :: 0 <= i < total ==> i in parts
    ensures joined == PartsInOrder(parts, total)
  {
    joined := [];
    for i := 0 to total
      invariant joined == PartsInOrder(parts, i)
    {
      joined := joined + (if i in parts then parts[i] else []);
    }
  }

  lemma ReplaceEntry<K, V>(m: map<K, V>, k: K, v: V)
    ensures (m - {k})[k := v] == m[k := v]
    ensures m[k := v] - {k} == m - {k}
  {}

  class ConsoleClient {
    var chunks: Buffers

    ghost predicate Valid()
      reads this
    {
      BuffersOk(chunks)
    }

    constructor ()
      ensures Valid() && chunks == map[]
    {
      chunks := map[];
    }

    /** Buffers one frame. `text` is what is parsed and passed on when the frame completes its snapshot. */
    method HandleChunk(m: ChunkMsg) returns (text: Option<Text>)
      requires Valid()
      modifies this
      ensures Valid()
      ensures text == DeliveredBy(old(chunks), m)
      ensures chunks == BuffersAfter(old(chunks), m)
      ensures m.id == "" || m.index < 0 || m.total <= m.index ==> text == None && chunks == old(chunks)
    {
      BuffersStayOk(chunks, m);
      if m.id == "" || m.index < 0 || m.total <= 0 || m.index >= m.total {
        return None;
      }
      var buf: ChunkBuf;
      if m.id !in chunks {
        buf := ChunkBuf(m.total, map[]);
      } else if chunks[m.id].total != m.total {
        chunks := chunks - {m.id};
        buf := ChunkBuf(m.total, map[]);
      } else {
        buf := chunks[m.id];
      }
      buf := buf.(parts := buf.parts[m.index := m.chunk]);
      assert buf == ChunkBuf(m.total, NewParts(old(chunks), m));
      chunks := chunks[m.id := buf];
      ReplaceEntry(old(chunks), m.id, buf);
      Pigeonhole(buf.parts.Keys, buf.total);
      if |buf.parts.Keys| == buf.total {
        var ordered := JoinParts(buf.parts, buf.total);
        chunks := chunks - {m.id};
        return Some(ordered);
      }
      return None;
    }
  }

  // ---------------------------------------------------------------- runs

  /** The buffers after a sequence of frames. */
  ghost function BuffersAfterAll(chunks: Buffers, ms: seq<ChunkMsg>): Buffers {
    if ms == [] then chunks
    else BuffersAfter(BuffersAfterAll(chunks, ms[..|ms| - 1]), ms[|ms| - 1])
  }

  /** What the frame at position `k` delivers. */
  ghost function DeliveredAt(chunks: Buffers, ms: seq<ChunkMsg>, k: nat): Option<Text>
    requires k < |ms|
  {
    DeliveredBy(BuffersAfterAll(chunks, ms[..k]), ms[k])
  }

  /** The indices of snapshot `id` seen among the first `k` frames. */
  ghost function Seen(ms: seq<ChunkMsg>, id: SnapshotId, k: nat): set<int>
    requires k <= |ms|
  {
    set j | 0 <= j < k && ms[j].id == id :: ms[j].index
  }

  /** Every frame of `id` is one of the `n` parts of the same snapshot. */
  ghost predicate CarriesParts(ms: seq<ChunkMsg>, id: SnapshotId, parts: map<int, Text>, n: nat) {
    && id != "" && n > 0 && parts.Keys == Indices(n)
    && forall j :: 0 <= j < |ms| && ms[j].id == id ==> IsPart(ms[j], parts, n)
  }

  predicate IsPart(m: ChunkMsg, parts: map<int, Text>, n: nat) {
    m.total == n && 0 <= m.index < n && m.index in parts && m.chunk == parts[m.index]
  }

  /** The parts with the given indices. */
  ghost function Restrict(parts: map<int, Text>, s: set<int>): map<int, Text> {
    map i | i in parts && i in s :: parts[i]
  }

  /** Until all indices of a snapshot have been seen its buffer holds exactly the parts seen, whatever else arrives in
      between, and nothing is delivered for it. */
  lemma {:induction false} BufferHoldsSeen(ms: seq<ChunkMsg>, id: SnapshotId, parts: map<int, Text>, n: nat, k: nat)
    requires CarriesParts(ms, id, parts, n) && k <= |ms| && Seen(ms, id, k) != Indices(n)
    ensures Seen(ms, id, k) <= Indices(n)
    ensures var chunks := BuffersAfterAll(map[], ms[..k]);
            if Seen(ms, id, k) == {} then id !in chunks
            else id in chunks && chunks[id] == ChunkBuf(n, Restrict(parts, Seen(ms, id, k)))
  {
    if k > 0 {
      var m := ms[k - 1];
      assert ms[..k][..k - 1] == ms[..k - 1];
      SeenStep(ms, id, k);
      SeenInRange(ms, id, parts, n, k);
      BufferHoldsSeen(ms, id, parts, n, k - 1);
      if m.id == id {
        assert IsPart(m, parts, n);
        GrowRestriction(parts, Seen(ms, id, k - 1), m.index);
        assert Restrict(parts, Seen(ms, id, k)).Keys == Seen(ms, id, k);
      }
    }
  }

  lemma SeenStep(ms: seq<ChunkMsg>, id: SnapshotId, k: nat)
    requires 0 < k <= |ms|
    ensures Seen(ms, id, k) == Seen(ms, id, k - 1) + if ms[k - 1].id == id then {ms[k - 1].index} else {}
  {}

  lemma GrowRestriction(parts: map<int, Text>, s: set<int>, i: int)
    requires i in parts
    ensures Restrict(parts, s)[i := parts[i]] == Restrict(parts, s + {i})
    ensures Restrict(parts, {}) == map[]
  {}

  lemma SeenInRange(ms: seq<ChunkMsg>, id: SnapshotId, parts: map<int, Text>, n: nat, k: nat)
    requires CarriesParts(ms, id, parts, n) && k <= |ms|
    ensures Seen(ms, id, k) <= Indices(n)
  {
    forall i | i in Seen(ms, id, k)
      ensures i in Indices(n)
    {
      var j :| 0 <= j < k && ms[j].id == id && ms[j].index == i;
      assert IsPart(ms[j], parts, n);
    }
  }

  /** Order independence: frames of any number of snapshots may be interleaved, in any order and repeated; a snapshot
      is delivered by exactly the frame that brings its last missing index, and equals its parts in index order. */
  lemma DeliveredWithLastMissingPart(ms: seq<ChunkMsg>, id: SnapshotId, parts: map<int, Text>, n: nat, k: nat)
    requires CarriesParts(ms, id, parts, n) && k < |ms| && ms[k].id == id
    requires Seen(ms, id, k) != Indices(n)
    ensures DeliveredAt(map[], ms, k) ==
      if Seen(ms, id, k + 1) == Indices(n) then Some(PartsInOrder(parts, n)) else None
  {
    var m, chunks := ms[k], BuffersAfterAll(map[], ms[..k]);
    assert IsPart(m, parts, n);
    BufferHoldsSeen(ms, id, parts, n, k);
    assert Seen(ms, id, k + 1) == Seen(ms, id, k) + {m.index};
    assert NewParts(chunks, m) == Restrict(parts, Seen(ms, id, k + 1));
    assert NewParts(chunks, m).Keys == Seen(ms, id, k + 1) * Indices(n);
    SeenInRange(ms, id, parts, n, k + 1);
    if Seen(ms, id, k + 1) == Indices(n) {
      assert NewParts(chunks, m) == parts;
    }
  }

  /** In every run the buffers stay within bounds, so a delivered text never uses the default for a missing part. */
  lemma {:induction false} RunsKeepBuffersOk(ms: seq<ChunkMsg>)
    ensures BuffersOk(BuffersAfterAll(map[], ms))
  {
    if ms != [] {
      RunsKeepBuffersOk(ms[..|ms| - 1]);
      BuffersStayOk(BuffersAfterAll(map[], ms[..|ms| - 1]), ms[|ms| - 1]);
    }
  }

  // ---------------------------------------------------------------- sender and receiver together

  /** The client's parts of a chunked text: the payload of each frame, decoded on its own. */
  function DecodedParts(frames: seq<ChunkFrame>): map<int, Text>
    requires AreWellFormed(frames)
  {
    map i | 0 <= i < |frames| :: Decode(frames[i].payload)
  }

  lemma {:induction false} PartsAreDecodedInOrder(frames: seq<ChunkFrame>, n: nat)
    requires n <= |frames| && AreWellFormed(frames)
    ensures PartsInOrder(DecodedParts(frames), n) == DecodedInOrder(frames, n)
  {
    if n > 0 {
      PartsAreDecodedInOrder(frames, n - 1);
    }
  }

  /** Whatever the order, repetition and interleaving in which the frames of a chunked snapshot reach the client, the
      frame that brings the last missing one delivers exactly the text that was chunked. */
  lemma {:induction false} TransportDelivers(text: bytes, frames: seq<ChunkFrame>, ms: seq<ChunkMsg>,
                                             id: SnapshotId, k: nat)
    requires WellFormed(text) && IsChunking(text, frames)
    requires AreWellFormed(frames)
    requires id != ""
    requires forall j :: 0 <= j < |ms| && ms[j].id == id ==>
      0 <= ms[j].index < |frames|
      && ms[j] == ChunkMsg(id, frames[ms[j].index].index, frames[ms[j].index].total,
                           Decode(frames[ms[j].index].payload))
    requires k < |ms| && ms[k].id == id
    requires Seen(ms, id, k) != Indices(|frames|) && Seen(ms, id, k + 1) == Indices(|frames|)
    ensures DeliveredAt(map[], ms, k) == Some(Decode(text))
  {
    var parts, n := DecodedParts(frames), |frames|;
    assert parts.Keys == Indices(n);
    forall j | 0 <= j < |ms| && ms[j].id == id
      ensures IsPart(ms[j], parts, n)
    {}
    DeliveredWithLastMissingPart(ms, id, parts, n, k);
    PartsAreDecodedInOrder(frames, n);
    DecodedPayloads(frames);
  }
}
