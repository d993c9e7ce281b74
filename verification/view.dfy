/** Chunked transport of a serialized snapshot. */
module View {
  import opened Wrappers
  import opened Utf8

  const CHUNK_THRESHOLD: nat := 256 * 1024
  const CHUNK_SIZE: nat := 64 * 1024

  datatype ChunkFrame = ChunkFrame(index: nat, total: nat, payload: bytes)

  /** The payloads of the frames, one after the other. */
  function Combined(frames: seq<ChunkFrame>): bytes {
    if frames == [] then [] else Combined(frames[..|frames| - 1]) + frames[|frames| - 1].payload
  }

  lemma CombinedGrows(frames: seq<ChunkFrame>, frame: ChunkFrame)
    ensures Combined(frames + [frame]) == Combined(frames) + frame.payload
  {
    assert (frames + [frame])[..|frames|] == frames;
  }

  predicate AreWellFormed(frames: seq<ChunkFrame>) {
    forall i :: 0 <= i < |frames| ==> WellFormed(frames[i].payload)
  }

  /** One window of a large text: well-formed, within the limit, and short of it by at most three bytes unless last. */
  predicate IsWindow(payload: bytes, isLast: bool) {
    && WellFormed(payload)
    && 0 < |payload| <= CHUNK_SIZE
    && (!isLast ==> CHUNK_SIZE - 3 <= |payload|)
  }

  /** What the sender promises about the frames of a text. */
  ghost predicate IsChunking(text: bytes, frames: seq<ChunkFrame>) {
    && |frames| > 0
    && (forall i :: 0 <= i < |frames| ==> frames[i].index == i && frames[i].total == |frames|)
    && Combined(frames) == text
    && (if |text| <= CHUNK_THRESHOLD then |frames| == 1
        else forall i :: 0 <= i < |frames| ==> IsWindow(frames[i].payload, i == |frames| - 1))
  }

  /** Ends the window that starts at `start`: as far as the limit allows, backed up to a boundary. */
  method WindowEnd(text: bytes, start: nat) returns (end: nat)
    requires WellFormed(text) && start < |text|
    ensures start < end <= |text| && end <= start + CHUNK_SIZE && IsBoundary(text, end)
    ensures end < |text| ==> start + CHUNK_SIZE - 3 <= end
  {
    end := if start + CHUNK_SIZE < |text| then start + CHUNK_SIZE else |text|;
    ghost var aim := end;
    ghost var near := BoundaryNearby(text, aim);
    while end < |text| && IsTail(text[end])
      invariant near <= end <= aim
      invariant aim == |text| ==> end == aim
      decreases end
    {
      end := end - 1;
    }
  }

  /** Writes the number of frames into each of them. */
  method PatchTotals(unpatched: seq<ChunkFrame>) returns (frames: seq<ChunkFrame>)
    ensures |frames| == |unpatched| && Combined(frames) == Combined(unpatched)
    ensures forall k :: 0 <= k < |frames| ==> frames[k] == unpatched[k].(total := |unpatched|)
  {
    frames := unpatched;
    for i := 0 to |frames|
      invariant |frames| == |unpatched|
      invariant forall k :: 0 <= k < |frames| ==>
        frames[k] == if k < i then unpatched[k].(total := |unpatched|) else unpatched[k]
    {
      frames := frames[i := frames[i].(total := |frames|)];
    }
    SamePayloads(frames, unpatched);
  }

  /** Splits a serialized snapshot into frames. The text comes from the serializer and so is well-formed. */
  method ChunkSnapshot(text: bytes) returns (frames: seq<ChunkFrame>)
    requires WellFormed(text)
    ensures IsChunking(text, frames)
    ensures forall i :: 0 <= i < |frames| ==> WellFormed(frames[i].payload)
    ensures |text| <= 262144 ==> |frames| == 1
    ensures |text| > 262144 ==> forall i :: 0 <= i < |frames| ==>
              0 < |frames[i].payload| <= 65536 && (i < |frames| - 1 ==> 65533 <= |frames[i].payload|)
  {
    if |text| <= CHUNK_THRESHOLD {
      frames := [ChunkFrame(0, 1, text)];
      assert frames[..0] == [];
      return;
    }
    frames := [];
    var start, index := 0, 0;
    while start < |text|
      invariant start <= |text| && index == |frames| && IsBoundary(text, start)
      invariant Combined(frames) == text[..start]
      invariant start > 0 ==> frames != []
      invariant forall i :: 0 <= i < |frames| ==> frames[i].index == i
      invariant forall i :: 0 <= i < |frames| ==> IsWindow(frames[i].payload, start == |text| && i == |frames| - 1)
    {
      var end := WindowEnd(text, start);
      WindowIsWellFormed(text, start, end);
      var frame := ChunkFrame(index, 0, text[start..end]);
      CombinedGrows(frames, frame);
      frames := frames + [frame];
      start := end;
      index := index + 1;
    }
    assert text[..start] == text;
    frames := PatchTotals(frames);
  }

  lemma WindowIsWellFormed(text: bytes, start: nat, end: nat)
    requires WellFormed(text) && start <= end <= |text| && IsBoundary(text, start) && IsBoundary(text, end)
    ensures WellFormed(text[start..end]) && text[..start] + text[start..end] == text[..end]
  {
    CutAtBoundary(text, end);
    CutAtBoundary(text[..end], start);
    assert text[..end][start..] == text[start..end];
  }

  lemma {:induction false} SamePayloads(a: seq<ChunkFrame>, b: seq<ChunkFrame>)
    requires |a| == |b| && forall i :: 0 <= i < |a| ==> a[i].payload == b[i].payload
    ensures Combined(a) == Combined(b)
  {
    if a != [] {
      SamePayloads(a[..|a| - 1], b[..|b| - 1]);
    }
  }

  /** Puts received frames together, checking only their number. */
  function Reassemble(frames: seq<ChunkFrame>): Option<bytes> {
    if frames == [] || |frames| != frames[0].total then None else Some(Combined(frames))
  }

  /** The receiver gets back what the sender was given. */
  lemma ReassembleChunking(text: bytes, frames: seq<ChunkFrame>)
    requires IsChunking(text, frames)
    ensures Reassemble(frames) == Some(text)
  {
    assert frames[0].total == |frames|;
  }

  lemma DecodedStep(front: bytes, last: bytes, characters: seq<CodePoint>)
    requires WellFormed(front) && WellFormed(last) && Decode(front) == characters
    ensures WellFormed(front + last) && Decode(front + last) == characters + Decode(last)
  {
    JoinWellFormed(front, last);
  }

  /** The characters of the text are those of the payloads in order: no frame splits a character. */
  lemma {:induction false} DecodedPayloads(frames: seq<ChunkFrame>)
    requires AreWellFormed(frames)
    ensures WellFormed(Combined(frames))
    ensures Decode(Combined(frames)) == DecodedInOrder(frames, |frames|)
  {
    if frames != [] {
      var front, last := frames[..|frames| - 1], frames[|frames| - 1];
      DecodedPayloads(front);
      DecodedPrefix(front, frames, |front|);
      DecodedStep(Combined(front), last.payload, DecodedInOrder(frames, |front|));
    }
  }

  /** The characters of the first `n` payloads, each decoded on its own. */
  function DecodedInOrder(frames: seq<ChunkFrame>, n: nat): seq<CodePoint>
    requires n <= |frames| && AreWellFormed(frames)
  {
    if n == 0 then [] else DecodedInOrder(frames, n - 1) + Decode(frames[n - 1].payload)
  }

  lemma {:induction false} DecodedPrefix(a: seq<ChunkFrame>, b: seq<ChunkFrame>, n: nat)
    requires n <= |a| <= |b| && AreWellFormed(b)
    requires forall i :: 0 <= i < |a| ==> a[i] == b[i]
    ensures DecodedInOrder(a, n) == DecodedInOrder(b, n)
  {
    if n > 0 {
      DecodedPrefix(a, b, n - 1);
    }
  }
}
