/** The consumer of a server-sent event stream: frames end at a blank line, and a frame's `data:` lines make up its
    payload. */
module SseClient {
  import opened Wrappers
  import opened Framing

  const FRAME_END := "\n\n"
  const DATA := "data:"

  predicate IsDataLine(line: string) {
    |line| >= 5 && line[..5] == DATA
  }

  /** What follows the field name, without one leading space. */
  function DataValue(line: string): string
    requires IsDataLine(line)
  {
    if |line| > 5 && line[5] == ' ' then line[6..] else line[5..]
  }

  /** The values of the data lines, in order. */
  function DataValues(lines: seq<string>): seq<string> {
    if lines == [] then []
    else DataValues(lines[..|lines| - 1])
         + (if IsDataLine(lines[|lines| - 1]) then [DataValue(lines[|lines| - 1])] else [])
  }

  /** The payload of a frame, if it has one. */
  function Payload(frame: string): Option<string> {
    var values := DataValues(Lines(frame));
    if values == [] then None else Some(JoinLines(values))
  }

  method ExtractDataPayload(frame: string) returns (payload: Option<string>)
    ensures payload == Payload(frame)
  {
    var parts: seq<string> := [];
    var lines := Lines(frame);
    for i := 0 to |lines|
      invariant parts == DataValues(lines[..i])
    {
      assert lines[..i + 1][..i] == lines[..i];
      if IsDataLine(lines[i]) {
        parts := parts + [DataValue(lines[i])];
      }
    }
    assert lines[..|lines|] == lines;
    if |parts| == 0 {
      return None;
    }
    return Some(JoinLines(parts));
  }

  /** What a frame adds to the objects yielded: nothing without a payload or when it does not parse. */
  function YieldOf<J>(parse: string -> Option<J>, frame: string): seq<J> {
    match Payload(frame)
    case None => []
    case Some(p) => ParsedOne(parse, p)
  }

  function ParsedOne<J>(parse: string -> Option<J>, payload: string): seq<J> {
    match parse(payload)
    case None => []
    case Some(j) => [j]
  }

  function Yields<J>(parse: string -> Option<J>, frames: seq<string>): seq<J> {
    if frames == [] then []
    else Yields(parse, frames[..|frames| - 1]) + YieldOf(parse, frames[|frames| - 1])
  }

  lemma YieldsOneMore<J>(parse: string -> Option<J>, done: seq<string>, frame: string)
    ensures Yields(parse, done + [frame]) == Yields(parse, done) + YieldOf(parse, frame)
  {
    assert (done + [frame])[..|done + [frame]| - 1] == done;
  }

  lemma FrontOfBoth(a: seq<string>, b: seq<string>, both: seq<string>) returns (front: seq<string>, last: string)
    requires both == a + b && b != []
    ensures both == a + front + [last] && b == front + [last]
  {
    front, last := b[..|b| - 1], b[|b| - 1];
  }

  lemma {:induction false} YieldsConcat<J>(parse: string -> Option<J>, a: seq<string>, b: seq<string>,
                                           both: seq<string>)
    requires both == a + b
    ensures Yields(parse, both) == Yields(parse, a) + Yields(parse, b)
    decreases |b|
  {
    if b == [] {
      assert both == a;
    } else {
      var front, last := FrontOfBoth(a, b, both);
      var prefix := a + front;
      YieldsConcat(parse, a, front, prefix);
      YieldsOneMore(parse, prefix, last);
      YieldsOneMore(parse, front, last);
      Reassociate(Yields(parse, a), Yields(parse, front), YieldOf(parse, last));
    }
  }

  /** `buf` is what is left of `whole` once the frames `done` are cut off. */
  ghost predicate IsRemainder(whole: string, done: seq<string>, buf: string) {
    Cut(FRAME_END, whole) == Pieces(done + Cut(FRAME_END, buf).complete, Cut(FRAME_END, buf).rest)
  }

  lemma RemainderShrinks(whole: string, done: seq<string>, buf: string, idx: nat)
    requires IsRemainder(whole, done, buf) && IndexOf(FRAME_END, buf) == Some(idx)
    ensures IsRemainder(whole, done + [buf[..idx]], buf[idx + 2..])
  {
    CutAtFirst(FRAME_END, buf, idx, buf[..idx], buf[idx + 2..]);
    Reassociate(done, [buf[..idx]], Cut(FRAME_END, buf[idx + 2..]).complete);
  }

  lemma RemainderIsRest(whole: string, done: seq<string>, buf: string)
    requires IsRemainder(whole, done, buf) && IndexOf(FRAME_END, buf).None?
    ensures Cut(FRAME_END, whole) == Pieces(done, buf)
  {}

  class Subscription<J> {
    const parse: string -> Option<J>
    var buf: string
    var yielded: seq<J>

    constructor (parse: string -> Option<J>)
      ensures this.parse == parse && buf == "" && yielded == []
    {
      this.parse := parse;
      buf, yielded := "", [];
    }

    /** Yields the payload of one frame if it has one and it parses. */
    method Yield(frame: string)
      modifies this`yielded
      ensures yielded == old(yielded) + YieldOf(parse, frame)
    {
      var data := ExtractDataPayload(frame);
      if data.None? {
        return;
      }
      if parse(data.value).Some? {
        yielded := yielded + [parse(data.value).value];
      }
    }

    /** Takes in decoded text and yields the payload of every frame it completes. */
    method Receive(text: string)
      modifies this
      ensures var pieces := Cut(FRAME_END, old(buf) + text);
              && buf == pieces.rest
              && yielded == old(yielded) + Yields(parse, pieces.complete)
    {
      buf := buf + text;
      ghost var whole := buf;
      ghost var done: seq<string> := [];
      while IndexOf(FRAME_END, buf).Some?
        invariant IsRemainder(whole, done, buf)
        invariant yielded == old(yielded) + Yields(parse, done)
        decreases |buf|
      {
        var idx := IndexOf(FRAME_END, buf).value;
        var frame := buf[..idx];
        RemainderShrinks(whole, done, buf, idx);
        YieldsOneMore(parse, done, frame);
        Reassociate(old(yielded), Yields(parse, done), YieldOf(parse, frame));
        buf := buf[idx + 2..];
        done := done + [frame];
        Yield(frame);
      }
      RemainderIsRest(whole, done, buf);
    }
  }

  /** What has been yielded, and what is still buffered, after a stream has arrived in pieces. */
  function YieldedBy<J>(parse: string -> Option<J>, pieces: seq<string>): (seq<J>, string) {
    if pieces == [] then ([], "")
    else
      var (before, buf) := YieldedBy(parse, pieces[..|pieces| - 1]);
      var now := Cut(FRAME_END, buf + pieces[|pieces| - 1]);
      (before + Yields(parse, now.complete), now.rest)
  }

  /** The objects yielded, and the text left over, depend only on the whole text received. */
  lemma {:induction false} YieldIgnoresChunking<J>(parse: string -> Option<J>, pieces: seq<string>)
    ensures var whole := Cut(FRAME_END, Concat(pieces));
            YieldedBy(parse, pieces) == (Yields(parse, whole.complete), whole.rest)
  {
    FedIsCut(FRAME_END, pieces);
    if pieces != [] {
      var front := pieces[..|pieces| - 1];
      YieldIgnoresChunking(parse, front);
      FedIsCut(FRAME_END, front);
      var before, now := Fed(FRAME_END, front), Cut(FRAME_END, Fed(FRAME_END, front).rest + pieces[|pieces| - 1]);
      YieldsConcat(parse, before.complete, now.complete, before.complete + now.complete);
    }
  }

  // ---------------------------------------------------------------- round trip with a sender

  /** The data lines by which a sender transmits a payload. */
  function DataLines(lines: seq<string>): (r: seq<string>)
    ensures |r| == |lines| && forall i :: 0 <= i < |lines| ==> r[i] == DATA + " " + lines[i]
  {
    seq(|lines|, i requires 0 <= i < |lines| => DATA + " " + lines[i])
  }

  /** The frame of a payload, one data line per line. */
  function Encode(payload: string): string {
    JoinLines(DataLines(Lines(payload)))
  }

  lemma {:induction false} ValuesOfDataLines(lines: seq<string>)
    ensures DataValues(DataLines(lines)) == lines
  {
    if lines != [] {
      var front, last := lines[..|lines| - 1], lines[|lines| - 1];
      ValuesOfDataLines(front);
      var sent := DataLines(lines);
      assert sent[..|sent| - 1] == DataLines(front);
      assert sent[|sent| - 1] == DATA + " " + last;
      assert (DATA + " " + last)[..5] == DATA && (DATA + " " + last)[6..] == last;
    }
  }

  lemma DataLinesAreLines(lines: seq<string>)
    requires forall i :: 0 <= i < |lines| ==> IsLine(lines[i])
    ensures forall i :: 0 <= i < |lines| ==> IsLine(DataLines(lines)[i])
  {
    forall i, j | 0 <= i < |lines| && 0 <= j < |DataLines(lines)[i]|
      ensures DataLines(lines)[i][j] != '\n'
    {
      assert j >= 6 ==> DataLines(lines)[i][j] == lines[i][j - 6];
    }
  }

  /** Decoding a frame gives back the payload it was made from, newlines and all. */
  lemma PayloadRoundTrip(payload: string)
    ensures Payload(Encode(payload)) == Some(payload)
  {
    var lines := Lines(payload);
    JoinedLines(payload);
    DataLinesAreLines(lines);
    LinesOfJoined(DataLines(lines));
    ValuesOfDataLines(lines);
  }

  /** A line of a frame as a sender may write it: a data field, with or without a space after the colon, or any other
      line. */
  datatype Field = Data(value: string, spaced: bool) | Other(line: string)

  function Written(f: Field): string {
    match f
    case Data(value, spaced) => if spaced then "data: " + value else "data:" + value
    case Other(line) => line
  }

  /** Without the space the value must not begin with one. */
  predicate IsField(f: Field) {
    match f
    case Data(value, spaced) => IsLine(value) && (spaced || !(" " <= value))
    case Other(line) => IsLine(line) && !("data:" <= line)
  }

  /** The values of the data fields, in order. */
  function Values(fields: seq<Field>): seq<string> {
    if fields == [] then []
    else Values(fields[..|fields| - 1])
         + match fields[|fields| - 1]
           case Data(value, _) => [value]
           case Other(_) => []
  }

  function WrittenLines(fields: seq<Field>): (lines: seq<string>)
    ensures |lines| == |fields| && forall i :: 0 <= i < |fields| ==> lines[i] == Written(fields[i])
  {
    seq(|fields|, i requires 0 <= i < |fields| => Written(fields[i]))
  }

  lemma FieldIsRead(f: Field)
    requires IsField(f)
    ensures IsLine(Written(f)) && (IsDataLine(Written(f)) <==> f.Data?)
    ensures f.Data? ==> DataValue(Written(f)) == f.value
  {
    var line := Written(f);
    match f
    case Data(value, spaced) =>
      assert line[..5] == "data:" && line[if spaced then 6 else 5..] == value;
      assert !spaced && |value| > 0 ==> value[..1] == [value[0]] && " " == [' '];
    case Other(_) =>
      assert |line| >= 5 && line[..5] == "data:" ==> "data:" <= line;
  }

  lemma {:induction false} ValuesAreRead(fields: seq<Field>)
    requires forall i :: 0 <= i < |fields| ==> IsField(fields[i])
    ensures DataValues(WrittenLines(fields)) == Values(fields)
  {
    if fields != [] {
      var front, lines := fields[..|fields| - 1], WrittenLines(fields);
      ValuesAreRead(front);
      FieldIsRead(fields[|fields| - 1]);
      assert lines[..|lines| - 1] == WrittenLines(front);
    }
  }

  /** The payload of a frame is made of the values of its data fields, one per line, whatever other lines are in
      between; a frame without a data field has none. */
  lemma FrameIsRead(fields: seq<Field>)
    requires fields != [] && forall i :: 0 <= i < |fields| ==> IsField(fields[i])
    ensures Payload(JoinLines(WrittenLines(fields))) ==
            if Values(fields) == [] then None else Some(JoinLines(Values(fields)))
  {
    forall i | 0 <= i < |fields|
      ensures IsLine(WrittenLines(fields)[i])
    {
      FieldIsRead(fields[i]);
    }
    LinesOfJoined(WrittenLines(fields));
    ValuesAreRead(fields);
  }

  /** Every newline is followed by another character that is not a newline. */
  predicate HasNoBlankLine(s: string) {
    forall j :: 0 <= j < |s| && s[j] == '\n' ==> j + 1 < |s| && s[j + 1] != '\n'
  }

  lemma {:induction false} JoinedHasNoBlankLine(lines: seq<string>)
    requires |lines| > 0 && forall i :: 0 <= i < |lines| ==> IsLine(lines[i]) && lines[i] != ""
    ensures HasNoBlankLine(JoinLines(lines))
    ensures JoinLines(lines) != "" && JoinLines(lines)[0] != '\n'
  {
    if |lines| > 1 {
      var more := JoinLines(lines[1..]);
      JoinedHasNoBlankLine(lines[1..]);
      var s := JoinLines(lines);
      assert forall j :: 0 <= j < |more| ==> s[|lines[0]| + 1 + j] == more[j];
      forall j | 0 <= j < |s| && s[j] == '\n'
        ensures j + 1 < |s| && s[j + 1] != '\n'
      {
        assert j > |lines[0]| ==> s[j] == more[j - |lines[0]| - 1];
      }
    }
  }

  lemma EndsFirst(s: string)
    requires HasNoBlankLine(s)
    ensures IsFrame(FRAME_END, s)
  {
    var t := s + FRAME_END;
    forall j: nat | j < |s|
      ensures !OccursAt(FRAME_END, t, j)
    {
      assert t[j..j + 2] == [t[j], t[j + 1]];
    }
    assert OccursAt(FRAME_END, t, |s|);
  }

  /** An encoded payload is a frame: the blank line after it is the first one. */
  lemma EncodedIsFrame(payload: string)
    ensures IsFrame(FRAME_END, Encode(payload))
  {
    var lines := Lines(payload);
    JoinedLines(payload);
    DataLinesAreLines(lines);
    JoinedHasNoBlankLine(DataLines(lines));
    EndsFirst(Encode(payload));
  }

  function Frames(payloads: seq<string>): (frames: seq<string>)
    ensures |frames| == |payloads| && forall i :: 0 <= i < |payloads| ==> frames[i] == Encode(payloads[i])
  {
    seq(|payloads|, i requires 0 <= i < |payloads| => Encode(payloads[i]))
  }

  function Parsed<J>(parse: string -> Option<J>, payloads: seq<string>): seq<J> {
    if payloads == [] then []
    else Parsed(parse, payloads[..|payloads| - 1]) + ParsedOne(parse, payloads[|payloads| - 1])
  }

  lemma {:induction false} YieldsOfFrames<J>(parse: string -> Option<J>, payloads: seq<string>)
    ensures Yields(parse, Frames(payloads)) == Parsed(parse, payloads)
  {
    if payloads != [] {
      var front := payloads[..|payloads| - 1];
      YieldsOfFrames(parse, front);
      assert Frames(payloads)[..|payloads| - 1] == Frames(front);
      PayloadRoundTrip(payloads[|payloads| - 1]);
    }
  }

  /** A stream of encoded payloads, cut into pieces anywhere, yields exactly the payloads that parse, in order, and
      nothing is left over. */
  lemma StreamRoundTrip<J>(parse: string -> Option<J>, payloads: seq<string>, pieces: seq<string>)
    requires Concat(pieces) == Glue(FRAME_END, Frames(payloads))
    ensures YieldedBy(parse, pieces) == (Parsed(parse, payloads), "")
  {
    YieldIgnoresChunking(parse, pieces);
    forall i | 0 <= i < |payloads|
      ensures IsFrame(FRAME_END, Frames(payloads)[i])
    {
      EncodedIsFrame(payloads[i]);
    }
    CutGlued(FRAME_END, Frames(payloads));
    YieldsOfFrames(parse, payloads);
  }
}
