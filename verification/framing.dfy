/** Cutting a character stream at a delimiter, however the stream arrives. */
module Framing {
  import opened Wrappers

  /** The delimiter occurs at position `i`. */
  predicate OccursAt(d: string, s: string, i: nat) {
    i + |d| <= |s| && s[i..i + |d|] == d
  }

  /** The first position, from `i` on, at which the delimiter occurs. */
  function FirstFrom(d: string, s: string, i: nat): (r: Option<nat>)
    requires i <= |s|
    ensures r.Some? ==> i <= r.value && OccursAt(d, s, r.value)
    ensures r.Some? ==> forall j :: i <= j < r.value ==> !OccursAt(d, s, j)
    ensures r.None? ==> forall j :: i <= j ==> !OccursAt(d, s, j)
    decreases |s| - i
  {
    if OccursAt(d, s, i) then Some(i)
    else if i == |s| then None
    else FirstFrom(d, s, i + 1)
  }

  function IndexOf(d: string, s: string): Option<nat> {
    FirstFrom(d, s, 0)
  }

  /** The pieces that end at a delimiter, and what follows the last one. */
  datatype Pieces = Pieces(complete: seq<string>, rest: string)

  function Cut(d: string, s: string): Pieces
    requires d != ""
    decreases |s|
  {
    match IndexOf(d, s)
    case None => Pieces([], s)
    case Some(i) =>
      var tail := Cut(d, s[i + |d|..]);
      Pieces([s[..i]] + tail.complete, tail.rest)
  }

  /** An occurrence that lies within a prefix stays the first one when text is appended. */
  lemma FirstIsStable(d: string, a: string, b: string, i: nat)
    requires d != "" && IndexOf(d, a) == Some(i)
    ensures IndexOf(d, a + b) == Some(i)
  {
    assert (a + b)[i..i + |d|] == a[i..i + |d|];
    forall j | 0 <= j < i
      ensures !OccursAt(d, a + b, j)
    {
      assert (a + b)[j..j + |d|] == a[j..j + |d|];
      assert !OccursAt(d, a, j);
    }
    assert OccursAt(d, a + b, i);
  }

  lemma CutAtFirst(d: string, s: string, i: nat, head: string, tail: string)
    requires d != "" && IndexOf(d, s) == Some(i) && head == s[..i] && tail == s[i + |d|..]
    ensures Cut(d, s) == Pieces([head] + Cut(d, tail).complete, Cut(d, tail).rest)
  {}

  lemma AroundDelimiter(d: string, s: string, i: nat)
    requires OccursAt(d, s, i)
    ensures s == s[..i] + d + s[i + |d|..]
  {}

  lemma SplitAppended(a: string, b: string, i: nat, j: nat)
    requires i <= j <= |a|
    ensures (a + b)[..i] == a[..i] && (a + b)[j..] == a[j..] + b
  {}

  lemma Reassociate<T>(a: seq<T>, b: seq<T>, c: seq<T>)
    ensures a + b + c == a + (b + c)
  {}

  /** Cutting can be resumed: the pieces of a longer text are those of its prefix followed by those of the remainder
      joined to the new text. */
  lemma {:induction false} CutResumes(d: string, a: string, b: string)
    requires d != ""
    ensures var first := Cut(d, a);
            var second := Cut(d, first.rest + b);
            Cut(d, a + b) == Pieces(first.complete + second.complete, second.rest)
    decreases |a|
  {
    if IndexOf(d, a).Some? {
      var i := IndexOf(d, a).value;
      var head, tail := a[..i], a[i + |d|..];
      FirstIsStable(d, a, b, i);
      SplitAppended(a, b, i, i + |d|);
      CutAtFirst(d, a, i, head, tail);
      CutAtFirst(d, a + b, i, head, tail + b);
      CutResumes(d, tail, b);
      Reassociate([head], Cut(d, tail).complete, Cut(d, Cut(d, tail).rest + b).complete);
    }
  }

  /** The pieces, each followed by its delimiter. */
  function Glue(d: string, pieces: seq<string>): string {
    if pieces == [] then "" else pieces[0] + d + Glue(d, pieces[1..])
  }

  lemma GlueFront(d: string, head: string, pieces: seq<string>)
    ensures Glue(d, [head] + pieces) == head + d + Glue(d, pieces)
  {
    assert ([head] + pieces)[1..] == pieces;
  }

  /** Cutting loses nothing and leaves nothing to cut. */
  lemma {:induction false} CutLosesNothing(d: string, s: string)
    requires d != ""
    ensures Glue(d, Cut(d, s).complete) + Cut(d, s).rest == s
    ensures IndexOf(d, Cut(d, s).rest).None?
    decreases |s|
  {
    if i :| IndexOf(d, s) == Some(i) {
      var head, tail := s[..i], s[i + |d|..];
      CutAtFirst(d, s, i, head, tail);
      AroundDelimiter(d, s, i);
      CutLosesNothing(d, tail);
      GlueFront(d, head, Cut(d, tail).complete);
      Reassociate(head + d, Glue(d, Cut(d, tail).complete), Cut(d, tail).rest);
    }
  }

  /** A text that the delimiter first ends where the text itself ends. */
  predicate IsFrame(d: string, s: string) {
    IndexOf(d, s + d) == Some(|s|)
  }

  /** Glued frames are cut back into themselves. */
  lemma {:induction false} CutGlued(d: string, frames: seq<string>)
    requires d != "" && forall i :: 0 <= i < |frames| ==> IsFrame(d, frames[i])
    ensures Cut(d, Glue(d, frames)) == Pieces(frames, "")
  {
    if frames != [] {
      var f, more := frames[0], Glue(d, frames[1..]);
      assert Glue(d, frames) == (f + d) + more;
      FirstIsStable(d, f + d, more, |f|);
      assert ((f + d) + more)[..|f|] == f;
      assert ((f + d) + more)[|f| + |d|..] == more;
      CutGlued(d, frames[1..]);
    }
  }

  /** The text that a sequence of arriving pieces makes up. */
  function Concat(pieces: seq<string>): string {
    if pieces == [] then "" else Concat(pieces[..|pieces| - 1]) + pieces[|pieces| - 1]
  }

  /** What a consumer has cut off after the pieces have arrived one by one, keeping the remainder in between. */
  function Fed(d: string, pieces: seq<string>): Pieces
    requires d != ""
  {
    if pieces == [] then Pieces([], "")
    else
      var before := Fed(d, pieces[..|pieces| - 1]);
      var now := Cut(d, before.rest + pieces[|pieces| - 1]);
      Pieces(before.complete + now.complete, now.rest)
  }

  /** How the text is split on arrival, even inside a delimiter, makes no difference. */
  lemma {:induction false} FedIsCut(d: string, pieces: seq<string>)
    requires d != ""
    ensures Fed(d, pieces) == Cut(d, Concat(pieces))
  {
    if pieces == [] {
      assert !OccursAt(d, "", 0);
    } else {
      var front := pieces[..|pieces| - 1];
      FedIsCut(d, front);
      CutResumes(d, Concat(front), pieces[|pieces| - 1]);
    }
  }

  // ---------------------------------------------------------------- lines

  const NEWLINE := "\n"

  /** All lines of a text; the last one is not ended by a newline. */
  function Lines(s: string): (lines: seq<string>)
    ensures |lines| > 0
  {
    Cut(NEWLINE, s).complete + [Cut(NEWLINE, s).rest]
  }

  function JoinLines(lines: seq<string>): string
    requires |lines| > 0
  {
    if |lines| == 1 then lines[0] else lines[0] + NEWLINE + JoinLines(lines[1..])
  }

  predicate IsLine(s: string) {
    forall i :: 0 <= i < |s| ==> s[i] != '\n'
  }

  lemma LineHasNoNewline(s: string)
    requires IsLine(s)
    ensures IndexOf(NEWLINE, s).None? && IndexOf(NEWLINE, s + NEWLINE) == Some(|s|)
  {
    forall j: nat | OccursAt(NEWLINE, s + NEWLINE, j)
      ensures j == |s|
    {
      assert (s + NEWLINE)[j..j + 1][0] == '\n';
    }
    forall j: nat | j < |s|
      ensures !OccursAt(NEWLINE, s, j)
    {
      assert s[j..j + 1] == [s[j]];
    }
    assert OccursAt(NEWLINE, s + NEWLINE, |s|);
  }

  lemma NoNewlineIsLine(s: string)
    requires IndexOf(NEWLINE, s).None?
    ensures IsLine(s)
  {
    forall i | 0 <= i < |s|
      ensures s[i] != '\n'
    {
      assert !OccursAt(NEWLINE, s, i);
      assert s[i..i + 1] == [s[i]];
    }
  }

  /** Splitting undoes joining. */
  lemma {:induction false} LinesOfJoined(lines: seq<string>)
    requires |lines| > 0 && forall i :: 0 <= i < |lines| ==> IsLine(lines[i])
    ensures Lines(JoinLines(lines)) == lines
  {
    LineHasNoNewline(lines[0]);
    if |lines| > 1 {
      var f, more := lines[0], JoinLines(lines[1..]);
      assert JoinLines(lines) == (f + NEWLINE) + more;
      FirstIsStable(NEWLINE, f + NEWLINE, more, |f|);
      assert ((f + NEWLINE) + more)[..|f|] == f;
      assert ((f + NEWLINE) + more)[|f| + 1..] == more;
      LinesOfJoined(lines[1..]);
    }
  }

  /** Joining undoes splitting, and what splitting yields are lines. */
  lemma {:induction false} JoinedLines(s: string)
    ensures JoinLines(Lines(s)) == s
    ensures forall i :: 0 <= i < |Lines(s)| ==> IsLine(Lines(s)[i])
    decreases |s|
  {
    match IndexOf(NEWLINE, s)
    case None =>
      NoNewlineIsLine(s);
    case Some(i) =>
      var head, tail := s[..i], s[i + 1..];
      CutAtFirst(NEWLINE, s, i, head, tail);
      AroundDelimiter(NEWLINE, s, i);
      JoinedLines(tail);
      Reassociate([head], Cut(NEWLINE, tail).complete, [Cut(NEWLINE, tail).rest]);
      assert Lines(s) == [head] + Lines(tail);
      assert Lines(s)[1..] == Lines(tail);
      forall j | 0 <= j < i
        ensures s[..i][j] != '\n'
      {
        assert !OccursAt(NEWLINE, s, j);
        assert s[j..j + 1] == [s[j]];
      }
  }
}
