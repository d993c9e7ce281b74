/** The streaming parser of the codex adapter: newline-delimited JSON in, hook events and token usage out. */
module CodexParser {
  import opened Wrappers
  import opened Framing

  datatype HookKind = PreTool | PostTool | SessionStop | SessionError
  datatype Hook = Hook(kind: HookKind, tool: string, payload: string, index: nat)

  datatype EventKind = ItemStarted | ItemCompleted | TurnCompleted | OtherEvent
  datatype ItemKind = CommandExecution | McpToolCall | OtherItem
  datatype Item = Item(kind: ItemKind, tool: Option<string>, payload: string)
  datatype TurnUsage = TurnUsage(input: Option<int>, cached: Option<int>, output: Option<int>)

  /** What the JSON parser makes of a line: nothing, the value `null`, or a value with the fields read here. */
  datatype Line = Unreadable | Null | Event(kind: EventKind, item: Option<Item>, usage: Option<TurnUsage>)

  datatype Usage = Usage(input: int, output: int, saw: bool)

  function Or0(n: Option<int>): int {
    if n.Some? then n.value else 0
  }

  /** The hook that a line gives rise to, before it is numbered. */
  function HookOf(line: Line): Option<Hook> {
    if line.Event? && (line.kind == ItemStarted || line.kind == ItemCompleted) && line.item.Some? then
      ItemHook(if line.kind == ItemStarted then PreTool else PostTool, line.item.value)
    else None
  }

  function ItemHook(phase: HookKind, item: Item): Option<Hook> {
    match item.kind
    case CommandExecution => Some(Hook(phase, "shell", item.payload, 0))
    case McpToolCall => Some(Hook(phase, ToolName(item.tool), item.payload, 0))
    case OtherItem => None
  }

  function ToolName(tool: Option<string>): string {
    if tool.Some? && tool.value != "" then tool.value else "mcp"
  }

  /** The hook that ends a session. */
  function SessionHook(exitCode: int, payload: string, index: nat): Hook {
    Hook(if exitCode == 0 then SessionStop else SessionError, "", payload, index)
  }

  /** The line reports the usage of a completed turn. */
  predicate ReportsUsage(line: Line) {
    line.Event? && line.kind == TurnCompleted && line.usage.Some?
  }

  /** What a line adds to the usage. */
  function UsageIn(line: Line): Usage {
    if ReportsUsage(line) then
      var u := line.usage.value;
      Usage(Or0(u.input) + Or0(u.cached), Or0(u.output), true)
    else Usage(0, 0, false)
  }

  function Plus(u: Usage, v: Usage): Usage {
    Usage(u.input + v.input, u.output + v.output, u.saw || v.saw)
  }

  /** How far a session has come: the number of the last hook, the usage so far and all hooks so far. */
  datatype Progress = Progress(count: nat, usage: Usage, log: seq<Hook>)

  function Logged(p: Progress, h: Hook): Progress {
    p.(count := p.count + 1, log := p.log + [h.(index := p.count + 1)])
  }

  function AfterLine(p: Progress, line: Line): Progress {
    var q := p.(usage := Plus(p.usage, UsageIn(line)));
    match HookOf(line)
    case None => q
    case Some(h) => Logged(q, h)
  }

  ghost function AfterLines(parse: string -> Line, p: Progress, lines: seq<string>): Progress {
    if lines == [] then p
    else AfterLine(AfterLines(parse, p, lines[..|lines| - 1]), parse(lines[|lines| - 1]))
  }

  ghost function Begin(): Progress {
    Progress(0, Usage(0, 0, false), [])
  }

  /** Some line is the value `null`: reading a field of it raises an exception. */
  ghost predicate HasNull(parse: string -> Line, lines: seq<string>) {
    exists j :: 0 <= j < |lines| && parse(lines[j]).Null?
  }

  /** The lines handled before the exception. */
  ghost function BeforeNull(parse: string -> Line, lines: seq<string>): (front: seq<string>)
    ensures front <= lines && !HasNull(parse, front)
    ensures HasNull(parse, lines) ==> |front| < |lines| && parse(lines[|front|]).Null?
    ensures !HasNull(parse, lines) ==> front == lines
  {
    if lines == [] then []
    else
      var front := BeforeNull(parse, lines[..|lines| - 1]);
      if HasNull(parse, lines) then front else lines
  }

  lemma HasNullEither(parse: string -> Line, a: seq<string>, b: seq<string>)
    ensures HasNull(parse, a + b) <==> HasNull(parse, a) || HasNull(parse, b)
  {
    forall j | 0 <= j < |a| + |b| && parse((a + b)[j]).Null?
      ensures HasNull(parse, a) || HasNull(parse, b)
    {
      assert (a + b)[j] == if j < |a| then a[j] else b[j - |a|];
    }
    forall j | 0 <= j < |a| && parse(a[j]).Null?
      ensures HasNull(parse, a + b)
    {
      assert (a + b)[j] == a[j];
    }
    forall j | 0 <= j < |b| && parse(b[j]).Null?
      ensures HasNull(parse, a + b)
    {
      assert (a + b)[|a| + j] == b[j];
    }
  }

  lemma {:induction false} AfterMoreLines(parse: string -> Line, p: Progress, a: seq<string>, b: seq<string>)
    ensures AfterLines(parse, p, a + b) == AfterLines(parse, AfterLines(parse, p, a), b)
  {
    if b == [] {
      assert a + b == a;
    } else {
      assert (a + b)[..|a + b| - 1] == a + b[..|b| - 1];
      AfterMoreLines(parse, p, a, b[..|b| - 1]);
    }
  }

  lemma AfterOneLine(parse: string -> Line, p: Progress, text: string)
    ensures AfterLines(parse, p, [text]) == AfterLine(p, parse(text))
  {
    assert [text][..0] == [];
  }

  class Parser {
    /** The JSON parser applied to one line; a blank line reads as `Unreadable`. */
    const parse: string -> Line
    var count: nat
    var usage: Usage
    var carry: string
    /** All hooks handed out so far. */
    ghost var log: seq<Hook>

    constructor (parse: string -> Line)
      ensures this.parse == parse && State() == Begin() && carry == ""
    {
      this.parse := parse;
      count, usage, carry, log := 0, Usage(0, 0, false), "", [];
    }

    ghost function State(): Progress
      reads this
    {
      Progress(count, usage, log)
    }

    /** Handles one complete line; `raised` is the exception that reading a field of `null` is. */
    method ParseLine(text: string) returns (hooks: seq<Hook>, raised: bool)
      modifies this`count, this`usage, this`log
      ensures raised == parse(text).Null?
      ensures State() == AfterLine(old(State()), parse(text)) && log == old(log) + hooks
    {
      var line := parse(text);
      hooks, raised := [], false;
      if line.Unreadable? {
        return;
      }
      if line.Null? {
        raised := true;
        return;
      }
      if line.kind == ItemStarted || line.kind == ItemCompleted {
        if line.item.None? {
          return;
        }
        var item := line.item.value;
        var phase := if line.kind == ItemStarted then PreTool else PostTool;
        if item.kind == CommandExecution {
          count := count + 1;
          hooks := [Hook(phase, "shell", item.payload, count)];
        } else if item.kind == McpToolCall {
          count := count + 1;
          var tool := if item.tool.Some? && |item.tool.value| > 0 then item.tool.value else "mcp";
          hooks := [Hook(phase, tool, item.payload, count)];
        }
        log := log + hooks;
        return;
      }
      if line.kind == TurnCompleted && line.usage.Some? {
        var u := line.usage.value;
        usage := Usage(usage.input + (Or0(u.input) + Or0(u.cached)), usage.output + Or0(u.output), true);
      }
    }

    /** Handles complete lines up to the first that raises; the hooks of the lines before it are then numbered but never
        handed out. */
    method ParseLines(lines: seq<string>) returns (hooks: seq<Hook>, raised: bool)
      modifies this`count, this`usage, this`log
      ensures raised == HasNull(parse, lines)
      ensures State() == AfterPiece(parse, old(State()), lines)
      ensures log == old(log) + hooks
    {
      ghost var was := State();
      hooks, raised := [], false;
      for i := 0 to |lines|
        invariant State() == AfterLines(parse, was, lines[..i]) && log == was.log + hooks
        invariant !HasNull(parse, lines[..i])
      {
        var more;
        more, raised := ParseLine(lines[i]);
        if raised {
          NullAt(parse, lines, i);
          hooks, log := [], was.log;
          return;
        }
        hooks := hooks + more;
        NextLine(parse, was, lines, i);
      }
      assert lines[..|lines|] == lines;
    }

    /** Handles the lines completed by one piece of output and keeps the unfinished one. */
    method ParseChunk(chunk: string) returns (hooks: seq<Hook>, raised: bool)
      modifies this
      ensures raised == HasNull(parse, Cut(NEWLINE, old(carry) + chunk).complete)
      ensures State() == AfterPiece(parse, old(State()), Cut(NEWLINE, old(carry) + chunk).complete)
      ensures carry == Cut(NEWLINE, old(carry) + chunk).rest
      ensures log == old(log) + hooks
    {
      var pieces := Cut(NEWLINE, carry + chunk);
      carry := pieces.rest;
      hooks, raised := ParseLines(pieces.complete);
    }

    /** Handles an unfinished last line and reports how the session ended, unless that line raises. */
    method Finalize(exitCode: int, payload: string) returns (hooks: seq<Hook>, raised: bool)
      modifies this
      ensures raised == HasNull(parse, NonEmpty(old(carry)))
      ensures raised ==> State() == old(State()) && carry == old(carry)
      ensures !raised ==> State() == AfterExit(parse, old(State()), old(carry), exitCode, payload) && carry == ""
      ensures log == old(log) + hooks
    {
      hooks, raised := [], false;
      if |carry| > 0 {
        AfterOneLine(parse, State(), carry);
        assert NonEmpty(carry)[0] == carry;
        hooks, raised := ParseLine(carry);
        if raised {
          return;
        }
        carry := "";
      }
      count := count + 1;
      var last := SessionHook(exitCode, payload, count);
      hooks := hooks + [last];
      log := log + [last];
    }

    /** The usage observed, if any turn reported one. */
    method ToUsageReport() returns (report: Option<(int, int)>)
      ensures report == if State().usage.saw then Some((State().usage.input, State().usage.output)) else None
    {
      report := if usage.saw then Some((usage.input, usage.output)) else None;
    }
  }

  function NonEmpty(rest: string): seq<string> {
    if rest == "" then [] else [rest]
  }

  /** One call of `Finalize` on the values of the fields. */
  ghost function AfterExit(parse: string -> Line, p: Progress, carry: string, exitCode: int, payload: string): Progress
  {
    Logged(AfterLines(parse, p, NonEmpty(carry)), SessionHook(exitCode, payload, 0))
  }

  /** The state after the lines of one piece of output. */
  ghost function AfterPiece(parse: string -> Line, p: Progress, lines: seq<string>): Progress {
    var q := AfterLines(parse, p, BeforeNull(parse, lines));
    if HasNull(parse, lines) then q.(log := p.log) else q
  }

  lemma NullAt(parse: string -> Line, lines: seq<string>, i: nat)
    requires i < |lines| && parse(lines[i]).Null? && !HasNull(parse, lines[..i])
    ensures HasNull(parse, lines) && BeforeNull(parse, lines) == lines[..i]
  {
    var front := BeforeNull(parse, lines);
    assert forall j :: 0 <= j < |front| ==> front[j] == lines[j];
    assert forall j :: 0 <= j < i ==> lines[..i][j] == lines[j];
  }

  /** The step from one line to the next. */
  lemma NextLine(parse: string -> Line, p: Progress, lines: seq<string>, i: nat)
    requires i < |lines|
    ensures AfterLines(parse, p, lines[..i + 1]) == AfterLine(AfterLines(parse, p, lines[..i]), parse(lines[i]))
    ensures HasNull(parse, lines[..i + 1]) <==> HasNull(parse, lines[..i]) || parse(lines[i]).Null?
  {
    assert lines[..i + 1][..i] == lines[..i];
    assert lines[..i + 1] == lines[..i] + [lines[i]];
    HasNullEither(parse, lines[..i], [lines[i]]);
    assert [lines[i]][0] == lines[i];
  }

  /** Where a stream that arrives in pieces has got to: it goes on with an unfinished line, or an exception
      has ended it. */
  datatype Outcome = Going(progress: Progress, carry: string) | Raised(handedOut: seq<Hook>)

  ghost function Run(parse: string -> Line, pieces: seq<string>): Outcome {
    if pieces == [] then Going(Begin(), "")
    else
      var before := Run(parse, pieces[..|pieces| - 1]);
      if before.Raised? then before
      else
        var now := Cut(NEWLINE, before.carry + pieces[|pieces| - 1]);
        var after := AfterPiece(parse, before.progress, now.complete);
        if HasNull(parse, now.complete) then Raised(after.log) else Going(after, now.rest)
  }

  /** Whether a stream raises depends only on the whole text received, not on how it was split, and so do the hooks and
      the state of one that does not. */
  lemma {:induction false} RunIgnoresChunking(parse: string -> Line, pieces: seq<string>)
    ensures var whole := Cut(NEWLINE, Concat(pieces));
            var run := Run(parse, pieces);
            && (run.Raised? <==> HasNull(parse, whole.complete))
            && (run.Going? ==> run == Going(AfterLines(parse, Begin(), whole.complete), whole.rest))
  {
    if pieces == [] {
      CutEmpty();
    } else {
      var front, last := pieces[..|pieces| - 1], pieces[|pieces| - 1];
      var before := Cut(NEWLINE, Concat(front));
      RunIgnoresChunking(parse, front);
      CutResumes(NEWLINE, Concat(front), last);
      HasNullEither(parse, before.complete, Cut(NEWLINE, before.rest + last).complete);
      AfterMoreLines(parse, Begin(), before.complete, Cut(NEWLINE, before.rest + last).complete);
    }
  }

  lemma RaisesOnce(parse: string -> Line, front: seq<string>, last: string, pieces: seq<string>)
    requires pieces == front + [last] && Run(parse, pieces).Raised?
    ensures Run(parse, pieces).handedOut ==
            match Run(parse, front)
            case Raised(handedOut) => handedOut
            case Going(p, _) => p.log
  {
    assert pieces[..|pieces| - 1] == front && pieces[|pieces| - 1] == last;
  }

  /** The piece whose arrival raises. */
  lemma {:induction false} FirstRaise(parse: string -> Line, pieces: seq<string>, n: nat) returns (k: nat)
    requires n <= |pieces| && Run(parse, pieces[..n]).Raised?
    ensures k < n && Run(parse, pieces[..k]).Going? && Run(parse, pieces[..k + 1]).Raised?
    ensures Run(parse, pieces[..n]).handedOut == Run(parse, pieces[..k]).progress.log
  {
    if n == 0 {
      assert false;
    }
    var i := n - 1;
    assert pieces[..n] == pieces[..i] + [pieces[i]];
    RaisesOnce(parse, pieces[..i], pieces[i], pieces[..n]);
    match Run(parse, pieces[..i])
    case Raised(_) => k := FirstRaise(parse, pieces, i);
    case Going(_, _) => k := i;
  }

  /** What a stream that raises has handed out does depend on how it was split: the hooks of exactly the lines that were
      complete before the piece that raises. */
  lemma RaisedHandsOut(parse: string -> Line, pieces: seq<string>) returns (k: nat)
    requires Run(parse, pieces).Raised?
    ensures k < |pieces| && Run(parse, pieces[..k]).Going? && Run(parse, pieces[..k + 1]).Raised?
    ensures var complete := Cut(NEWLINE, Concat(pieces[..k])).complete;
            && !HasNull(parse, complete)
            && Run(parse, pieces).handedOut == AfterLines(parse, Begin(), complete).log
  {
    assert pieces[..|pieces|] == pieces;
    k := FirstRaise(parse, pieces, |pieces|);
    RunIgnoresChunking(parse, pieces[..k]);
  }

  lemma CutEmpty()
    ensures Cut(NEWLINE, "") == Pieces([], "")
  {}

  /** A whole session: its output in pieces, then its exit. */
  ghost function Session(parse: string -> Line, pieces: seq<string>, exitCode: int, payload: string): Option<Progress> {
    var run := Run(parse, pieces);
    if run.Raised? || HasNull(parse, NonEmpty(run.carry)) then None
    else Some(AfterExit(parse, run.progress, run.carry, exitCode, payload))
  }

  /** The same output in two splits: a line that gives rise to a hook and a line that is `null`. */
  function AtOnce(work: string): seq<string> {
    [work + NEWLINE + "null" + NEWLINE]
  }

  function LineByLine(work: string): seq<string> {
    [work + NEWLINE, "null" + NEWLINE]
  }

  lemma CutLine(line: string)
    requires IsLine(line)
    ensures Cut(NEWLINE, line + NEWLINE) == Pieces([line], "")
  {
    LineHasNoNewline(line);
    assert [line][1..] == [] && Glue(NEWLINE, []) == "";
    CutGlued(NEWLINE, [line]);
  }

  lemma GlueTwo(d: string, first: string, second: string)
    ensures Glue(d, [first, second]) == first + d + second + d
  {
    assert [first, second][1..] == [second] && [second][1..] == [];
    assert Glue(d, [second]) == second + d;
    assert first + d + (second + d) == first + d + second + d;
  }

  lemma CutTwoLines(first: string, second: string)
    requires IsLine(first) && IsLine(second)
    ensures Cut(NEWLINE, first + NEWLINE + second + NEWLINE) == Pieces([first, second], "")
  {
    LineHasNoNewline(first);
    LineHasNoNewline(second);
    GlueTwo(NEWLINE, first, second);
    CutGlued(NEWLINE, [first, second]);
  }

  lemma AtOnceHandsOutNothing(parse: string -> Line, work: string)
    requires IsLine(work) && parse("null").Null?
    ensures Run(parse, AtOnce(work)) == Raised([])
  {
    CutTwoLines(work, "null");
    var pieces, lines := AtOnce(work), [work, "null"];
    assert lines[1] == "null" && HasNull(parse, lines);
    assert pieces[..0] == [] && Run(parse, pieces[..0]) == Going(Begin(), "");
    assert "" + pieces[0] == pieces[0];
  }

  lemma FirstLineHandsOut(parse: string -> Line, work: string) returns (h: Hook)
    requires IsLine(work) && IsToolLine(parse(work))
    ensures Run(parse, [work + NEWLINE]).Going? && Run(parse, [work + NEWLINE]).carry == ""
    ensures Run(parse, [work + NEWLINE]).progress.log == [h] && IsHookOfLine(h, parse(work), 1)
  {
    CutLine(work);
    var pieces := [work + NEWLINE];
    assert pieces[..0] == [] && Concat(pieces) == "" + pieces[0] == work + NEWLINE;
    RunIgnoresChunking(parse, pieces);
    AfterOneLine(parse, Begin(), work);
    h := LineGivesHook(Begin(), parse(work));
  }

  lemma SecondLineRaises(parse: string -> Line, pieces: seq<string>)
    requires parse("null").Null? && |pieces| == 2 && pieces[1] == "null" + NEWLINE
    requires Run(parse, pieces[..1]).Going? && Run(parse, pieces[..1]).carry == ""
    ensures Run(parse, pieces) == Raised(Run(parse, pieces[..1]).progress.log)
  {
    CutLine("null");
    var front, lines := pieces[..1], ["null"];
    assert lines[0] == "null" && HasNull(parse, lines);
    assert "" + pieces[1] == pieces[1] && pieces[..|pieces| - 1] == front;
  }

  /** Both raise; arriving at once the output hands out nothing, line by line it hands out the hook. */
  lemma NullLosesHooks(parse: string -> Line, work: string, exitCode: int, payload: string) returns (h: Hook)
    requires IsLine(work) && IsToolLine(parse(work)) && parse("null").Null?
    ensures Session(parse, AtOnce(work), exitCode, payload) == None
    ensures Session(parse, LineByLine(work), exitCode, payload) == None
    ensures Run(parse, AtOnce(work)) == Raised([])
    ensures Run(parse, LineByLine(work)) == Raised([h]) && IsHookOfLine(h, parse(work), 1)
  {
    AtOnceHandsOutNothing(parse, work);
    h := FirstLineHandsOut(parse, work);
    assert LineByLine(work)[..1] == [work + NEWLINE];
    SecondLineRaises(parse, LineByLine(work));
  }

  // ---------------------------------------------------------------- what the hooks and the usage are

  /** The line reports the start or the end of a command or of a tool call. */
  predicate IsToolLine(line: Line) {
    match line
    case Event(ItemStarted, Some(Item(CommandExecution, _, _)), _) => true
    case Event(ItemStarted, Some(Item(McpToolCall, _, _)), _) => true
    case Event(ItemCompleted, Some(Item(CommandExecution, _, _)), _) => true
    case Event(ItemCompleted, Some(Item(McpToolCall, _, _)), _) => true
    case _ => false
  }

  /** `h` is the hook of such a line with number `index`: a pre hook for a start and a post hook for an end, with the
      item's payload, for the shell or the tool named; a tool without a name is called mcp. */
  predicate IsHookOfLine(h: Hook, line: Line, index: nat) {
    match line
    case Event(ItemStarted, Some(Item(CommandExecution, _, payload)), _) =>
      h == Hook(PreTool, "shell", payload, index)
    case Event(ItemCompleted, Some(Item(CommandExecution, _, payload)), _) =>
      h == Hook(PostTool, "shell", payload, index)
    case Event(ItemStarted, Some(Item(McpToolCall, tool, payload)), _) =>
      h == Hook(PreTool, if tool == None || tool.value == "" then "mcp" else tool.value, payload, index)
    case Event(ItemCompleted, Some(Item(McpToolCall, tool, payload)), _) =>
      h == Hook(PostTool, if tool == None || tool.value == "" then "mcp" else tool.value, payload, index)
    case _ => false
  }

  /** The hooks are those of exactly the lines of that kind, which stand at the positions `js`, numbered 1, 2, ... */
  ghost predicate AreHooksOf(log: seq<Hook>, parse: string -> Line, lines: seq<string>, js: seq<nat>) {
    && |js| == |log|
    && (forall i, k :: 0 <= i < k < |js| ==> js[i] < js[k])
    && (forall i: nat {:trigger IsHookAt(log, parse, lines, js, i)} :: i < |js| ==> IsHookAt(log, parse, lines, js, i))
    && forall j: nat {:trigger IsHooked(parse, lines, js, j)} :: j < |lines| ==> IsHooked(parse, lines, js, j)
  }

  ghost predicate IsHookAt(log: seq<Hook>, parse: string -> Line, lines: seq<string>, js: seq<nat>, i: nat)
    requires i < |js| == |log|
  {
    js[i] < |lines| && IsHookOfLine(log[i], parse(lines[js[i]]), i + 1)
  }

  ghost predicate IsHooked(parse: string -> Line, lines: seq<string>, js: seq<nat>, j: nat)
    requires j < |lines|
  {
    IsToolLine(parse(lines[j])) <==> j in js
  }

  function NumberOr0(n: Option<int>): int {
    match n
    case None => 0
    case Some(number) => number
  }

  /** The usage after a line: a completed turn adds its fresh and cached tokens in and its tokens out. */
  function Counted(u: Usage, line: Line): Usage {
    match line
    case Event(TurnCompleted, _, Some(TurnUsage(input, cached, output))) =>
      Usage(u.input + NumberOr0(input) + NumberOr0(cached), u.output + NumberOr0(output), true)
    case _ => u
  }

  ghost function UsageOf(parse: string -> Line, lines: seq<string>): Usage {
    if lines == [] then Usage(0, 0, false)
    else Counted(UsageOf(parse, lines[..|lines| - 1]), parse(lines[|lines| - 1]))
  }

  lemma LineIsCounted(p: Progress, line: Line)
    ensures AfterLine(p, line).usage == Counted(p.usage, line)
  {}

  lemma UsageGrows(parse: string -> Line, front: seq<string>, text: string)
    ensures UsageOf(parse, front + [text]) == Counted(UsageOf(parse, front), parse(text))
  {
    assert (front + [text])[..|front|] == front;
  }

  lemma LineGivesHook(p: Progress, line: Line) returns (h: Hook)
    requires p.count == |p.log|
    ensures var q := AfterLine(p, line);
            && q.count == |q.log| && q.log == (if IsToolLine(line) then p.log + [h] else p.log)
            && (IsToolLine(line) ==> IsHookOfLine(h, line, |p.log| + 1))
  {
    var more := AfterLine(p, line).log;
    h := if |more| > 0 then more[|more| - 1] else Hook(PreTool, "", "", 0);
  }

  lemma HooksGrow(log: seq<Hook>, h: Hook, parse: string -> Line, front: seq<string>, text: string, js: seq<nat>)
    returns (js': seq<nat>)
    requires AreHooksOf(log, parse, front, js)
    requires IsToolLine(parse(text)) ==> IsHookOfLine(h, parse(text), |log| + 1)
    ensures AreHooksOf(if IsToolLine(parse(text)) then log + [h] else log, parse, front + [text], js')
  {
    var n, lines := |front|, front + [text];
    var log' := if IsToolLine(parse(text)) then log + [h] else log;
    js' := if IsToolLine(parse(text)) then js + [n] else js;
    forall i: nat | i < |js'|
      ensures IsHookAt(log', parse, lines, js', i)
    {
      assert i < |js| ==> IsHookAt(log, parse, front, js, i);
    }
    forall i, k | 0 <= i < k < |js'|
      ensures js'[i] < js'[k]
    {
      assert IsHookAt(log, parse, front, js, i);
    }
    forall j: nat | j < |lines|
      ensures IsHooked(parse, lines, js', j)
    {
      if j < n {
        assert IsHooked(parse, front, js, j);
      } else {
        NotYet(log, parse, front, js);
      }
    }
  }

  lemma NotYet(log: seq<Hook>, parse: string -> Line, front: seq<string>, js: seq<nat>)
    requires AreHooksOf(log, parse, front, js)
    ensures |front| !in js
  {
    forall i: nat | i < |js|
      ensures js[i] != |front|
    {
      assert IsHookAt(log, parse, front, js, i);
    }
  }

  /** Exactly the lines that start or end a command or a tool call give rise to a hook, in order and numbered 1, 2, ...,
      and the usage is the sum over all turns. */
  lemma {:induction false} LogIsOfLines(parse: string -> Line, lines: seq<string>) returns (js: seq<nat>)
    ensures var p := AfterLines(parse, Begin(), lines);
            p.count == |p.log| && AreHooksOf(p.log, parse, lines, js) && p.usage == UsageOf(parse, lines)
  {
    if lines == [] {
      js := [];
    } else {
      var front, text := lines[..|lines| - 1], lines[|lines| - 1];
      var before := LogIsOfLines(parse, front);
      js := LogGrows(AfterLines(parse, Begin(), front), parse, front, text, before);
      assert front + [text] == lines;
    }
  }

  lemma LogGrows(p: Progress, parse: string -> Line, front: seq<string>, text: string, before: seq<nat>)
    returns (js: seq<nat>)
    requires p.count == |p.log| && AreHooksOf(p.log, parse, front, before) && p.usage == UsageOf(parse, front)
    ensures var q := AfterLine(p, parse(text));
            && q.count == |q.log| && AreHooksOf(q.log, parse, front + [text], js)
            && q.usage == UsageOf(parse, front + [text])
  {
    var h := LineGivesHook(p, parse(text));
    js := HooksGrow(p.log, h, parse, front, text, before);
    UsageGrows(parse, front, text);
    LineIsCounted(p, parse(text));
  }

  /** The log of a session that ends: the hooks of its lines and one more, which tells how the process exited; its usage
      is that of its lines. */
  ghost predicate IsSession(p: Progress, parse: string -> Line, lines: seq<string>, js: seq<nat>, exitCode: int,
                            payload: string) {
    && p.count == |p.log| == |js| + 1
    && AreHooksOf(p.log[..|js|], parse, lines, js)
    && p.log[|js|] == Hook(if exitCode == 0 then SessionStop else SessionError, "", payload, |js| + 1)
    && p.usage == UsageOf(parse, lines)
  }

  lemma EndIsLogged(p: Progress, parse: string -> Line, lines: seq<string>, js: seq<nat>, exitCode: int,
                    payload: string)
    requires p.count == |p.log| && AreHooksOf(p.log, parse, lines, js) && p.usage == UsageOf(parse, lines)
    ensures IsSession(Logged(p, SessionHook(exitCode, payload, 0)), parse, lines, js, exitCode, payload)
  {
    assert Logged(p, SessionHook(exitCode, payload, 0)).log[..|js|] == p.log;
  }

  /** However a stream is split, a session comes to its end if and only if none of its lines, the last of which may be
      unfinished, is `null`; its log and usage are then those of its lines and its exit. */
  lemma SessionIsDetermined(parse: string -> Line, pieces: seq<string>, exitCode: int, payload: string)
    returns (js: seq<nat>)
    ensures var cut := Cut(NEWLINE, Concat(pieces));
            var lines := cut.complete + (if cut.rest == "" then [] else [cut.rest]);
            var session := Session(parse, pieces, exitCode, payload);
            && (session.Some? <==> forall j :: 0 <= j < |lines| ==> !parse(lines[j]).Null?)
            && (session.Some? ==> IsSession(session.value, parse, lines, js, exitCode, payload))
  {
    var whole := Cut(NEWLINE, Concat(pieces));
    var lines := whole.complete + NonEmpty(whole.rest);
    js := LogIsOfLines(parse, lines);
    SessionEnds(parse, pieces, exitCode, payload);
    EndIsLogged(AfterLines(parse, Begin(), lines), parse, lines, js, exitCode, payload);
  }

  lemma SessionEnds(parse: string -> Line, pieces: seq<string>, exitCode: int, payload: string)
    ensures var whole := Cut(NEWLINE, Concat(pieces));
            var lines := whole.complete + NonEmpty(whole.rest);
            Session(parse, pieces, exitCode, payload) ==
            if HasNull(parse, lines) then None
            else Some(Logged(AfterLines(parse, Begin(), lines), SessionHook(exitCode, payload, 0)))
  {
    RunIgnoresChunking(parse, pieces);
    var whole := Cut(NEWLINE, Concat(pieces));
    HasNullEither(parse, whole.complete, NonEmpty(whole.rest));
    AfterMoreLines(parse, Begin(), whole.complete, NonEmpty(whole.rest));
  }
}
