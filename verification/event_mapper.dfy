/** The opencode adapter's mapping of server-sent events to hook events, one pre and one post hook for each
    tool call. */
module EventMapper {
  import opened Wrappers

  datatype Status = Running | Completed | Failed | OtherStatus
  datatype ToolState = ToolState(status: Status, input: Option<string>, output: Option<string>, time: Option<string>)
  datatype Tokens =
    Tokens(input: Option<int>, output: Option<int>, reasoning: Option<int>, cacheWrite: Option<int>,
           cacheRead: Option<int>)
  datatype Part =
    | StepFinish(tokens: Option<Tokens>, cost: Option<real>)
    | Tool(callId: Option<string>, tool: Option<string>, state: Option<ToolState>)
    | OtherPart
  /** A parsed payload: the value `null`, or a value with the fields read here. */
  datatype Event = Null | SessionIdle | SessionStatus | PartUpdated(part: Option<Part>) | OtherEvent

  datatype HookKind = PreTool | PostTool | SessionStop | SessionError
  datatype Payload =
    | Empty
    | Input(input: Option<string>)
    | Result(output: Option<string>, status: Status, time: Option<string>)
  datatype Hook = Hook(kind: HookKind, tool: string, payload: Payload, index: nat)

  datatype Usage = Usage(input: int, output: int, cost: real, saw: bool)
  datatype CallTracker = CallTracker(firedPre: bool, firedPost: bool)

  function Or0(n: Option<int>): int {
    if n.Some? then n.value else 0
  }

  function PartStatus(part: Part): Status
    requires part.Tool?
  {
    if part.state.Some? then part.state.value.status else OtherStatus
  }

  predicate IsTerminal(status: Status) {
    status == Completed || status == Failed
  }

  /** The call that the event reports on; an empty call id counts as none. */
  function CallOf(e: Event): string {
    if e.PartUpdated? && e.part.Some? && e.part.value.Tool? && e.part.value.callId.Some? then e.part.value.callId.value
    else ""
  }

  function StatusOf(e: Event): Status {
    if CallOf(e) != "" then PartStatus(e.part.value) else OtherStatus
  }

  function PreHook(part: Part, index: nat): Hook
    requires part.Tool?
  {
    Hook(PreTool, if part.tool.Some? then part.tool.value else "",
         Input(if part.state.Some? then part.state.value.input else None), index)
  }

  function PostHook(part: Part, index: nat): Hook
    requires part.Tool? && part.state.Some?
  {
    Hook(PostTool, if part.tool.Some? then part.tool.value else "",
         Result(part.state.value.output, part.state.value.status, part.state.value.time), index)
  }

  /** What an event adds to the usage. */
  function UsageIn(e: Event): Usage {
    if e.PartUpdated? && e.part.Some? && e.part.value.StepFinish? && e.part.value.tokens.Some? then
      var t := e.part.value.tokens.value;
      Usage(Or0(t.input) + Or0(t.cacheWrite) + Or0(t.cacheRead), Or0(t.output) + Or0(t.reasoning),
            if e.part.value.cost.Some? then e.part.value.cost.value else 0.0, true)
    else Usage(0, 0, 0.0, false)
  }

  function Plus(u: Usage, v: Usage): Usage {
    Usage(u.input + v.input, u.output + v.output, u.cost + v.cost, u.saw || v.saw)
  }

  /** A hook that was handed out, with the call it belongs to. */
  datatype Entry = Entry(call: string, hook: Hook)

  datatype Progress = Progress(count: nat, usage: Usage, calls: map<string, CallTracker>, log: seq<Entry>)

  ghost function Begin(): Progress {
    Progress(0, Usage(0, 0, 0.0, false), map[], [])
  }

  ghost function Logged(p: Progress, call: string, h: Hook): Progress {
    p.(count := p.count + 1, log := p.log + [Entry(call, h.(index := p.count + 1))])
  }

  ghost function Tracker(p: Progress, call: string): CallTracker {
    if call in p.calls then p.calls[call] else CallTracker(false, false)
  }

  ghost function Track(p: Progress, call: string, t: CallTracker): Progress {
    p.(calls := p.calls[call := t])
  }

  /** A tool part with a call id: the pre hook is due on the first status that is running or terminal, the post hook on
      the first terminal one. */
  ghost function AfterCall(p: Progress, call: string, part: Part): Progress
    requires part.Tool?
  {
    var t, status := Tracker(p, call), PartStatus(part);
    var pre := !t.firedPre && (status == Running || (IsTerminal(status) && !t.firedPost));
    var post := !t.firedPost && IsTerminal(status);
    var tracked := Track(p, call, CallTracker(t.firedPre || pre, t.firedPost || post));
    var started := if pre then Logged(tracked, call, PreHook(part, 0)) else tracked;
    if post then Logged(started, call, PostHook(part, 0)) else started
  }

  ghost function AfterEvent(p: Progress, e: Event): Progress {
    if e == SessionIdle then Logged(p, "", Hook(SessionStop, "", Empty, 0))
    else if CallOf(e) != "" then AfterCall(p, CallOf(e), e.part.value)
    else p.(usage := Plus(p.usage, UsageIn(e)))
  }

  class Mapper {
    var count: nat
    var usage: Usage
    var calls: map<string, CallTracker>
    /** All hooks handed out so far. */
    ghost var log: seq<Entry>

    constructor ()
      ensures State() == Begin()
    {
      count, usage, calls, log := 0, Usage(0, 0, 0.0, false), map[], [];
    }

    ghost function State(): Progress
      reads this
    {
      Progress(count, usage, calls, log)
    }

    /** Numbers a hook and hands it out. */
    method Push(ghost call: string, hook: Hook) returns (h: Hook)
      modifies this`count, this`log
      ensures State() == Logged(old(State()), call, hook)
      ensures h == hook.(index := count) && log == old(log) + [Entry(call, h)]
    {
      count := count + 1;
      h := hook.(index := count);
      log := log + [Entry(call, h)];
    }

    /** Handles one event; `raised` is the exception that reading a field of `null` is. */
    method MapEvent(e: Event) returns (hooks: seq<Hook>, raised: bool)
      modifies this
      ensures raised == e.Null?
      ensures State() == AfterEvent(old(State()), e)
      ensures |log| == |old(log)| + |hooks| && old(log) <= log
      ensures forall i :: 0 <= i < |hooks| ==> log[|old(log)| + i].hook == hooks[i]
    {
      hooks, raised := [], false;
      if e.Null? {
        return [], true;
      }
      if e.SessionIdle? {
        var h := Push("", Hook(SessionStop, "", Empty, 0));
        return [h], false;
      }
      if !e.PartUpdated? || e.part.None? {
        return;
      }
      var part := e.part.value;
      if part.StepFinish? {
        if part.tokens.Some? {
          var t := part.tokens.value;
          usage := Usage(usage.input + (Or0(t.input) + Or0(t.cacheWrite) + Or0(t.cacheRead)),
                         usage.output + (Or0(t.output) + Or0(t.reasoning)),
                         usage.cost + (if part.cost.Some? then part.cost.value else 0.0), true);
        }
        return;
      }
      if !part.Tool? || part.callId.None? || part.callId.value == "" {
        return;
      }
      hooks := MapCall(part.callId.value, part);
    }

    /** Handles one event of a subscription after the hooks handed out so far. */
    method HandleNext(events: seq<Event>, i: nat, soFar: seq<Hook>) returns (hooks: seq<Hook>, raised: bool)
      requires i < |events| && State() == AfterEvents(events[..i]) && AreHooksOf(soFar, log)
      modifies this
      ensures raised == events[i].Null?
      ensures State() == AfterEvents(events[..i + 1]) && (raised ==> State() == AfterEvents(events[..i]))
      ensures AreHooksOf(hooks, log)
    {
      NextEvent(events, i);
      NullIsNothing(AfterEvents(events[..i]));
      var more;
      more, raised := MapEvent(events[i]);
      MoreHooks(soFar, old(log), more, log);
      hooks := soFar + more;
    }

    /** Reports that the subscription failed. */
    method HandleError(soFar: seq<Hook>) returns (hooks: seq<Hook>)
      requires AreHooksOf(soFar, log)
      modifies this`count, this`log
      ensures State() == WithError(old(State())) && AreHooksOf(hooks, log)
    {
      var h := Push("", Hook(SessionError, "", Empty, 0));
      MoreHooks(soFar, old(log), [h], log);
      hooks := soFar + [h];
    }

    /** Handles the events of a subscription until it ends or one of them raises; that is reported as an error of the
        session. */
    method Consume(events: seq<Event>) returns (hooks: seq<Hook>)
      requires State() == Begin()
      modifies this
      ensures State() == AfterStream(events) && AreHooksOf(hooks, log)
    {
      hooks := [];
      var raised := false;
      for i := 0 to |events|
        invariant State() == AfterEvents(events[..i]) && AreHooksOf(hooks, log)
        invariant i <= |UpToNull(events)|
      {
        hooks, raised := HandleNext(events, i, hooks);
        AtNull(events, i);
        if raised {
          hooks := HandleError(hooks);
          return;
        }
      }
      assert events[..|events|] == events;
    }

    /** Finds the tracker of a call, or makes one. */
    method TrackerOf(call: string) returns (tracker: CallTracker)
      modifies this`calls
      ensures tracker == Tracker(old(State()), call) && State() == Track(old(State()), call, tracker)
    {
      if call !in calls {
        calls := calls[call := CallTracker(false, false)];
      }
      tracker := calls[call];
    }

    /** Replaces the tracker of a call. */
    method SetTracker(call: string, tracker: CallTracker, ghost before: Progress, ghost was: CallTracker)
      requires State() == Track(before, call, was)
      modifies this`calls
      ensures State() == Track(before, call, tracker)
    {
      calls := calls[call := tracker];
    }

    method MapCall(call: string, part: Part) returns (hooks: seq<Hook>)
      requires part.Tool?
      modifies this
      ensures State() == AfterCall(old(State()), call, part)
      ensures |log| == |old(log)| + |hooks| && old(log) <= log
      ensures forall i :: 0 <= i < |hooks| ==> log[|old(log)| + i].hook == hooks[i]
    {
      hooks := [];
      var status := if part.state.Some? then part.state.value.status else OtherStatus;
      var tracker := TrackerOf(call);
      if status == Running && !tracker.firedPre {
        SetTracker(call, tracker.(firedPre := true), old(State()), tracker);
        var h := Push(call, PreHook(part, 0));
        return [h];
      }
      if (status == Completed || status == Failed) && !tracker.firedPost {
        SetTracker(call, CallTracker(true, true), old(State()), tracker);
        if !tracker.firedPre {
          var h := Push(call, PreHook(part, 0));
          hooks := [h];
        }
        var h := Push(call, PostHook(part, 0));
        hooks := hooks + [h];
      }
    }

    /** The usage observed, if any step reported one. */
    method ToUsageReport() returns (report: Option<(int, int, real)>)
      ensures report == if State().usage.saw then Some((usage.input, usage.output, usage.cost)) else None
    {
      report := if usage.saw then Some((usage.input, usage.output, usage.cost)) else None;
    }
  }

  // ---------------------------------------------------------------- runs

  ghost function AfterEvents(events: seq<Event>): Progress {
    if events == [] then Begin() else AfterEvent(AfterEvents(events[..|events| - 1]), events[|events| - 1])
  }

  /** The hooks are those of the log, in order. */
  ghost predicate AreHooksOf(hooks: seq<Hook>, log: seq<Entry>) {
    |hooks| == |log| && forall i :: 0 <= i < |hooks| ==> log[i].hook == hooks[i]
  }

  lemma MoreHooks(hooks: seq<Hook>, log: seq<Entry>, more: seq<Hook>, log': seq<Entry>)
    requires AreHooksOf(hooks, log) && log <= log' && |log'| == |log| + |more|
    requires forall i :: 0 <= i < |more| ==> log'[|log| + i].hook == more[i]
    ensures AreHooksOf(hooks + more, log')
  {
    forall i | 0 <= i < |hooks + more|
      ensures log'[i].hook == (hooks + more)[i]
    {
      assert i >= |log| ==> log'[|log| + (i - |log|)].hook == more[i - |log|];
    }
  }

  lemma NextEvent(events: seq<Event>, i: nat)
    requires i < |events|
    ensures AfterEvents(events[..i + 1]) == AfterEvent(AfterEvents(events[..i]), events[i])
  {
    assert events[..i + 1][..i] == events[..i];
  }

  lemma NullIsNothing(p: Progress)
    ensures AfterEvent(p, Null) == p
  {}

  /** The events before the first `null`. */
  function UpToNull(events: seq<Event>): (front: seq<Event>)
    ensures front <= events && forall k :: 0 <= k < |front| ==> !front[k].Null?
    ensures |front| < |events| ==> events[|front|].Null?
  {
    if events == [] || events[0].Null? then [] else [events[0]] + UpToNull(events[1..])
  }

  lemma AtNull(events: seq<Event>, i: nat)
    requires i < |events| && i <= |UpToNull(events)|
    ensures events[i].Null? <==> i == |UpToNull(events)|
    ensures i == |UpToNull(events)| ==> UpToNull(events) == events[..i]
  {
    assert i < |UpToNull(events)| ==> UpToNull(events)[i] == events[i];
  }

  /** The state after a whole subscription. */
  ghost function AfterStream(events: seq<Event>): Progress {
    var front := UpToNull(events);
    if |front| == |events| then AfterEvents(events)
    else WithError(AfterEvents(front))
  }

  ghost function WithError(p: Progress): (q: Progress)
    ensures q.log != []
  {
    Logged(p, "", Hook(SessionError, "", Empty, 0))
  }

  ghost predicate LoggedAt(log: seq<Entry>, call: string, kind: HookKind, i: nat) {
    i < |log| && log[i].call == call && log[i].hook.kind == kind
  }

  /** At most one entry of the log is a hook of this kind for this call. */
  ghost predicate AtMostOnce(log: seq<Entry>, call: string, kind: HookKind) {
    forall i: nat, j: nat :: LoggedAt(log, call, kind, i) && LoggedAt(log, call, kind, j) ==> i == j
  }

  ghost predicate Fired(log: seq<Entry>, call: string, kind: HookKind) {
    exists i: nat :: LoggedAt(log, call, kind, i)
  }

  /** Every post hook of the call comes after a pre hook of it. */
  ghost predicate PostAfterPre(log: seq<Entry>, call: string) {
    forall j: nat :: LoggedAt(log, call, PostTool, j) ==> Fired(log[..j], call, PreTool)
  }

  /** The log is in order for one call, and the tracker of the call agrees with it. */
  ghost predicate CallOk(p: Progress, call: string) {
    && AtMostOnce(p.log, call, PreTool) && AtMostOnce(p.log, call, PostTool)
    && PostAfterPre(p.log, call)
    && (Tracker(p, call).firedPre <==> Fired(p.log, call, PreTool))
    && (Tracker(p, call).firedPost <==> Fired(p.log, call, PostTool))
  }

  /** Some event reported the call as running or ended; some event reported it as ended. */
  ghost predicate Started(events: seq<Event>, call: string) {
    exists e :: e in events && CallOf(e) == call && StatusOf(e) != OtherStatus
  }

  ghost predicate Ended(events: seq<Event>, call: string) {
    exists e :: e in events && CallOf(e) == call && IsTerminal(StatusOf(e))
  }

  function NumberOr0(n: Option<int>): int {
    match n
    case None => 0
    case Some(number) => number
  }

  /** The usage after an event: the end of a step adds its tokens in, fresh and to and from the cache, its tokens out,
      reasoning included, and its cost. */
  function Counted(u: Usage, e: Event): Usage {
    match e
    case PartUpdated(Some(StepFinish(Some(Tokens(input, output, reasoning, cacheWrite, cacheRead)), cost))) =>
      Usage(u.input + NumberOr0(input) + NumberOr0(cacheWrite) + NumberOr0(cacheRead),
            u.output + NumberOr0(output) + NumberOr0(reasoning),
            u.cost + (match cost case None => 0.0 case Some(dollars) => dollars), true)
    case _ => u
  }

  ghost function UsageOf(events: seq<Event>): Usage {
    if events == [] then Usage(0, 0, 0.0, false)
    else Counted(UsageOf(events[..|events| - 1]), events[|events| - 1])
  }

  lemma FiredAppended(log: seq<Entry>, entry: Entry, call: string, kind: HookKind)
    ensures Fired(log + [entry], call, kind) <==>
              Fired(log, call, kind) || (entry.call == call && entry.hook.kind == kind)
  {
    if i: nat :| LoggedAt(log, call, kind, i) {
      assert LoggedAt(log + [entry], call, kind, i);
    }
    if entry.call == call && entry.hook.kind == kind {
      assert LoggedAt(log + [entry], call, kind, |log|);
    }
    if i: nat :| LoggedAt(log + [entry], call, kind, i) {
      assert i < |log| ==> LoggedAt(log, call, kind, i);
    }
  }

  lemma OnceAppended(log: seq<Entry>, entry: Entry, call: string, kind: HookKind)
    requires AtMostOnce(log, call, kind)
    requires entry.call == call && entry.hook.kind == kind ==> !Fired(log, call, kind)
    ensures AtMostOnce(log + [entry], call, kind)
  {
    forall i: nat, j: nat | LoggedAt(log + [entry], call, kind, i) && LoggedAt(log + [entry], call, kind, j)
      ensures i == j
    {
      assert i < |log| ==> LoggedAt(log, call, kind, i);
      assert j < |log| ==> LoggedAt(log, call, kind, j);
    }
  }

  lemma OrderAppended(log: seq<Entry>, entry: Entry, call: string)
    requires PostAfterPre(log, call)
    requires entry.call == call && entry.hook.kind == PostTool ==> Fired(log, call, PreTool)
    ensures PostAfterPre(log + [entry], call)
  {
    forall j: nat | LoggedAt(log + [entry], call, PostTool, j)
      ensures Fired((log + [entry])[..j], call, PreTool)
    {
      assert (log + [entry])[..j] == log[..j];
      assert j < |log| ==> LoggedAt(log, call, PostTool, j);
      assert j == |log| ==> log[..j] == log;
    }
  }

  /** Handing out one hook keeps a call's log in order if the hook is due. */
  lemma Appended(log: seq<Entry>, entry: Entry, call: string)
    requires AtMostOnce(log, call, PreTool) && AtMostOnce(log, call, PostTool) && PostAfterPre(log, call)
    requires entry.call == call && entry.hook.kind == PreTool ==> !Fired(log, call, PreTool)
    requires entry.call == call && entry.hook.kind == PostTool ==>
              !Fired(log, call, PostTool) && Fired(log, call, PreTool)
    ensures var after := log + [entry];
            && AtMostOnce(after, call, PreTool) && AtMostOnce(after, call, PostTool) && PostAfterPre(after, call)
            && (Fired(after, call, PreTool) <==>
                Fired(log, call, PreTool) || (entry.call == call && entry.hook.kind == PreTool))
            && (Fired(after, call, PostTool) <==>
                Fired(log, call, PostTool) || (entry.call == call && entry.hook.kind == PostTool))
  {
    OnceAppended(log, entry, call, PreTool);
    OnceAppended(log, entry, call, PostTool);
    OrderAppended(log, entry, call);
    FiredAppended(log, entry, call, PreTool);
    FiredAppended(log, entry, call, PostTool);
  }

  lemma PostImpliesPre(p: Progress, call: string)
    requires CallOk(p, call) && Tracker(p, call).firedPost
    ensures Tracker(p, call).firedPre
  {
    var j: nat :| LoggedAt(p.log, call, PostTool, j);
    var i: nat :| LoggedAt(p.log[..j], call, PreTool, i);
    assert LoggedAt(p.log, call, PreTool, i);
  }

  /** Events keep every call in order. */
  lemma StepKeepsCallOk(p: Progress, e: Event, call: string)
    requires CallOk(p, call) && call != ""
    ensures CallOk(AfterEvent(p, e), call)
    ensures Tracker(AfterEvent(p, e), call).firedPre <==>
            Tracker(p, call).firedPre || (CallOf(e) == call && StatusOf(e) != OtherStatus)
    ensures Tracker(AfterEvent(p, e), call).firedPost <==>
            Tracker(p, call).firedPost || (CallOf(e) == call && IsTerminal(StatusOf(e)))
  {
    if Tracker(p, call).firedPost {
      PostImpliesPre(p, call);
    }
    if e == SessionIdle {
      Appended(p.log, Entry("", Hook(SessionStop, "", Empty, p.count + 1)), call);
    } else if CallOf(e) != "" {
      var c, part := CallOf(e), e.part.value;
      var t, status := Tracker(p, c), PartStatus(part);
      var pre := Entry(c, PreHook(part, p.count + 1));
      var afterPre := p.log + [pre];
      if !t.firedPre && (status == Running || (IsTerminal(status) && !t.firedPost)) {
        Appended(p.log, pre, call);
        if IsTerminal(status) {
          Appended(afterPre, Entry(c, PostHook(part, p.count + 2)), call);
        }
      } else if !t.firedPost && IsTerminal(status) {
        Appended(p.log, Entry(c, PostHook(part, p.count + 1)), call);
      }
    }
  }

  /** In every run each call gets at most one pre and one post hook, the post after the pre, and it gets them exactly
      when some event reported the call as running or ended, or as ended. */
  lemma {:induction false} CallsAreInOrder(events: seq<Event>, call: string)
    requires call != ""
    ensures var p := AfterEvents(events);
            && CallOk(p, call)
            && (Fired(p.log, call, PreTool) <==> Started(events, call))
            && (Fired(p.log, call, PostTool) <==> Ended(events, call))
  {
    if events != [] {
      var front, last := events[..|events| - 1], events[|events| - 1];
      CallsAreInOrder(front, call);
      StepKeepsCallOk(AfterEvents(front), last, call);
      SeenAppended(front, last, call);
      assert front + [last] == events;
    }
  }

  lemma SeenAppended(events: seq<Event>, last: Event, call: string)
    ensures Started(events + [last], call) <==>
              Started(events, call) || (CallOf(last) == call && StatusOf(last) != OtherStatus)
    ensures Ended(events + [last], call) <==>
              Ended(events, call) || (CallOf(last) == call && IsTerminal(StatusOf(last)))
  {
    assert last in events + [last];
    assert forall e :: e in events + [last] <==> e in events || e == last;
  }

  // ---------------------------------------------------------------- which event a hook reports

  /** The event makes the hook of this kind due for the call. */
  predicate IsDue(e: Event, call: string, kind: HookKind) {
    CallOf(e) == call && if kind == PostTool then IsTerminal(StatusOf(e)) else StatusOf(e) != OtherStatus
  }

  ghost predicate IsFirstDue(events: seq<Event>, call: string, kind: HookKind, j: nat) {
    j < |events| && IsDue(events[j], call, kind) && forall i :: 0 <= i < j ==> !IsDue(events[i], call, kind)
  }

  /** The hook names the event's tool and carries its input or, for a post hook, its outcome. */
  predicate Reports(h: Hook, e: Event) {
    && e.PartUpdated? && e.part.Some? && e.part.value.Tool? && e.part.value.state.Some?
    && var part := e.part.value;
    && h.tool == (if part.tool.Some? then part.tool.value else "")
    && h.payload == (if h.kind == PostTool then
                       Result(part.state.value.output, part.state.value.status, part.state.value.time)
                     else Input(part.state.value.input))
  }

  /** What one event adds to the log: only hooks that it makes due, each reporting it. */
  lemma AddedHooksReport(p: Progress, e: Event, call: string, kind: HookKind, i: nat)
    requires call != "" && (kind == PreTool || kind == PostTool)
    requires i >= |p.log| && LoggedAt(AfterEvent(p, e).log, call, kind, i)
    ensures IsDue(e, call, kind) && Reports(AfterEvent(p, e).log[i].hook, e)
    ensures kind == PreTool ==> !Tracker(p, call).firedPre
    ensures kind == PostTool ==> !Tracker(p, call).firedPost
  {}

  lemma LogGrows(p: Progress, e: Event)
    ensures p.log <= AfterEvent(p, e).log
  {}

  /** Each hook of a call reports the first event that made it due. */
  lemma {:induction false} HooksReportFirstDue(events: seq<Event>, call: string, kind: HookKind, i: nat)
    requires call != "" && (kind == PreTool || kind == PostTool) && LoggedAt(AfterEvents(events).log, call, kind, i)
    ensures exists j: nat :: IsFirstDue(events, call, kind, j) && Reports(AfterEvents(events).log[i].hook, events[j])
  {
    if events != [] {
      var front, last := events[..|events| - 1], events[|events| - 1];
      var before := AfterEvents(front);
      LogGrows(before, last);
      if i < |before.log| {
        HooksReportFirstDue(front, call, kind, i);
        var j: nat :| IsFirstDue(front, call, kind, j) && Reports(before.log[i].hook, front[j]);
        assert IsFirstDue(events, call, kind, j);
      } else {
        AddedHooksReport(before, last, call, kind, i);
        CallsAreInOrder(front, call);
        assert forall j :: 0 <= j < |front| ==> front[j] in front;
        assert IsFirstDue(events, call, kind, |front|);
      }
    }
  }

  // ---------------------------------------------------------------- numbers and usage

  ghost predicate IsNumbered(p: Progress) {
    p.count == |p.log| && forall i :: 0 <= i < |p.log| ==> p.log[i].hook.index == i + 1
  }

  lemma LoggedIsNumbered(p: Progress, call: string, h: Hook)
    requires IsNumbered(p)
    ensures IsNumbered(Logged(p, call, h))
  {}

  lemma StepIsNumbered(p: Progress, e: Event)
    requires IsNumbered(p)
    ensures IsNumbered(AfterEvent(p, e))
  {
    if CallOf(e) != "" {
      var part, call, t := e.part.value, CallOf(e), Tracker(p, CallOf(e));
      forall q: Progress, h: Hook | IsNumbered(q)
        ensures IsNumbered(Logged(q, call, h))
      {
        LoggedIsNumbered(q, call, h);
      }
    }
  }

  /** Only step-finish parts change the usage. */
  lemma StepSums(p: Progress, e: Event)
    ensures AfterEvent(p, e).usage == Counted(p.usage, e)
  {}

  /** The hooks of a run are numbered 1, 2, ... without gaps, and the usage is the sum over all steps that
      carry tokens. */
  lemma {:induction false} NumberedAndSummed(events: seq<Event>)
    ensures IsNumbered(AfterEvents(events)) && AfterEvents(events).usage == UsageOf(events)
  {
    if events != [] {
      var front, last := events[..|events| - 1], events[|events| - 1];
      NumberedAndSummed(front);
      StepIsNumbered(AfterEvents(front), last);
      StepSums(AfterEvents(front), last);
    }
  }

  // ---------------------------------------------------------------- whole subscriptions

  /** Events never report an error of the session. */
  lemma {:induction false} EventsAreNoErrors(events: seq<Event>, i: nat)
    requires i < |AfterEvents(events).log|
    ensures AfterEvents(events).log[i].hook.kind != SessionError
  {
    if events != [] {
      var front, last := events[..|events| - 1], events[|events| - 1];
      LogGrows(AfterEvents(front), last);
      if i < |AfterEvents(front).log| {
        EventsAreNoErrors(front, i);
      }
    }
  }

  /** A subscription hands out an error of the session if and only if some event is `null`: once, as the last hook. All
      its hooks are numbered without gaps, and hooks and usage are those of the events before the first `null`. */
  lemma StreamIsDetermined(events: seq<Event>, i: nat)
    requires i < |AfterStream(events).log|
    ensures var p, front := AfterStream(events), UpToNull(events);
            && IsNumbered(p) && p.usage == UsageOf(front) && AfterEvents(front).log <= p.log
            && |p.log| == |AfterEvents(front).log| + (if front == events then 0 else 1)
            && (p.log[i].hook.kind == SessionError <==> front != events && i == |p.log| - 1)
  {
    var front := UpToNull(events);
    assert |front| == |events| ==> front == events;
    NumberedAndSummed(front);
    if i < |AfterEvents(front).log| {
      EventsAreNoErrors(front, i);
    }
  }

  /** How many entries of the log end a session, and how many events find it idle. */
  ghost function Stops(log: seq<Entry>): nat {
    if log == [] then 0
    else Stops(log[..|log| - 1]) + (if log[|log| - 1].hook.kind == SessionStop then 1 else 0)
  }

  ghost function Idles(events: seq<Event>): nat {
    if events == [] then 0
    else Idles(events[..|events| - 1]) + (if events[|events| - 1].SessionIdle? then 1 else 0)
  }

  lemma StopsGrow(p: Progress, call: string, h: Hook)
    ensures Stops(Logged(p, call, h).log) == Stops(p.log) + if h.kind == SessionStop then 1 else 0
  {
    var log := Logged(p, call, h).log;
    assert log[..|log| - 1] == p.log;
  }

  lemma StopOnIdle(p: Progress, e: Event)
    ensures Stops(AfterEvent(p, e).log) == Stops(p.log) + if e.SessionIdle? then 1 else 0
  {
    forall q: Progress, call, h
      ensures Stops(Logged(q, call, h).log) == Stops(q.log) + if h.kind == SessionStop then 1 else 0
    {
      StopsGrow(q, call, h);
    }
  }

  /** A session is reported as stopped once for every time it is found idle. */
  lemma {:induction false} StopsAreIdles(events: seq<Event>)
    ensures Stops(AfterEvents(events).log) == Idles(events)
  {
    if events != [] {
      StopsAreIdles(events[..|events| - 1]);
      StopOnIdle(AfterEvents(events[..|events| - 1]), events[|events| - 1]);
    }
  }

  /** Calls are in order over a whole subscription, too. */
  lemma StreamKeepsCallsInOrder(events: seq<Event>, call: string)
    requires call != ""
    ensures var p, front := AfterStream(events), UpToNull(events);
            && CallOk(p, call)
            && (Fired(p.log, call, PreTool) <==> Started(front, call))
            && (Fired(p.log, call, PostTool) <==> Ended(front, call))
  {
    var front := UpToNull(events);
    assert |front| == |events| ==> front == events;
    CallsAreInOrder(front, call);
    if front != events {
      var p := AfterEvents(front);
      Appended(p.log, Entry("", Hook(SessionError, "", Empty, p.count + 1)), call);
    }
  }
}
