/** Everything that may happen to a row of the tasks table, and what holds over every run of such events. */
module Lifecycle {
  import opened Wrappers
  import opened Path
  import opened State
  import opened TaskSm
  import opened Db

  const MAX_REVIEW_ROUNDS := 3

  /** The ways in which some handler or pass changes an existing row. */
  datatype TaskEvent =
    | ProposalAccepted(assignee: AgentId, room: Option<RoomId>)
    | Dispatched
    | Submitted
    | ChangesAsked
    | GaveUp
    | StatusChanged(transition: Transition)
    | Stolen(peer: AgentId)
    | Recovered(peer: AgentId)
    | BlockingSet(blocker: Option<TaskId>)
    | BlockerCleared

  /** An agent of the startup. */
  predicate BelongsTo(agents: AgentTable, a: AgentId, startup: StartupId) {
    a in agents && agents[a].startup == startup
  }

  predicate SameRole(agents: AgentTable, a: AgentId, b: AgentId) {
    a in agents && b in agents && agents[a].role == agents[b].role
  }

  /** Nothing to wait for: no blocker, a blocker that does not exist, or one that has come to rest. */
  predicate Unblocked(tasks: TaskTable, t: Task) {
    t.blockedOn.Some? && t.blockedOn.value in tasks ==> IsTerminal(tasks[t.blockedOn.value].status)
  }

  predicate StatusOnly(t: Transition) {
    t.RejectProposal? || t.TaskAccept? || t.OperatorForceAccept? || t.OperatorForceFail? || t.Fail?
  }

  /** Row `id` changes from `tasks[id]` to `t'` by event `e`: the guard of the event and its whole effect. */
  ghost predicate RowStep(tasks: TaskTable, agents: AgentTable, id: TaskId, e: TaskEvent, t': Task) {
    id in tasks
    && var t := tasks[id];
    match e
    case ProposalAccepted(a, room) =>
      && Next(t.status, AcceptProposal).Some? && BelongsTo(agents, a, t.startup)
      && t' == t.(status := Queued, assignee := Some(a), requiredRoom := room)
    case Dispatched =>
      && Next(t.status, AssignFromQueued).Some? && t.assignee.Some? && Unblocked(tasks, t)
      && t' == t.(status := InProgress, blockedOn := None)
    case Submitted =>
      && Next(t.status, TaskDoneMcp).Some? && t.assignee.Some?
      && t' == t.(status := AwaitingReview, artifact := Some(CanonicalArtifact(t.startup, id)))
    case ChangesAsked =>
      && Next(t.status, RequestChanges).Some? && t.reviewRound < MAX_REVIEW_ROUNDS
      && t' == t.(status := ChangesRequested, reviewRound := t.reviewRound + 1)
    case GaveUp =>
      && Next(t.status, Escalate).Some? && t.reviewRound >= MAX_REVIEW_ROUNDS
      && t' == t.(status := Escalated)
    case StatusChanged(tr) =>
      && StatusOnly(tr) && Next(t.status, tr).Some?
      && t' == t.(status := Next(t.status, tr).value)
    case Stolen(peer) =>
      && t.status == Queued && t.assignee.Some?
      && BelongsTo(agents, peer, t.startup) && SameRole(agents, t.assignee.value, peer)
      && t' == t.(assignee := Some(peer))
    case Recovered(peer) =>
      && t.status == ChangesRequested && t.assignee.Some?
      && BelongsTo(agents, peer, t.startup) && SameRole(agents, t.assignee.value, peer)
      && t' == t.(status := Queued, reviewRound := 0, assignee := Some(peer))
    case BlockingSet(b) =>
      && b != Some(id)
      && t' == t.(blockedOn := b)
    case BlockerCleared =>
      && t.status == Queued && Unblocked(tasks, t)
      && t' == t.(blockedOn := None)
  }

  /** A row as the creation paths insert it. */
  predicate IsNewRow(agents: AgentTable, t: Task) {
    && t.reviewRound == 0 && t.artifact == None
    && (t.status == Queued || (t.status == Proposed && t.assignee == None))
    && (t.assignee.Some? ==> BelongsTo(agents, t.assignee.value, t.startup))
  }

  // ---------------------------------------------------------------- runs

  datatype TaskWorld = TaskWorld(tasks: TaskTable, agents: AgentTable)

  datatype Action =
    | Change(id: TaskId, event: TaskEvent)
    | Insert(id: TaskId, row: Task)
    | Hire(agent: AgentId, hired: Agent)
    | SetPeerReviewer(agent: AgentId, on: bool)

  /** One step: a row event, a new row under a new id, a new agent, or a reviewer flag. */
  ghost predicate TaskNext(s: TaskWorld, action: Action, s': TaskWorld) {
    match action
    case Change(id, e) =>
      && s'.agents == s.agents
      && id in s'.tasks && RowStep(s.tasks, s.agents, id, e, s'.tasks[id])
      && s'.tasks == s.tasks[id := s'.tasks[id]]
    case Insert(id, row) =>
      && id !in s.tasks && IsNewRow(s.agents, row)
      && s' == s.(tasks := s.tasks[id := row])
    case Hire(a, hired) =>
      && a !in s.agents
      && s' == s.(agents := s.agents[a := hired])
    case SetPeerReviewer(a, on) =>
      && a in s.agents
      && s' == s.(agents := s.agents[a := s.agents[a].(peerReviewer := on)])
  }

  ghost predicate TaskStepAt(trace: seq<TaskWorld>, actions: seq<Action>, i: nat)
    requires i < |actions| && |trace| == |actions| + 1
  {
    TaskNext(trace[i], actions[i], trace[i + 1])
  }

  /** A run from an empty tasks table. */
  ghost predicate IsTaskRun(trace: seq<TaskWorld>, actions: seq<Action>) {
    && |trace| == |actions| + 1
    && trace[0].tasks == map[]
    && forall i :: 0 <= i < |actions| ==> TaskStepAt(trace, actions, i)
  }

  /** A stretch of such steps from any state. */
  ghost predicate IsTaskStretch(trace: seq<TaskWorld>, actions: seq<Action>) {
    |trace| == |actions| + 1 && forall i :: 0 <= i < |actions| ==> TaskStepAt(trace, actions, i)
  }

  ghost predicate ChangesTo(s: TaskWorld, s': TaskWorld) {
    exists trace, actions :: IsTaskStretch(trace, actions) && trace[0] == s && trace[|actions|] == s'
  }

  lemma ChangesToItself(s: TaskWorld)
    ensures ChangesTo(s, s)
  {
    var trace: seq<TaskWorld>, actions: seq<Action> := [s], [];
    assert IsTaskStretch(trace, actions) && trace[0] == s && trace[|actions|] == s;
  }

  lemma ChangesCompose(s: TaskWorld, t: TaskWorld, s': TaskWorld)
    requires ChangesTo(s, t) && ChangesTo(t, s')
    ensures ChangesTo(s, s')
  {
    var trace, actions :| IsTaskStretch(trace, actions) && trace[0] == s && trace[|actions|] == t;
    var more, added :| IsTaskStretch(more, added) && more[0] == t && more[|added|] == s';
    var all := Joined(trace, actions, more, added);
    assert IsTaskStretch(all, actions + added) && all[0] == s && all[|actions + added|] == s';
  }

  lemma Joined(trace: seq<TaskWorld>, actions: seq<Action>, more: seq<TaskWorld>, added: seq<Action>)
    returns (all: seq<TaskWorld>)
    requires IsTaskStretch(trace, actions) && IsTaskStretch(more, added) && more[0] == trace[|actions|]
    ensures IsTaskStretch(all, actions + added) && trace <= all && all[|actions + added|] == more[|added|]
  {
    all := trace + more[1..];
    forall i | 0 <= i < |actions + added|
      ensures TaskStepAt(all, actions + added, i)
    {
      if i < |actions| {
        assert TaskStepAt(trace, actions, i);
      } else {
        assert TaskStepAt(more, added, i - |actions|);
      }
    }
  }

  /** A run followed by such a stretch is a run. */
  lemma TaskRunGoesOn(trace: seq<TaskWorld>, actions: seq<Action>, s': TaskWorld)
    returns (trace': seq<TaskWorld>, actions': seq<Action>)
    requires IsTaskRun(trace, actions) && ChangesTo(trace[|actions|], s')
    ensures IsTaskRun(trace', actions') && trace <= trace' && actions <= actions' && trace'[|actions'|] == s'
  {
    var more, added :| IsTaskStretch(more, added) && more[0] == trace[|actions|] && more[|added|] == s';
    trace' := Joined(trace, actions, more, added);
    actions' := actions + added;
  }

  // ---------------------------------------------------------------- where a row has been

  ghost predicate IsAt(trace: seq<TaskWorld>, id: TaskId, i: nat, status: TaskStatus)
    requires i < |trace|
  {
    id in trace[i].tasks && trace[i].tasks[id].status == status
  }

  ghost predicate WasStarted(trace: seq<TaskWorld>, id: TaskId, i: nat)
    requires i < |trace|
  {
    exists h: nat, k: nat :: h < k <= i && IsAt(trace, id, h, Queued) && IsAt(trace, id, k, InProgress)
  }

  ghost predicate WasReviewed(trace: seq<TaskWorld>, id: TaskId, i: nat)
    requires i < |trace|
  {
    exists k: nat, j: nat :: k < j <= i && WasStarted(trace, id, k) && IsAt(trace, id, j, AwaitingReview)
  }

  /** The statuses that only a row that was handed out can have. */
  predicate NeedsStart(s: TaskStatus) {
    s == InProgress || NeedsReview(s)
  }

  /** The statuses that only a row that was submitted can have. */
  predicate NeedsReview(s: TaskStatus) {
    s == AwaitingReview || s == ChangesRequested || s == Done || s == Escalated
  }

  lemma OneStepBack(s: TaskWorld, action: Action, s': TaskWorld, id: TaskId)
    requires TaskNext(s, action, s') && id in s'.tasks
    requires NeedsStart(s'.tasks[id].status) || s'.tasks[id].reviewRound > 0
    ensures id in s.tasks
    ensures var was, status := s.tasks[id].status, s'.tasks[id].status;
            && (status == InProgress ==> was == InProgress || was == Queued)
            && (status == AwaitingReview ==> was == AwaitingReview || was == InProgress || was == ChangesRequested)
            && (NeedsReview(status) && status != AwaitingReview ==> NeedsReview(was) || s.tasks[id].reviewRound > 0)
            && (s'.tasks[id].reviewRound > 0 ==> was == AwaitingReview || s.tasks[id].reviewRound > 0)
  {
    if action.Change? && action.id == id && action.event.StatusChanged? {
      Origins(s.tasks[id].status, action.event.transition);
    }
  }

  /** No row is in progress, in review, sent back, done or escalated without having been queued and handed out before,
      and none is in review, sent back, done or escalated without having been submitted for review after that. */
  lemma {:induction false} NoShortcuts(trace: seq<TaskWorld>, actions: seq<Action>, i: nat, id: TaskId)
    requires IsTaskRun(trace, actions) && i <= |actions| && id in trace[i].tasks
    ensures NeedsStart(trace[i].tasks[id].status) ==> WasStarted(trace, id, i)
    ensures NeedsReview(trace[i].tasks[id].status) || trace[i].tasks[id].reviewRound > 0 ==> WasReviewed(trace, id, i)
  {
    var t := trace[i].tasks[id];
    if i > 0 && (NeedsStart(t.status) || t.reviewRound > 0) {
      assert TaskStepAt(trace, actions, i - 1);
      OneStepBack(trace[i - 1], actions[i - 1], trace[i], id);
      NoShortcuts(trace, actions, i - 1, id);
      assert IsAt(trace, id, i - 1, trace[i - 1].tasks[id].status) && IsAt(trace, id, i, t.status);
    }
  }

  // ---------------------------------------------------------------- many rows at once

  /** Every row is unchanged or makes one step, and none comes to rest or leaves it. */
  ghost predicate RowsStepApart(tasks: TaskTable, agents: AgentTable, tasks': TaskTable) {
    tasks'.Keys == tasks.Keys && forall id :: id in tasks ==> StepsApart(tasks, agents, tasks', id)
  }

  ghost predicate StepsApart(tasks: TaskTable, agents: AgentTable, tasks': TaskTable, id: TaskId)
    requires id in tasks && id in tasks'
  {
    && (tasks'[id] == tasks[id] || exists e :: RowStep(tasks, agents, id, e, tasks'[id]))
    && IsTerminal(tasks'[id].status) == IsTerminal(tasks[id].status)
  }

  /** The table in which only the rows `ids` have made their step. */
  function Mixed(tasks: TaskTable, tasks': TaskTable, ids: set<TaskId>): TaskTable
    requires tasks'.Keys == tasks.Keys
  {
    map id | id in tasks :: if id in ids then tasks'[id] else tasks[id]
  }

  lemma UnblockedWhenMixed(tasks: TaskTable, agents: AgentTable, tasks': TaskTable, ids: set<TaskId>, t: Task)
    requires RowsStepApart(tasks, agents, tasks')
    ensures Unblocked(Mixed(tasks, tasks', ids), t) == Unblocked(tasks, t)
  {
    if t.blockedOn.Some? && t.blockedOn.value in tasks {
      assert StepsApart(tasks, agents, tasks', t.blockedOn.value);
    }
  }

  lemma ChangesOnce(s: TaskWorld, action: Action, s': TaskWorld)
    requires TaskNext(s, action, s')
    ensures ChangesTo(s, s')
  {
    var trace, actions := [s, s'], [action];
    assert TaskStepAt(trace, actions, 0);
    assert IsTaskStretch(trace, actions) && trace[0] == s && trace[|actions|] == s';
  }

  lemma OneRowStep(tasks: TaskTable, agents: AgentTable, tasks': TaskTable, ids: set<TaskId>, id: TaskId)
    requires RowsStepApart(tasks, agents, tasks') && id in tasks && id !in ids
    ensures ChangesTo(TaskWorld(Mixed(tasks, tasks', ids), agents), TaskWorld(Mixed(tasks, tasks', ids + {id}), agents))
  {
    var s, s' := TaskWorld(Mixed(tasks, tasks', ids), agents), TaskWorld(Mixed(tasks, tasks', ids + {id}), agents);
    assert StepsApart(tasks, agents, tasks', id);
    assert s'.tasks == s.tasks[id := tasks'[id]];
    if tasks'[id] == tasks[id] {
      assert s' == s;
      ChangesToItself(s);
    } else {
      var e :| RowStep(tasks, agents, id, e, tasks'[id]);
      UnblockedWhenMixed(tasks, agents, tasks', ids, tasks[id]);
      assert TaskNext(s, Change(id, e), s');
      ChangesOnce(s, Change(id, e), s');
    }
  }

  /** Rows that step independently of each other can step one after the other. */
  lemma {:induction false} RowsStepInTurn(tasks: TaskTable, agents: AgentTable, tasks': TaskTable, ids: set<TaskId>)
    requires RowsStepApart(tasks, agents, tasks') && ids <= tasks.Keys
    ensures ChangesTo(TaskWorld(tasks, agents), TaskWorld(Mixed(tasks, tasks', ids), agents))
  {
    if ids == {} {
      assert Mixed(tasks, tasks', ids) == tasks;
      ChangesToItself(TaskWorld(tasks, agents));
    } else {
      var id :| id in ids;
      var rest := ids - {id};
      RowsStepInTurn(tasks, agents, tasks', rest);
      OneRowStep(tasks, agents, tasks', rest, id);
      assert rest + {id} == ids;
      ChangesCompose(TaskWorld(tasks, agents), TaskWorld(Mixed(tasks, tasks', rest), agents),
                     TaskWorld(Mixed(tasks, tasks', ids), agents));
    }
  }

  lemma RowsStepAll(tasks: TaskTable, agents: AgentTable, tasks': TaskTable)
    requires RowsStepApart(tasks, agents, tasks')
    ensures ChangesTo(TaskWorld(tasks, agents), TaskWorld(tasks', agents))
  {
    RowsStepInTurn(tasks, agents, tasks', tasks.Keys);
    assert Mixed(tasks, tasks', tasks.Keys) == tasks';
  }

  // ---------------------------------------------------------------- what every row satisfies

  predicate HasBeenSubmitted(s: TaskStatus) {
    s == AwaitingReview || s == ChangesRequested || s == Escalated || s == Done
  }

  ghost predicate RowOk(agents: AgentTable, id: TaskId, t: Task) {
    && t.reviewRound <= MAX_REVIEW_ROUNDS
    && (t.status == Proposed || t.status == Queued || t.status == InProgress ==> t.reviewRound == 0)
    && (t.status == ChangesRequested ==> t.reviewRound >= 1)
    && (t.status == Escalated ==> t.reviewRound == MAX_REVIEW_ROUNDS)
    && (HasBeenSubmitted(t.status) ==> t.artifact == Some(CanonicalArtifact(t.startup, id)))
    && (HasBeenSubmitted(t.status) || t.status == InProgress ==> t.assignee.Some?)
    && (t.status == Proposed ==> t.assignee == None)
    && (t.assignee.Some? ==> BelongsTo(agents, t.assignee.value, t.startup))
  }

  ghost predicate AllRowsOk(s: TaskWorld) {
    forall id :: id in s.tasks ==> RowOk(s.agents, id, s.tasks[id])
  }

  lemma RowOkPreserved(tasks: TaskTable, agents: AgentTable, id: TaskId, e: TaskEvent, t': Task)
    requires RowStep(tasks, agents, id, e, t') && RowOk(agents, id, tasks[id])
    ensures RowOk(agents, id, t')
  {}

  lemma AllRowsOkPreserved(s: TaskWorld, action: Action, s': TaskWorld)
    requires AllRowsOk(s) && TaskNext(s, action, s')
    ensures AllRowsOk(s')
  {
    forall id | id in s'.tasks
      ensures RowOk(s'.agents, id, s'.tasks[id])
    {
      if id in s.tasks {
        assert RowOk(s.agents, id, s.tasks[id]);
        if action.Change? && action.id == id {
          RowOkPreserved(s.tasks, s.agents, id, action.event, s'.tasks[id]);
        }
      }
    }
  }

  /** In every reachable state every row satisfies `RowOk`. */
  lemma {:induction false} ReachableRowsOk(trace: seq<TaskWorld>, actions: seq<Action>, i: nat)
    requires IsTaskRun(trace, actions) && i < |trace|
    ensures AllRowsOk(trace[i])
  {
    if i > 0 {
      ReachableRowsOk(trace, actions, i - 1);
      assert TaskStepAt(trace, actions, i - 1);
      AllRowsOkPreserved(trace[i - 1], actions[i - 1], trace[i]);
    }
  }

  // ---------------------------------------------------------------- boundedly many status changes

  /** Falls with every status change except a recovery. */
  function Rank(t: Task): int {
    match t.status
    case Proposed => 11
    case Queued => 10
    case InProgress => 9
    case AwaitingReview => 8 - 2 * t.reviewRound
    case ChangesRequested => 9 - 2 * t.reviewRound
    case Escalated => 1
    case Done => 0
    case Failed => 0
  }

  lemma RankFalls(tasks: TaskTable, agents: AgentTable, id: TaskId, e: TaskEvent, t': Task)
    requires RowStep(tasks, agents, id, e, t') && RowOk(agents, id, tasks[id])
    ensures 0 <= Rank(t') <= 11
    ensures !e.Recovered? && t'.status != tasks[id].status ==> Rank(t') < Rank(tasks[id])
    ensures t'.status == tasks[id].status ==> Rank(t') == Rank(tasks[id])
    ensures e.Recovered? ==> Rank(t') <= Rank(tasks[id]) + 7
  {}

  /** How often the status of row `id` changes in a stretch of a run. */
  function StatusChanges(trace: seq<TaskWorld>, id: TaskId, i: nat, j: nat): nat
    requires i <= j < |trace|
  {
    if i == j then 0
    else
      var s, s' := trace[j - 1].tasks, trace[j].tasks;
      StatusChanges(trace, id, i, j - 1)
      + (if id in s && id in s' && s[id].status != s'[id].status then 1 else 0)
  }

  /** How often it is recovered. */
  function Recoveries(actions: seq<Action>, id: TaskId, i: nat, j: nat): nat
    requires i <= j <= |actions|
  {
    if i == j then 0
    else Recoveries(actions, id, i, j - 1)
         + (if actions[j - 1].Change? && actions[j - 1].id == id && actions[j - 1].event.Recovered? then 1 else 0)
  }

  lemma RowsPersist(trace: seq<TaskWorld>, actions: seq<Action>, id: TaskId, i: nat)
    requires IsTaskRun(trace, actions) && i < |actions| && id in trace[i].tasks
    ensures id in trace[i + 1].tasks
  {
    assert TaskStepAt(trace, actions, i);
  }

  /** One step of a run, seen from one row. */
  lemma RankAlongStep(trace: seq<TaskWorld>, actions: seq<Action>, id: TaskId, i: nat)
    requires IsTaskRun(trace, actions) && i < |actions| && id in trace[i].tasks
    ensures id in trace[i + 1].tasks
    ensures 0 <= Rank(trace[i].tasks[id]) <= 11 && 0 <= Rank(trace[i + 1].tasks[id])
    ensures StatusChanges(trace, id, i, i + 1) + Rank(trace[i + 1].tasks[id])
            <= Rank(trace[i].tasks[id]) + 8 * Recoveries(actions, id, i, i + 1)
  {
    ReachableRowsOk(trace, actions, i);
    assert RowOk(trace[i].agents, id, trace[i].tasks[id]);
    RowsPersist(trace, actions, id, i);
    assert TaskStepAt(trace, actions, i);
    if actions[i].Change? && actions[i].id == id {
      RankFalls(trace[i].tasks, trace[i].agents, id, actions[i].event, trace[i + 1].tasks[id]);
    } else {
      assert trace[i + 1].tasks[id] == trace[i].tasks[id];
    }
  }

  /** From the state in which a task exists on, it changes status at most 11 times plus 8 times per recovery. */
  lemma {:induction false} BoundedStatusChanges(trace: seq<TaskWorld>, actions: seq<Action>, id: TaskId, i: nat, j: nat)
    requires IsTaskRun(trace, actions) && i <= j < |trace| && id in trace[i].tasks
    ensures id in trace[j].tasks
    ensures StatusChanges(trace, id, i, j) + Rank(trace[j].tasks[id])
            <= Rank(trace[i].tasks[id]) + 8 * Recoveries(actions, id, i, j)
    ensures StatusChanges(trace, id, i, j) <= 11 + 8 * Recoveries(actions, id, i, j)
    decreases j
  {
    if i < j {
      BoundedStatusChanges(trace, actions, id, i, j - 1);
      RankAlongStep(trace, actions, id, j - 1);
      RankAlongStep(trace, actions, id, i);
    }
  }

  // ---------------------------------------------------------------- review rounds

  /** How often changes to row `id` are asked for. */
  function Requests(actions: seq<Action>, id: TaskId, i: nat, j: nat): nat
    requires i <= j <= |actions|
  {
    if i == j then 0
    else Requests(actions, id, i, j - 1) + (if actions[j - 1] == Change(id, ChangesAsked) then 1 else 0)
  }

  /** The row was last in the queue in state `q`. */
  ghost predicate LeftQueueAt(trace: seq<TaskWorld>, id: TaskId, q: nat, i: nat)
    requires q <= i < |trace|
  {
    IsAt(trace, id, q, Queued) && forall m: nat :: q < m <= i ==> !IsAt(trace, id, m, Queued)
  }

  /** A row that was in the queue and is not now left it at some time. */
  lemma {:induction false} LeftQueue(trace: seq<TaskWorld>, id: TaskId, h: nat, i: nat) returns (q: nat)
    requires h <= i < |trace| && IsAt(trace, id, h, Queued)
    ensures h <= q <= i && LeftQueueAt(trace, id, q, i)
    decreases i
  {
    if IsAt(trace, id, i, Queued) {
      q := i;
    } else {
      q := LeftQueue(trace, id, h, i - 1);
    }
  }

  lemma RoundStep(s: TaskWorld, action: Action, s': TaskWorld, id: TaskId)
    requires TaskNext(s, action, s') && id in s.tasks && id in s'.tasks && s'.tasks[id].status != Queued
    ensures s'.tasks[id].reviewRound ==
            s.tasks[id].reviewRound + if action == Change(id, ChangesAsked) then 1 else 0
  {}

  /** The round of a row is the number of times that changes were asked for since it was last in the queue. */
  lemma {:induction false} RoundsAreRequests(trace: seq<TaskWorld>, actions: seq<Action>, id: TaskId, q: nat, i: nat)
    requires IsTaskRun(trace, actions) && q <= i <= |actions| && LeftQueueAt(trace, id, q, i)
    ensures id in trace[i].tasks && trace[i].tasks[id].reviewRound == Requests(actions, id, q, i)
    decreases i
  {
    if q == i {
      ReachableRowsOk(trace, actions, q);
      assert RowOk(trace[q].agents, id, trace[q].tasks[id]);
    } else {
      RoundsAreRequests(trace, actions, id, q, i - 1);
      RowsPersist(trace, actions, id, i - 1);
      assert TaskStepAt(trace, actions, i - 1) && !IsAt(trace, id, i, Queued);
      RoundStep(trace[i - 1], actions[i - 1], trace[i], id);
    }
  }

  /** A row with requested changes was in the queue before, and its round counts the requests since. */
  lemma RequestedSinceQueue(trace: seq<TaskWorld>, actions: seq<Action>, id: TaskId, i: nat) returns (q: nat)
    requires IsTaskRun(trace, actions) && i <= |actions| && IsAt(trace, id, i, ChangesRequested)
    ensures q <= i && LeftQueueAt(trace, id, q, i)
    ensures trace[i].tasks[id].reviewRound == Requests(actions, id, q, i)
    ensures trace[i].tasks[id].reviewRound <= MAX_REVIEW_ROUNDS
    ensures trace[i].tasks[id].assignee.Some? && trace[i].tasks[id].assignee.value in trace[i].agents
  {
    NoShortcuts(trace, actions, i, id);
    var k: nat, j: nat :| k < j <= i && WasStarted(trace, id, k) && IsAt(trace, id, j, AwaitingReview);
    var h: nat :| h < k && IsAt(trace, id, h, Queued);
    q := LeftQueue(trace, id, h, i);
    RoundsAreRequests(trace, actions, id, q, i);
    ReachableRowsOk(trace, actions, i);
    assert RowOk(trace[i].agents, id, trace[i].tasks[id]);
  }

  // ---------------------------------------------------------------- terminal tasks, blockers, roles

  /** A task that has come to rest stays at rest: the only change left is from escalated to failed. */
  lemma {:induction false} TerminalStays(trace: seq<TaskWorld>, actions: seq<Action>, id: TaskId, i: nat, j: nat)
    requires IsTaskRun(trace, actions) && i <= j < |trace|
    requires id in trace[i].tasks && trace[i].tasks[id].status in {Done, Failed, Escalated}
    ensures id in trace[j].tasks
    ensures trace[j].tasks[id].status == trace[i].tasks[id].status
            || (trace[i].tasks[id].status == Escalated && trace[j].tasks[id].status == Failed)
    decreases j
  {
    if i < j {
      TerminalStays(trace, actions, id, i, j - 1);
      assert TaskStepAt(trace, actions, j - 1);
    }
  }

  /** Between events `i` and `d` nobody sets or clears what the task waits for but the scheduler. */
  ghost predicate KeepsBlocker(actions: seq<Action>, id: TaskId, i: nat, d: nat) {
    forall m: nat :: i <= m < d && m < |actions| && actions[m].Change? && actions[m].id == id ==>
      !actions[m].event.BlockingSet?
  }

  /** The task still waits for the blocker, or the blocker has come to rest. */
  predicate WaitsOrRests(s: TaskWorld, id: TaskId, b: TaskId) {
    && id in s.tasks && b in s.tasks
    && (s.tasks[id].blockedOn == Some(b) || IsTerminal(s.tasks[b].status))
  }

  lemma {:induction false} BlockerIsAwaited(trace: seq<TaskWorld>, actions: seq<Action>, i: nat, d: nat, id: TaskId,
                                            b: TaskId)
    requires IsTaskRun(trace, actions) && i <= d < |trace| && KeepsBlocker(actions, id, i, d)
    requires id in trace[i].tasks && b in trace[i].tasks && trace[i].tasks[id].blockedOn == Some(b)
    ensures WaitsOrRests(trace[d], id, b)
    decreases d
  {
    if i < d {
      BlockerIsAwaited(trace, actions, i, d - 1, id, b);
      assert TaskStepAt(trace, actions, d - 1);
      if IsTerminal(trace[d - 1].tasks[b].status) {
        TerminalStays(trace, actions, b, d - 1, d);
      }
    }
  }

  /** A task that waits for a blocker is dispatched only after the blocker has come to rest, on whichever tick the
      scheduler stops waiting for it, and the blocker stays at rest. */
  lemma DispatchedBlockerStaysTerminal(trace: seq<TaskWorld>, actions: seq<Action>, i: nat, d: nat, j: nat, id: TaskId,
                                       b: TaskId)
    requires IsTaskRun(trace, actions) && i <= d < |actions| && d <= j < |trace| && KeepsBlocker(actions, id, i, d)
    requires id in trace[i].tasks && b in trace[i].tasks && trace[i].tasks[id].blockedOn == Some(b)
    requires actions[d] == Change(id, Dispatched)
    ensures b in trace[j].tasks && trace[j].tasks[b].status in {Done, Failed, Escalated}
  {
    BlockerIsAwaited(trace, actions, i, d, id, b);
    assert TaskStepAt(trace, actions, d);
    TerminalStays(trace, actions, b, d, j);
  }

  /** A row keeps its parent and its startup. */
  lemma {:induction false} ParentStays(trace: seq<TaskWorld>, actions: seq<Action>, id: TaskId, i: nat, j: nat)
    requires IsTaskRun(trace, actions) && i <= j < |trace| && id in trace[i].tasks
    ensures id in trace[j].tasks && trace[j].tasks[id].parent == trace[i].tasks[id].parent
    ensures trace[j].tasks[id].startup == trace[i].tasks[id].startup
    decreases j
  {
    if i < j {
      ParentStays(trace, actions, id, i, j - 1);
      assert TaskStepAt(trace, actions, j - 1);
    }
  }

  lemma AgentsPersist(trace: seq<TaskWorld>, actions: seq<Action>, a: AgentId, i: nat)
    requires IsTaskRun(trace, actions) && i < |actions| && a in trace[i].agents
    ensures a in trace[i + 1].agents
    ensures trace[i + 1].agents[a].role == trace[i].agents[a].role
    ensures trace[i + 1].agents[a].startup == trace[i].agents[a].startup
  {
    assert TaskStepAt(trace, actions, i);
  }

  /** Once a task has an assignee it always has one, of the same startup and the same role, however often it is
      stolen or recovered. */
  lemma {:induction false} AssigneeKeepsRole(trace: seq<TaskWorld>, actions: seq<Action>, id: TaskId, i: nat, j: nat)
    requires IsTaskRun(trace, actions) && i <= j < |trace|
    requires id in trace[i].tasks && trace[i].tasks[id].assignee.Some?
    ensures id in trace[j].tasks && trace[j].tasks[id].startup == trace[i].tasks[id].startup
    ensures trace[j].tasks[id].assignee.Some?
    ensures var (a, b) := (trace[i].tasks[id].assignee.value, trace[j].tasks[id].assignee.value);
            && a in trace[i].agents && trace[i].agents[a].startup == trace[i].tasks[id].startup
            && b in trace[j].agents && trace[j].agents[b].startup == trace[j].tasks[id].startup
            && trace[j].agents[b].role == trace[i].agents[a].role
    decreases j
  {
    ReachableRowsOk(trace, actions, i);
    assert RowOk(trace[i].agents, id, trace[i].tasks[id]);
    if i < j {
      AssigneeKeepsRole(trace, actions, id, i, j - 1);
      var b := trace[j - 1].tasks[id].assignee.value;
      AgentsPersist(trace, actions, b, j - 1);
      ReachableRowsOk(trace, actions, j - 1);
      assert RowOk(trace[j - 1].agents, id, trace[j - 1].tasks[id]);
      assert TaskStepAt(trace, actions, j - 1);
    }
  }
}
