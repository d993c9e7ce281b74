/** The task tools an agent's worker can call. Each handler either refuses and changes nothing, or performs one event
    of the task lifecycle. */
module McpDispatch {
  import opened Wrappers
  import opened Path
  import opened State
  import opened TaskSm
  import opened Db
  import opened Deadlines
  import opened Lifecycle

  const MAX_BODY_LENGTH := 4096

  datatype HandlerError =
    | UnknownTask | UnknownAssignee | CrossStartup | NoPermission | IllegalTransition | BadArtifactPath
    | SandboxViolation | MustFix | BadArgs | BodyTooLong | NoAssignee | NotIdle | NotStealable | SelfSteal
    | RoleMismatch | SelfBlocking

  datatype HandlerResult = Ok(task: TaskId, status: TaskStatus) | Err(error: HandlerError)

  /** The calling agent: its id and a snapshot of its avatar. */
  datatype Caller = Caller(id: AgentId, avatar: Avatar)

  /** The table before and after differ by one event on one row. */
  twostate predicate RowChanged(db: Database, id: TaskId, e: TaskEvent)
    reads db
  {
    && id in db.tasks
    && RowStep(old(db.tasks), old(db.agents), id, e, db.tasks[id])
    && db.tasks == old(db.tasks)[id := db.tasks[id]]
  }

  twostate predicate RowInserted(db: Database, id: TaskId)
    reads db
  {
    && id !in old(db.tasks) && id in db.tasks
    && IsNewRow(old(db.agents), db.tasks[id])
    && db.tasks == old(db.tasks)[id := db.tasks[id]]
  }

  /** The caller is the assignee of the task's parent or, for a root task, the manager of its assignee. */
  predicate ManagesTask(db: Database, caller: AgentId, task: Task)
    reads db
  {
    match task.parent
    case Some(p) => ManagesParent(db, caller, p)
    case None =>
      task.assignee.Some? && task.assignee.value in db.agents && db.agents[task.assignee.value].manager == Some(caller)
  }

  predicate ManagesParent(db: Database, caller: AgentId, parent: TaskId)
    reads db
  {
    parent in db.tasks && db.tasks[parent].assignee == Some(caller)
  }

  /** Submits the artifact of an assigned task. `sandboxed` says whether the path resolves inside the workspace and
      `checked` whether the pre-submit check, when it is on, passes. */
  method TaskDone(db: Database, world: WorldView, caller: Caller, id: TaskId, path: string, sandboxed: bool,
                  autoCheck: bool, checked: bool)
    returns (r: HandlerResult)
    modifies db`tasks, world
    ensures r.Ok? <==>
      && id in old(db.tasks) && old(db.tasks)[id].startup == caller.avatar.startup
      && old(db.tasks)[id].assignee == Some(caller.id)
      && path == CanonicalArtifact(caller.avatar.startup, id) && sandboxed && (autoCheck ==> checked)
      && (old(db.tasks)[id].status == InProgress || old(db.tasks)[id].status == ChangesRequested)
    ensures r.Ok? ==> RowChanged(db, id, Submitted)
    ensures r.Ok? ==>
      db.tasks == old(db.tasks)[id := old(db.tasks)[id].(status := AwaitingReview, artifact := Some(path))]
    ensures r.Ok? ==>
      world.avatars == if caller.id in old(world.avatars)
                       then old(world.avatars)[caller.id := old(world.avatars)[caller.id].(status := Idle)]
                       else old(world.avatars)
    ensures r.Err? ==> unchanged(db) && unchanged(world)
    ensures r.Err? ==> r == Err(
      if id !in old(db.tasks) then UnknownTask
      else if old(db.tasks)[id].startup != caller.avatar.startup then CrossStartup
      else if old(db.tasks)[id].assignee != Some(caller.id) then NoPermission
      else if path != CanonicalArtifact(caller.avatar.startup, id) then BadArtifactPath
      else if !sandboxed then SandboxViolation
      else if autoCheck && !checked then MustFix
      else IllegalTransition)
  {
    if id !in db.tasks {
      return Err(UnknownTask);
    }
    var task := db.tasks[id];
    if task.startup != caller.avatar.startup {
      return Err(CrossStartup);
    }
    if task.assignee != Some(caller.id) {
      return Err(NoPermission);
    }
    var canonical := CanonicalArtifact(caller.avatar.startup, id);
    if path != canonical {
      return Err(BadArtifactPath);
    }
    if !sandboxed {
      return Err(SandboxViolation);
    }
    if autoCheck && !checked {
      return Err(MustFix);
    }
    var next := Next(task.status, TaskDoneMcp);
    if next.None? {
      return Err(IllegalTransition);
    }
    db.tasks := db.tasks[id := task.(status := next.value, artifact := Some(path))];
    if caller.id in world.avatars {
      world.avatars := world.avatars[caller.id := world.avatars[caller.id].(status := Idle)];
    }
    return Ok(id, next.value);
  }

  method TaskFailed(db: Database, world: WorldView, caller: Caller, id: TaskId) returns (r: HandlerResult)
    modifies db`tasks, world
    ensures r.Ok? <==>
      && id in old(db.tasks) && old(db.tasks)[id].startup == caller.avatar.startup
      && old(db.tasks)[id].assignee == Some(caller.id)
      && old(db.tasks)[id].status != Done && old(db.tasks)[id].status != Failed
    ensures r.Ok? ==> RowChanged(db, id, StatusChanged(Fail))
    ensures r.Ok? ==> db.tasks == old(db.tasks)[id := old(db.tasks)[id].(status := Failed)]
    ensures r.Ok? ==>
      world.avatars == if caller.id in old(world.avatars)
                       then old(world.avatars)[caller.id := old(world.avatars)[caller.id].(status := Idle)]
                       else old(world.avatars)
    ensures r.Err? ==> unchanged(db) && unchanged(world)
    ensures r.Err? ==> r == Err(
      if id !in old(db.tasks) then UnknownTask
      else if old(db.tasks)[id].startup != caller.avatar.startup then CrossStartup
      else if old(db.tasks)[id].assignee != Some(caller.id) then NoPermission
      else IllegalTransition)
  {
    if id !in db.tasks {
      return Err(UnknownTask);
    }
    var task := db.tasks[id];
    if task.startup != caller.avatar.startup {
      return Err(CrossStartup);
    }
    if task.assignee != Some(caller.id) {
      return Err(NoPermission);
    }
    var next := Next(task.status, Fail);
    if next.None? {
      return Err(IllegalTransition);
    }
    db.tasks := db.tasks[id := task.(status := next.value)];
    if caller.id in world.avatars {
      world.avatars := world.avatars[caller.id := world.avatars[caller.id].(status := Idle)];
    }
    return Ok(id, next.value);
  }

  /** Creates a subtask under a newly minted id. Only the parent's assignee may choose an assignee, and its subtasks
      skip the proposal stage. */
  method CreateSubtask(db: Database, caller: Caller, parent: TaskId, requiredRoom: Option<RoomId>,
                       requested: Option<AgentId>, minted: TaskId)
    returns (r: HandlerResult)
    requires minted !in db.tasks
    modifies db`tasks
    ensures r.Ok? <==>
      && parent in old(db.tasks) && old(db.tasks)[parent].startup == caller.avatar.startup
      && (old(db.tasks)[parent].assignee == Some(caller.id) && requested.Some? ==>
            && requested.value in old(db.agents)
            && old(db.agents)[requested.value].startup == caller.avatar.startup)
    ensures r.Ok? ==> RowInserted(db, minted)
    ensures r.Ok? ==>
      db.tasks == old(db.tasks)[minted :=
        if old(db.tasks)[parent].assignee == Some(caller.id)
        then Task(caller.avatar.startup, Some(parent), requested, requiredRoom, Queued, 0, None, None)
        else Task(caller.avatar.startup, Some(parent), None, requiredRoom, Proposed, 0, None, None)]
    ensures r.Err? ==> unchanged(db)
    ensures r.Err? ==> r == Err(
      if parent !in old(db.tasks) then UnknownTask
      else if old(db.tasks)[parent].startup != caller.avatar.startup then CrossStartup
      else if requested.Some? && requested.value !in old(db.agents) then UnknownAssignee
      else CrossStartup)
  {
    if parent !in db.tasks {
      return Err(UnknownTask);
    }
    if db.tasks[parent].startup != caller.avatar.startup {
      return Err(CrossStartup);
    }
    var isManager := db.tasks[parent].assignee == Some(caller.id);
    var next := Next(Proposed, SubtaskCreate(if isManager then Manager else NonManager));
    var assignee := if isManager then requested else None;
    if assignee.Some? {
      if assignee.value !in db.agents {
        return Err(UnknownAssignee);
      }
      if db.agents[assignee.value].startup != caller.avatar.startup {
        return Err(CrossStartup);
      }
    }
    db.tasks := db.tasks[minted :=
      Task(caller.avatar.startup, Some(parent), assignee, requiredRoom, next.value, 0, None, None)];
    return Ok(minted, next.value);
  }

  /** Subtask `id` of `p` awaits review in the caller's startup, and the caller is the assignee of `p`. */
  predicate AwaitsReviewBy(tasks: TaskTable, caller: Caller, id: TaskId, p: TaskId) {
    && id in tasks && tasks[id].startup == caller.avatar.startup && tasks[id].status == AwaitingReview
    && tasks[id].parent == Some(p) && p in tasks && tasks[p].assignee == Some(caller.id)
  }

  method AcceptTask(db: Database, caller: Caller, id: TaskId) returns (r: HandlerResult)
    modifies db`tasks
    ensures (exists p :: AwaitsReviewBy(old(db.tasks), caller, id, p)) ==> r.Ok?
    ensures r.Ok? <==>
      && id in old(db.tasks) && old(db.tasks)[id].startup == caller.avatar.startup
      && old(db.tasks)[id].status == AwaitingReview
      && (match old(db.tasks)[id].parent
          case Some(p) => p in old(db.tasks) && old(db.tasks)[p].assignee == Some(caller.id)
          case None =>
            && old(db.tasks)[id].assignee.Some? && old(db.tasks)[id].assignee.value in old(db.agents)
            && old(db.agents)[old(db.tasks)[id].assignee.value].manager == Some(caller.id))
    ensures r.Ok? ==> RowChanged(db, id, StatusChanged(TaskAccept))
    ensures r.Ok? ==> db.tasks == old(db.tasks)[id := old(db.tasks)[id].(status := Done)]
    ensures r.Err? ==> unchanged(db)
    ensures r.Err? ==> r == Err(
      if id !in old(db.tasks) then UnknownTask
      else if old(db.tasks)[id].startup != caller.avatar.startup then CrossStartup
      else if !old(ManagesTask(db, caller.id, db.tasks[id])) then NoPermission
      else IllegalTransition)
  {
    if id !in db.tasks {
      return Err(UnknownTask);
    }
    var task := db.tasks[id];
    if task.startup != caller.avatar.startup {
      return Err(CrossStartup);
    }
    if !ManagesTask(db, caller.id, task) {
      return Err(NoPermission);
    }
    var next := Next(task.status, TaskAccept);
    if next.None? {
      return Err(IllegalTransition);
    }
    db.tasks := db.tasks[id := task.(status := next.value)];
    return Ok(id, next.value);
  }

  /** The caller reviews as a peer: flagged as a reviewer and not reviewing its own task. */
  predicate IsPeerReview(db: Database, caller: AgentId, task: Task)
    reads db
  {
    task.assignee != Some(caller) && caller in db.agents && db.agents[caller].peerReviewer
  }

  /** Sends a task back for changes, or escalates it once it has been sent back three times. */
  method AskForChanges(db: Database, caller: Caller, id: TaskId, feedbackLength: nat) returns (r: HandlerResult)
    modifies db`tasks
    ensures r.Ok? <==>
      && feedbackLength <= 4096
      && id in old(db.tasks) && old(db.tasks)[id].startup == caller.avatar.startup
      && old(db.tasks)[id].assignee.Some?
      && (|| (match old(db.tasks)[id].parent
             case Some(p) => p in old(db.tasks) && old(db.tasks)[p].assignee == Some(caller.id)
             case None =>
               && old(db.tasks)[id].assignee.Some? && old(db.tasks)[id].assignee.value in old(db.agents)
               && old(db.agents)[old(db.tasks)[id].assignee.value].manager == Some(caller.id))
          || (old(db.tasks)[id].assignee != Some(caller.id)
              && caller.id in old(db.agents) && old(db.agents)[caller.id].peerReviewer))
      && (if old(db.tasks)[id].reviewRound >= 3
          then old(db.tasks)[id].status != Done && old(db.tasks)[id].status != Failed
          else old(db.tasks)[id].status == AwaitingReview)
    ensures r.Ok? ==>
      RowChanged(db, id, if old(db.tasks)[id].reviewRound >= 3 then GaveUp else ChangesAsked)
    ensures r.Ok? ==>
      db.tasks == old(db.tasks)[id :=
        if old(db.tasks)[id].reviewRound >= 3 then old(db.tasks)[id].(status := Escalated)
        else old(db.tasks)[id].(status := ChangesRequested, reviewRound := old(db.tasks)[id].reviewRound + 1)]
    ensures r.Err? ==> unchanged(db)
    ensures r.Err? ==> r == Err(
      if feedbackLength > MAX_BODY_LENGTH then BodyTooLong
      else if id !in old(db.tasks) then UnknownTask
      else if old(db.tasks)[id].startup != caller.avatar.startup then CrossStartup
      else if !old(ManagesTask(db, caller.id, db.tasks[id])) && !old(IsPeerReview(db, caller.id, db.tasks[id]))
      then NoPermission
      else if old(db.tasks)[id].assignee.None? then NoAssignee
      else IllegalTransition)
  {
    if feedbackLength > MAX_BODY_LENGTH {
      return Err(BodyTooLong);
    }
    if id !in db.tasks {
      return Err(UnknownTask);
    }
    var task := db.tasks[id];
    if task.startup != caller.avatar.startup {
      return Err(CrossStartup);
    }
    var isManager := ManagesTask(db, caller.id, task);
    var isPeerReview := !isManager && IsPeerReview(db, caller.id, task);
    if !isManager && !isPeerReview {
      return Err(NoPermission);
    }
    if task.assignee.None? {
      return Err(NoAssignee);
    }
    if task.reviewRound >= MAX_REVIEW_ROUNDS {
      var escalated := Next(task.status, Escalate);
      if escalated.None? {
        return Err(IllegalTransition);
      }
      db.tasks := db.tasks[id := task.(status := escalated.value)];
      return Ok(id, escalated.value);
    }
    var next := Next(task.status, RequestChanges);
    if next.None? {
      return Err(IllegalTransition);
    }
    db.tasks := db.tasks[id := task.(status := next.value, reviewRound := task.reviewRound + 1)];
    return Ok(id, next.value);
  }

  method AcceptProposed(db: Database, caller: Caller, id: TaskId, assignee: AgentId, requiredRoom: Option<RoomId>)
    returns (r: HandlerResult)
    modifies db`tasks
    ensures r.Ok? <==>
      && id in old(db.tasks) && old(db.tasks)[id].startup == caller.avatar.startup && old(db.tasks)[id].parent.Some?
      && old(db.tasks)[id].parent.value in old(db.tasks)
      && old(db.tasks)[old(db.tasks)[id].parent.value].assignee == Some(caller.id)
      && assignee in old(db.agents) && old(db.agents)[assignee].startup == caller.avatar.startup
      && old(db.tasks)[id].status == Proposed
    ensures r.Ok? ==> RowChanged(db, id, ProposalAccepted(assignee, requiredRoom))
    ensures r.Ok? ==>
      db.tasks == old(db.tasks)[id := old(db.tasks)[id].(status := Queued, assignee := Some(assignee),
                                                            requiredRoom := requiredRoom)]
    ensures r.Err? ==> unchanged(db)
    ensures r.Err? ==> r == Err(
      if id !in old(db.tasks) then UnknownTask
      else if old(db.tasks)[id].startup != caller.avatar.startup then CrossStartup
      else if old(db.tasks)[id].parent.None? then BadArgs
      else if !old(ManagesParent(db, caller.id, db.tasks[id].parent.value)) then NoPermission
      else if assignee !in old(db.agents) then UnknownAssignee
      else if old(db.agents)[assignee].startup != caller.avatar.startup then CrossStartup
      else IllegalTransition)
  {
    if id !in db.tasks {
      return Err(UnknownTask);
    }
    var task := db.tasks[id];
    if task.startup != caller.avatar.startup {
      return Err(CrossStartup);
    }
    if task.parent.None? {
      return Err(BadArgs);
    }
    if !ManagesParent(db, caller.id, task.parent.value) {
      return Err(NoPermission);
    }
    if assignee !in db.agents {
      return Err(UnknownAssignee);
    }
    if db.agents[assignee].startup != caller.avatar.startup {
      return Err(CrossStartup);
    }
    var next := Next(task.status, AcceptProposal);
    if next.None? {
      return Err(IllegalTransition);
    }
    db.tasks := db.tasks[id := task.(status := next.value, assignee := Some(assignee), requiredRoom := requiredRoom)];
    return Ok(id, next.value);
  }

  method RejectProposed(db: Database, caller: Caller, id: TaskId) returns (r: HandlerResult)
    modifies db`tasks
    ensures r.Ok? <==>
      && id in old(db.tasks) && old(db.tasks)[id].startup == caller.avatar.startup && old(db.tasks)[id].parent.Some?
      && old(db.tasks)[id].parent.value in old(db.tasks)
      && old(db.tasks)[old(db.tasks)[id].parent.value].assignee == Some(caller.id)
      && old(db.tasks)[id].status == Proposed
    ensures r.Ok? ==> RowChanged(db, id, StatusChanged(RejectProposal))
    ensures r.Ok? ==> db.tasks == old(db.tasks)[id := old(db.tasks)[id].(status := Failed)]
    ensures r.Err? ==> unchanged(db)
    ensures r.Err? ==> r == Err(
      if id !in old(db.tasks) then UnknownTask
      else if old(db.tasks)[id].startup != caller.avatar.startup then CrossStartup
      else if old(db.tasks)[id].parent.None? then BadArgs
      else if !old(ManagesParent(db, caller.id, db.tasks[id].parent.value)) then NoPermission
      else IllegalTransition)
  {
    if id !in db.tasks {
      return Err(UnknownTask);
    }
    var task := db.tasks[id];
    if task.startup != caller.avatar.startup {
      return Err(CrossStartup);
    }
    if task.parent.None? {
      return Err(BadArgs);
    }
    if !ManagesParent(db, caller.id, task.parent.value) {
      return Err(NoPermission);
    }
    var next := Next(task.status, RejectProposal);
    if next.None? {
      return Err(IllegalTransition);
    }
    db.tasks := db.tasks[id := task.(status := next.value)];
    return Ok(id, next.value);
  }

  /** Sets or clears the task waited for; `change` is `None` when the request leaves the blocker alone. */
  method SetBlocking(db: Database, deadlines: DeadlineTable, caller: Caller, id: TaskId, change: Option<Option<TaskId>>,
                     deadline: Option<Option<int>>)
    returns (r: HandlerResult)
    modifies db`tasks, deadlines
    ensures r.Ok? <==>
      && (change.Some? || deadline.Some?)
      && id in old(db.tasks) && old(db.tasks)[id].startup == caller.avatar.startup
      && (|| old(db.tasks)[id].assignee == Some(caller.id)
          || (match old(db.tasks)[id].parent
             case Some(p) => p in old(db.tasks) && old(db.tasks)[p].assignee == Some(caller.id)
             case None =>
               && old(db.tasks)[id].assignee.Some? && old(db.tasks)[id].assignee.value in old(db.agents)
               && old(db.agents)[old(db.tasks)[id].assignee.value].manager == Some(caller.id)))
      && change != Some(Some(id))
    ensures r.Ok? && change.Some? ==> RowChanged(db, id, BlockingSet(change.value))
    ensures r.Ok? && change.Some? ==> db.tasks == old(db.tasks)[id := old(db.tasks)[id].(blockedOn := change.value)]
    ensures r.Err? || change.None? ==> unchanged(db)
    ensures deadlines.rows ==
            if r.Ok? && deadline.Some? then old(deadlines.rows)[id := Deadline(deadline.value, None)]
            else old(deadlines.rows)
    ensures r.Err? ==> r == Err(
      if change.None? && deadline.None? then BadArgs
      else if id !in old(db.tasks) then UnknownTask
      else if old(db.tasks)[id].startup != caller.avatar.startup then CrossStartup
      else if !old(ManagesTask(db, caller.id, db.tasks[id])) && old(db.tasks)[id].assignee != Some(caller.id)
      then NoPermission
      else SelfBlocking)
  {
    if change.None? && deadline.None? {
      return Err(BadArgs);
    }
    if id !in db.tasks {
      return Err(UnknownTask);
    }
    var task := db.tasks[id];
    if task.startup != caller.avatar.startup {
      return Err(CrossStartup);
    }
    if !ManagesTask(db, caller.id, task) && task.assignee != Some(caller.id) {
      return Err(NoPermission);
    }
    if change == Some(Some(id)) {
      return Err(SelfBlocking);
    }
    if change.Some? {
      db.tasks := db.tasks[id := task.(blockedOn := change.value)];
    }
    if deadline.Some? {
      deadlines.SetDeadline(id, deadline.value);
    }
    return Ok(id, task.status);
  }

  /** An idle agent takes over a queued task of a peer with the same role. */
  method StealTask(db: Database, caller: Caller, id: TaskId) returns (r: HandlerResult)
    modifies db`tasks
    ensures r.Ok? <==>
      && caller.avatar.status == Idle && id in old(db.tasks) && old(db.tasks)[id].startup == caller.avatar.startup
      && var task := old(db.tasks)[id];
      && task.status == Queued && task.assignee.Some? && task.assignee.value != caller.id
      && task.assignee.value in old(db.agents) && old(db.agents)[task.assignee.value].role == caller.avatar.role
    ensures r.Ok? ==> db.tasks == old(db.tasks)[id := old(db.tasks)[id].(assignee := Some(caller.id))]
    // The caller's avatar mirroring its row in the agents table is what makes this a change between peers.
    ensures r.Ok? && BelongsTo(db.agents, caller.id, caller.avatar.startup)
            && db.agents[caller.id].role == caller.avatar.role ==>
      RowChanged(db, id, Stolen(caller.id))
    ensures r.Err? ==> unchanged(db)
    ensures r.Err? ==> r == Err(
      if caller.avatar.status != Idle then NotIdle
      else if id !in old(db.tasks) then UnknownTask
      else if old(db.tasks)[id].startup != caller.avatar.startup then CrossStartup
      else if old(db.tasks)[id].status != Queued || old(db.tasks)[id].assignee.None? then NotStealable
      else if old(db.tasks)[id].assignee.value == caller.id then SelfSteal
      else if old(db.tasks)[id].assignee.value !in old(db.agents) then UnknownAssignee
      else RoleMismatch)
  {
    if caller.avatar.status != Idle {
      return Err(NotIdle);
    }
    if id !in db.tasks {
      return Err(UnknownTask);
    }
    var task := db.tasks[id];
    if task.startup != caller.avatar.startup {
      return Err(CrossStartup);
    }
    if task.status != Queued || task.assignee.None? {
      return Err(NotStealable);
    }
    var current := task.assignee.value;
    if current == caller.id {
      return Err(SelfSteal);
    }
    if current !in db.agents {
      return Err(UnknownAssignee);
    }
    if db.agents[current].role != caller.avatar.role {
      return Err(RoleMismatch);
    }
    db.tasks := db.tasks[id := task.(assignee := Some(caller.id))];
    return Ok(id, task.status);
  }

  // ---------------------------------------------------------------- handlers as steps of the lifecycle

  ghost function WorldOf(db: Database): TaskWorld
    reads db
  {
    TaskWorld(db.tasks, db.agents)
  }

  /** Whatever a handler that changes one row promises is a step of the task lifecycle, so that all rows
      stay in order. */
  twostate lemma RowChangedIsStep(db: Database, id: TaskId, e: TaskEvent)
    requires RowChanged(db, id, e) && db.agents == old(db.agents)
    ensures TaskNext(old(WorldOf(db)), Change(id, e), WorldOf(db))
    ensures old(AllRowsOk(WorldOf(db))) ==> AllRowsOk(WorldOf(db))
  {
    if old(AllRowsOk(WorldOf(db))) {
      AllRowsOkPreserved(old(WorldOf(db)), Change(id, e), WorldOf(db));
    }
  }

  /** Whoever created a subtask as the assignee of its parent can accept it in any later state in which it awaits
      review, as long as it is the parent's assignee then. */
  lemma CreatorMayAccept(trace: seq<TaskWorld>, actions: seq<Action>, i: nat, j: nat, id: TaskId, p: TaskId,
                         row: Task, caller: Caller)
    requires IsTaskRun(trace, actions) && i < j <= |actions|
    requires actions[i] == Insert(id, row) && row.startup == caller.avatar.startup && row.parent == Some(p)
    requires id in trace[j].tasks && trace[j].tasks[id].status == AwaitingReview
    requires p in trace[j].tasks && trace[j].tasks[p].assignee == Some(caller.id)
    ensures AwaitsReviewBy(trace[j].tasks, caller, id, p)
  {
    assert TaskStepAt(trace, actions, i);
    ParentStays(trace, actions, id, i + 1, j);
  }

  twostate lemma RowInsertedIsStep(db: Database, id: TaskId)
    requires RowInserted(db, id) && db.agents == old(db.agents)
    ensures TaskNext(old(WorldOf(db)), Insert(id, db.tasks[id]), WorldOf(db))
    ensures old(AllRowsOk(WorldOf(db))) ==> AllRowsOk(WorldOf(db))
  {
    if old(AllRowsOk(WorldOf(db))) {
      AllRowsOkPreserved(old(WorldOf(db)), Insert(id, db.tasks[id]), WorldOf(db));
    }
  }
}
