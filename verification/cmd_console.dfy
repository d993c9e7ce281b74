/** The operator's task commands and the administrative creation of tasks. */
module CmdConsole {
  import opened Wrappers
  import opened Path
  import opened State
  import opened TaskSm
  import opened Db
  import opened Lifecycle
  import opened McpDispatch

  datatype ConsoleError =
    | Forbidden | LockedBy | NoSuchTask | Illegal | UnknownAgent | ForeignAgent | UnknownStartup | EmptyText
    | BadEstimate

  datatype ConsoleResult = Accepted(task: TaskId) | Refused(error: ConsoleError)

  /** Moves a task along one status-only transition of the state machine. */
  method ApplyStatusOnly(db: Database, id: TaskId, transition: Transition) returns (r: ConsoleResult)
    requires StatusOnly(transition)
    modifies db`tasks
    ensures r.Accepted? <==> id in old(db.tasks) && Next(old(db.tasks)[id].status, transition).Some?
    ensures r.Accepted? ==> RowChanged(db, id, StatusChanged(transition))
    ensures r.Accepted? ==>
      db.tasks == old(db.tasks)[id := old(db.tasks)[id].(status := Next(old(db.tasks)[id].status, transition).value)]
    ensures r.Refused? ==> unchanged(db)
    ensures r.Refused? ==> r == Refused(
      if id !in old(db.tasks) then NoSuchTask else Illegal)
  {
    if id !in db.tasks {
      return Refused(NoSuchTask);
    }
    var next := Next(db.tasks[id].status, transition);
    if next.None? {
      return Refused(Illegal);
    }
    db.tasks := db.tasks[id := db.tasks[id].(status := next.value)];
    return Accepted(id);
  }

  method OperatorRejectProposal(db: Database, isManager: bool, id: TaskId) returns (r: ConsoleResult)
    modifies db`tasks
    ensures r.Accepted? <==> isManager && id in old(db.tasks) && old(db.tasks)[id].status == Proposed
    ensures r.Accepted? ==> RowChanged(db, id, StatusChanged(RejectProposal))
    ensures r.Accepted? ==> db.tasks == old(db.tasks)[id := old(db.tasks)[id].(status := Failed)]
    ensures r.Refused? ==> unchanged(db)
    ensures r.Refused? ==> r == Refused(
      if !isManager then Forbidden else if id !in old(db.tasks) then NoSuchTask else Illegal)
  {
    if !isManager {
      return Refused(Forbidden);
    }
    r := ApplyStatusOnly(db, id, RejectProposal);
  }

  /** `locked` says that another operator is resolving the same task. */
  method OperatorAcceptReview(db: Database, isManager: bool, locked: bool, id: TaskId) returns (r: ConsoleResult)
    modifies db`tasks
    ensures r.Accepted? <==> isManager && !locked && id in old(db.tasks) && old(db.tasks)[id].status == AwaitingReview
    ensures r.Accepted? ==> RowChanged(db, id, StatusChanged(OperatorForceAccept))
    ensures r.Accepted? ==> db.tasks == old(db.tasks)[id := old(db.tasks)[id].(status := Done)]
    ensures r.Refused? ==> unchanged(db)
    ensures r.Refused? ==> r == Refused(
      if !isManager then Forbidden
      else if locked then LockedBy
      else if id !in old(db.tasks) then NoSuchTask
      else Illegal)
  {
    if !isManager {
      return Refused(Forbidden);
    }
    if locked {
      return Refused(LockedBy);
    }
    r := ApplyStatusOnly(db, id, OperatorForceAccept);
  }

  method OperatorFailTask(db: Database, isManager: bool, locked: bool, id: TaskId) returns (r: ConsoleResult)
    modifies db`tasks
    ensures r.Accepted? <==>
      && isManager && !locked && id in old(db.tasks)
      && old(db.tasks)[id].status != Done && old(db.tasks)[id].status != Failed
    ensures r.Accepted? ==> RowChanged(db, id, StatusChanged(OperatorForceFail))
    ensures r.Accepted? ==> db.tasks == old(db.tasks)[id := old(db.tasks)[id].(status := Failed)]
    ensures r.Refused? ==> unchanged(db)
    ensures r.Refused? ==> r == Refused(
      if !isManager then Forbidden
      else if locked then LockedBy
      else if id !in old(db.tasks) then NoSuchTask
      else Illegal)
  {
    if !isManager {
      return Refused(Forbidden);
    }
    if locked {
      return Refused(LockedBy);
    }
    r := ApplyStatusOnly(db, id, OperatorForceFail);
  }

  method OperatorAcceptProposal(db: Database, isManager: bool, id: TaskId, assignee: AgentId, room: Option<RoomId>)
    returns (r: ConsoleResult)
    modifies db`tasks
    ensures r.Accepted? <==>
      && isManager && id in old(db.tasks) && old(db.tasks)[id].status == Proposed
      && assignee in old(db.agents) && old(db.agents)[assignee].startup == old(db.tasks)[id].startup
    ensures r.Accepted? ==> RowChanged(db, id, ProposalAccepted(assignee, room))
    ensures r.Accepted? ==>
      db.tasks == old(db.tasks)[id := old(db.tasks)[id].(status := Queued, assignee := Some(assignee),
                                                            requiredRoom := room)]
    ensures r.Refused? ==> unchanged(db)
    ensures r.Refused? ==> r == Refused(
      if !isManager then Forbidden
      else if id !in old(db.tasks) then NoSuchTask
      else if old(db.tasks)[id].status != Proposed then Illegal
      else if assignee !in db.agents then UnknownAgent
      else ForeignAgent)
  {
    if !isManager {
      return Refused(Forbidden);
    }
    if id !in db.tasks {
      return Refused(NoSuchTask);
    }
    var task := db.tasks[id];
    if Next(task.status, AcceptProposal).None? {
      return Refused(Illegal);
    }
    if assignee !in db.agents {
      return Refused(UnknownAgent);
    }
    if db.agents[assignee].startup != task.startup {
      return Refused(ForeignAgent);
    }
    db.tasks := db.tasks[id := task.(status := Queued, assignee := Some(assignee), requiredRoom := room)];
    return Accepted(id);
  }

  /** The administrative endpoint: a task with an assignee is queued at once, one without is a proposal. The parent is
      taken as given. */
  method CreateTask(db: Database, isManager: bool, textGiven: bool, estimateOk: bool, startup: StartupId,
                    assignee: Option<AgentId>, parent: Option<TaskId>, room: Option<RoomId>, blockedOn: Option<TaskId>,
                    minted: TaskId)
    returns (r: ConsoleResult)
    requires minted !in db.tasks
    modifies db`tasks
    ensures r.Accepted? <==>
      && isManager && textGiven && estimateOk && startup in old(db.startups)
      && (assignee.Some? ==> assignee.value in old(db.agents) && old(db.agents)[assignee.value].startup == startup)
    ensures r.Accepted? ==> RowInserted(db, minted)
    ensures r.Accepted? ==>
      db.tasks == old(db.tasks)[minted :=
        Task(startup, parent, assignee, room, if assignee.Some? then Queued else Proposed, 0, None, blockedOn)]
    ensures r.Refused? ==> unchanged(db)
    ensures r.Refused? ==> r == Refused(
      if !isManager then Forbidden
      else if !textGiven then EmptyText
      else if !estimateOk then BadEstimate
      else if startup !in db.startups then UnknownStartup
      else if assignee.Some? && assignee.value !in db.agents then UnknownAgent
      else ForeignAgent)
  {
    if !isManager {
      return Refused(Forbidden);
    }
    if !textGiven {
      return Refused(EmptyText);
    }
    if !estimateOk {
      return Refused(BadEstimate);
    }
    if startup !in db.startups {
      return Refused(UnknownStartup);
    }
    if assignee.Some? {
      if assignee.value !in db.agents {
        return Refused(UnknownAgent);
      }
      if db.agents[assignee.value].startup != startup {
        return Refused(ForeignAgent);
      }
    }
    var status := if assignee.Some? then Queued else Proposed;
    db.tasks := db.tasks[minted := Task(startup, parent, assignee, room, status, 0, None, blockedOn)];
    return Accepted(minted);
  }
}
