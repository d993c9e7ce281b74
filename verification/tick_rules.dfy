/** What a tick does to the rows of the tasks table, said in the columns of the tables alone. */
module TickRules {
  import opened Wrappers
  import opened Path
  import opened State
  import opened Seed
  import opened MoveSys
  import opened TaskSm
  import opened Db
  import opened Deadlines
  import opened Lifecycle
  import opened Scheduler

  /** Row `id`, that of an idle agent `a` with an open channel that has room, in the required room and with less than
      95% of a cap spent. */
  lemma UnhinderedExactly(b: Before, id: TaskId, a: AgentId)
    requires id in b.tasks && b.tasks[id].assignee == Some(a) && a in b.agents
    ensures Eligible(b, id) && CanSend(b, a) <==>
              && a in b.avatars && b.avatars[a].status == Idle
              && (match b.tasks[id].blockedOn
                  case None => true
                  case Some(x) => x in b.tasks ==> b.tasks[x].status in {Done, Failed, Escalated})
              && (match b.tasks[id].requiredRoom
                  case None => true
                  case Some(room) => b.avatars[a].room == room)
              && (b.agents[a].startup in b.startups ==>
                    var s := b.startups[b.agents[a].startup];
                    s.cap <= 0.0 || s.spent / s.cap < 0.95)
              && a in b.channels && !b.channels[a].closed && |b.channels[a].frames| < b.channels[a].capacity
  {}

  /** An earlier row of the agent went in progress. */
  ghost predicate IsServedBefore(b: Before, rows: seq<TaskId>, c: Before, i: nat, a: AgentId)
    requires i <= |rows|
  {
    exists j :: 0 <= j < i && rows[j] in b.tasks && rows[j] in c.tasks && b.tasks[rows[j]].assignee == Some(a)
                && c.tasks[rows[j]].status == InProgress
  }

  lemma ServedIsTaken(layout: TownLayout, graph: RoomGraph, b: Before, rows: seq<TaskId>, c: Before, i: nat, a: AgentId)
    requires RowsOf(b, rows) && Reached(layout, graph, b, rows, |rows|, c) && i <= |rows|
    ensures IsServedBefore(b, rows, c, i, a) <==> Taken(b, rows, i, a)
  {
    forall j | 0 <= j < i
      ensures rows[j] in c.tasks && (c.tasks[rows[j]].status == InProgress <==> Wins(b, rows, j))
    {
      assert RowIsAfter(b, rows, j, c.tasks) && IsRow(b.tasks, b.agents, b.startups, rows[j]);
    }
  }

  lemma WinsExactly(b: Before, rows: seq<TaskId>, i: nat, a: AgentId)
    requires RowsOf(b, rows) && i < |rows| && rows[i] in b.tasks && b.tasks[rows[i]].assignee == Some(a)
    ensures Wins(b, rows, i) <==> Eligible(b, rows[i]) && CanSend(b, a) && !Taken(b, rows, i, a)
  {
    if j :| 0 <= j < i && Eligible(b, rows[j]) && b.tasks[rows[j]].assignee.value == a {
      if CanSend(b, a) {
        FirstEligibleWins(b, rows, i, j);
      }
    }
  }

  /** A queued row goes in progress exactly if no earlier row of its agent does and the agent is idle, nothing blocks
      the row - no blocker, one that is gone, or one that is done, failed or escalated -, the agent is in the required
      room, its startup has spent less than 95% of its cap, and its channel is open and has room. As soon as the row is
      reached with an idle agent and a blocker that no longer blocks, this is cleared. Nothing else changes in the
      row. */
  lemma DispatchedExactly(layout: TownLayout, graph: RoomGraph, b: Before, rows: seq<TaskId>, c: Before, id: TaskId,
                          a: AgentId)
    returns (i: nat)
    requires RowsOf(b, rows) && Reached(layout, graph, b, rows, |rows|, c)
    requires id in b.tasks && b.tasks[id].status == Queued && b.tasks[id].assignee == Some(a)
    requires a in b.agents && b.tasks[id].startup in b.startups
    ensures i < |rows| && rows[i] == id && id in c.tasks
    ensures c.tasks[id].status == InProgress <==>
              && !IsServedBefore(b, rows, c, i, a)
              && a in b.avatars && b.avatars[a].status == Idle
              && (match b.tasks[id].blockedOn
                  case None => true
                  case Some(x) => x in b.tasks ==> b.tasks[x].status in {Done, Failed, Escalated})
              && (match b.tasks[id].requiredRoom
                  case None => true
                  case Some(room) => b.avatars[a].room == room)
              && (b.agents[a].startup in b.startups ==>
                    var s := b.startups[b.agents[a].startup];
                    s.cap <= 0.0 || s.spent / s.cap < 0.95)
              && a in b.channels && !b.channels[a].closed && |b.channels[a].frames| < b.channels[a].capacity
    ensures c.tasks[id].blockedOn ==
              match b.tasks[id].blockedOn
              case None => None
              case Some(x) =>
                if && !IsServedBefore(b, rows, c, i, a) && a in b.avatars && b.avatars[a].status == Idle
                   && (x in b.tasks ==> b.tasks[x].status in {Done, Failed, Escalated})
                then None else Some(x)
    ensures c.tasks[id] == b.tasks[id].(blockedOn := c.tasks[id].blockedOn, status := c.tasks[id].status)
    ensures c.tasks[id].status == InProgress || c.tasks[id].status == Queued
  {
    assert IsRow(b.tasks, b.agents, b.startups, id);
    i :| 0 <= i < |rows| && rows[i] == id;
    assert RowIsAfter(b, rows, i, c.tasks);
    ServedIsTaken(layout, graph, b, rows, c, i, a);
    WinsExactly(b, rows, i, a);
    UnhinderedExactly(b, id, a);
  }

  /** While its blocker is in any other status neither a row nor its blocker's column changes, ... */
  lemma BlockedRowStays(layout: TownLayout, graph: RoomGraph, b: Before, rows: seq<TaskId>, c: Before, id: TaskId,
                        x: TaskId)
    requires RowsOf(b, rows) && Reached(layout, graph, b, rows, |rows|, c)
    requires id in b.tasks && b.tasks[id].blockedOn == Some(x) && x in b.tasks
    requires b.tasks[x].status in {Proposed, Queued, InProgress, AwaitingReview, ChangesRequested}
    ensures id in c.tasks && c.tasks[id] == b.tasks[id]
  {
    if id in rows {
      assert IsRow(b.tasks, b.agents, b.startups, id);
      var i := DispatchedExactly(layout, graph, b, rows, c, id, b.tasks[id].assignee.value);
    } else {
      assert rows[..|rows|] == rows;
    }
  }

  /** ... and neither does a row that is not queued, or is queued for nobody who can be found. */
  lemma OtherRowsStay(layout: TownLayout, graph: RoomGraph, b: Before, rows: seq<TaskId>, c: Before, id: TaskId)
    requires RowsOf(b, rows) && Reached(layout, graph, b, rows, |rows|, c) && id in b.tasks
    requires var t := b.tasks[id];
             || t.status != Queued || t.assignee.None? || t.assignee.value !in b.agents || t.startup !in b.startups
    ensures id in c.tasks && c.tasks[id] == b.tasks[id]
  {
    assert !IsRow(b.tasks, b.agents, b.startups, id);
    assert id !in rows[..|rows|];
  }

  /** A row whose agent is idle and unblocked but in another room sends it walking, unless it walks already or the room
      does not exist: a move to the centre of the room is requested. No other row touches walks, and of the avatars it
      touches at most its own agent's status. */
  lemma WrongRoomSendsWalking(layout: TownLayout, graph: RoomGraph, b: Before, id: TaskId, a: AgentId, dispatched: bool,
                              c: Before)
    requires id in b.tasks && b.tasks[id].assignee == Some(a)
    requires RowHandled(layout, graph, b, id, dispatched, c.tasks, c.avatars, c.queues, c.channels)
    ensures var t := b.tasks[id];
            if && a in b.avatars && b.avatars[a].status == Idle
               && (match t.blockedOn
                   case None => true
                   case Some(x) => x in b.tasks ==> b.tasks[x].status in {Done, Failed, Escalated})
               && t.requiredRoom.Some? && b.avatars[a].room != t.requiredRoom.value
               && a !in b.queues && layout.Room(t.requiredRoom.value).Some?
            then
              var r := layout.Room(t.requiredRoom.value).value.bounds;
              && !dispatched
              && MoveRequested(layout, graph, a, t.requiredRoom.value, Tile(r.x + r.w / 2, r.y + r.h / 2), b.avatars,
                               b.queues, c.avatars, c.queues)
            else
              && c.queues == b.queues
              && c.avatars == if dispatched && a in b.avatars then b.avatars[a := b.avatars[a].(status := Working)]
                              else b.avatars
  {}

  /** Over the whole loop no walk in flight changes, ... */
  lemma WalksAreKept(layout: TownLayout, graph: RoomGraph, b: Before, rows: seq<TaskId>, c: Before, a: AgentId)
    requires RowsOf(b, rows) && Reached(layout, graph, b, rows, |rows|, c) && a in b.queues
    ensures a in c.queues && c.queues[a] == b.queues[a]
  {}

  /** ... and every new one is planned for an idle agent from where it stands to the centre of another room, which a
      queued task of its own requires. */
  lemma NewWalksLeadToTasks(layout: TownLayout, graph: RoomGraph, b: Before, rows: seq<TaskId>, c: Before, a: AgentId)
    returns (id: TaskId, wps: seq<Waypoint>)
    requires RowsOf(b, rows) && Reached(layout, graph, b, rows, |rows|, c) && a in c.queues && a !in b.queues
    ensures a in b.avatars && b.avatars[a].status == Idle
    ensures id in b.tasks && b.tasks[id].status == Queued && b.tasks[id].assignee == Some(a)
    ensures match b.tasks[id].requiredRoom
            case None => false
            case Some(room) =>
              && b.avatars[a].room != room && layout.Room(room).Some?
              && var r := layout.Room(room).value.bounds;
                 IsPlan(layout, graph, b.avatars[a].room, b.avatars[a].pos, room, Tile(r.x + r.w / 2, r.y + r.h / 2),
                        wps, c.queues[a])
  {
    assert HasWalkFor(layout, graph, b, a, c.queues[a]);
    id :| IsRow(b.tasks, b.agents, b.startups, id) && b.tasks[id].assignee.value == a
          && b.tasks[id].requiredRoom.Some? && b.avatars[a].room != b.tasks[id].requiredRoom.value
          && WalksToRoom(layout, graph, b.avatars[a], b.tasks[id].requiredRoom.value, c.queues[a]);
    var room := b.tasks[id].requiredRoom.value;
    wps :| IsPlan(layout, graph, b.avatars[a].room, b.avatars[a].pos, room, RoomCenter(layout.Room(room).value), wps,
                  c.queues[a]);
  }

  // ---------------------------------------------------------------- reassignment

  /** A queued row is stolen exactly if its startup has opted in, it is stale, its assignee is known but not idle, and
      somebody else in the startup with the assignee's role is idle; it then waits for one such peer. */
  lemma StolenExactly(t: Task, agents: AgentTable, startups: StartupTable, avatars: map<AgentId, Avatar>,
                      stale: set<TaskId>, id: TaskId, t': Task)
    requires StealOutcome(t, agents, startups, avatars, stale, id, t')
    ensures t' != t <==>
              && t.status == Queued && id in stale && t.startup in startups && startups[t.startup].autoSteal
              && t.assignee.Some? && t.assignee.value in agents
              && (t.assignee.value in avatars ==> avatars[t.assignee.value].status != Idle)
              && exists p :: p in avatars && avatars[p].status == Idle && avatars[p].startup == t.startup
                             && avatars[p].role == agents[t.assignee.value].role && p != t.assignee.value
    ensures t' != t ==>
              && t'.assignee.Some? && t'.assignee.value in avatars && t'.assignee != t.assignee
              && t' == t.(assignee := t'.assignee)
              && var av := avatars[t'.assignee.value];
                 av.status == Idle && av.startup == t.startup && av.role == agents[t.assignee.value].role
  {
    if t.assignee.Some? && t.assignee.value in agents {
      PeerExactly(avatars, t.startup, agents[t.assignee.value].role, t.assignee.value);
    }
  }

  lemma PeerExactly(avatars: map<AgentId, Avatar>, startup: StartupId, role: Role, current: AgentId)
    ensures forall p :: IsPeer(avatars, startup, role, current, p) <==>
              p in avatars && avatars[p].status == Idle && avatars[p].startup == startup && avatars[p].role == role
              && p != current
  {}

  /** A row is recovered exactly if changes are requested, its startup has opted in and tolerates no more rounds than
      the row has had, its assignee is known, and somebody else in the startup with the assignee's role is idle; it is
      then queued for one such peer, at round 0. */
  lemma RecoveredExactly(t: Task, agents: AgentTable, startups: StartupTable, avatars: map<AgentId, Avatar>, t': Task)
    requires RecoveryOutcome(t, agents, startups, avatars, t')
    ensures t' != t <==>
              && t.status == ChangesRequested && t.startup in startups && startups[t.startup].autoRecovery
              && t.reviewRound >= startups[t.startup].recoveryAttempts
              && t.assignee.Some? && t.assignee.value in agents
              && exists p :: p in avatars && avatars[p].status == Idle && avatars[p].startup == t.startup
                             && avatars[p].role == agents[t.assignee.value].role && p != t.assignee.value
    ensures t' != t ==>
              && t'.assignee.Some? && t'.assignee.value in avatars && t'.assignee != t.assignee
              && t' == t.(assignee := t'.assignee, status := Queued, reviewRound := 0)
              && var av := avatars[t'.assignee.value];
                 av.status == Idle && av.startup == t.startup && av.role == agents[t.assignee.value].role
  {
    if t.assignee.Some? && t.assignee.value in agents {
      PeerExactly(avatars, t.startup, agents[t.assignee.value].role, t.assignee.value);
    }
  }
}
