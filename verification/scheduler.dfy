/** One scheduler tick: dispatching queued tasks over worker channels, then the two reassignment passes. */
module Scheduler {
  import opened Wrappers
  import opened Path
  import opened State
  import opened Seed
  import opened MoveSys
  import opened Movement
  import opened TaskSm
  import opened Db
  import opened Deadlines
  import opened Lifecycle

  datatype Frame = TaskAssigned(task: TaskId) | OtherFrame

  /** A worker's outbound channel: bounded, and closed once the worker has gone. */
  datatype Channel = Channel(frames: seq<Frame>, capacity: nat, closed: bool) {
    predicate HasRoom() {
      !closed && |frames| < capacity
    }

    function Push(f: Frame): Channel {
      this.(frames := frames + [f])
    }
  }

  class OutBus {
    var channels: map<AgentId, Channel>

    constructor (channels: map<AgentId, Channel>)
      ensures this.channels == channels
    {
      this.channels := channels;
    }

    method TrySend(agent: AgentId, f: Frame) returns (sent: bool)
      modifies this
      ensures sent <==> agent in old(channels) && old(channels)[agent].HasRoom()
      ensures channels == if sent then old(channels)[agent := old(channels)[agent].Push(f)] else old(channels)
    {
      sent := agent in channels && channels[agent].HasRoom();
      if sent {
        channels := channels[agent := channels[agent].Push(f)];
      }
    }
  }

  // ---------------------------------------------------------------- the gates

  /** The tick's view of the world when it starts. */
  datatype Before = Before(tasks: TaskTable, agents: AgentTable, startups: StartupTable,
                           avatars: map<AgentId, Avatar>, queues: map<AgentId, seq<Step>>,
                           channels: map<AgentId, Channel>)

  /** A queued task with an assignee, joined with its agent and startup rows. */
  predicate IsRow(tasks: TaskTable, agents: AgentTable, startups: StartupTable, id: TaskId) {
    && id in tasks && tasks[id].status == Queued
    && tasks[id].assignee.Some? && tasks[id].assignee.value in agents
    && tasks[id].startup in startups
  }

  predicate IsIdle(avatars: map<AgentId, Avatar>, a: AgentId) {
    a in avatars && avatars[a].status == Idle
  }

  predicate InRequiredRoom(avatars: map<AgentId, Avatar>, t: Task)
    requires t.assignee.Some? && t.assignee.value in avatars
  {
    t.requiredRoom.Some? ==> avatars[t.assignee.value].room == t.requiredRoom.value
  }

  /** The startup has spent less than 95% of a positive cap. */
  predicate WithinBudget(agents: AgentTable, startups: StartupTable, a: AgentId) {
    a in agents && agents[a].startup in startups ==>
      var s := startups[agents[a].startup];
      !(s.cap > 0.0 && s.spent / s.cap >= 0.95)
  }

  /** Every gate but the agent being idle: blocker, room, budget, worker registered. */
  predicate PassesGates(b: Before, t: Task) {
    && t.assignee.Some? && t.assignee.value in b.avatars
    && Unblocked(b.tasks, t)
    && InRequiredRoom(b.avatars, t)
    && WithinBudget(b.agents, b.startups, t.assignee.value)
    && t.assignee.value in b.channels
  }

  /** The assignee was idle when the tick began and the task passes every gate. */
  predicate Eligible(b: Before, id: TaskId) {
    && id in b.tasks && PassesGates(b, b.tasks[id])
    && IsIdle(b.avatars, b.tasks[id].assignee.value)
  }

  predicate CanSend(b: Before, a: AgentId) {
    a in b.channels && b.channels[a].HasRoom()
  }

  /** Row `i` gets its agent: it is the first eligible row of an agent whose channel has room. */
  predicate Wins(b: Before, rows: seq<TaskId>, i: nat)
    requires i < |rows|
  {
    && Eligible(b, rows[i])
    && CanSend(b, b.tasks[rows[i]].assignee.value)
    && forall j :: 0 <= j < i && Eligible(b, rows[j]) ==>
         b.tasks[rows[j]].assignee.value != b.tasks[rows[i]].assignee.value
  }

  /** Agent `a` has been given a task among the first `k` rows. */
  predicate Taken(b: Before, rows: seq<TaskId>, k: nat, a: AgentId)
    requires k <= |rows|
  {
    exists i :: 0 <= i < k && Wins(b, rows, i) && b.tasks[rows[i]].assignee.value == a
  }

  /** What a tick does to row `i`: a released blocker is cleared as long as the agent is still free when the row is
      reached, and the winning row goes in progress. */
  function RowAfter(b: Before, rows: seq<TaskId>, i: nat): Task
    requires i < |rows| && rows[i] in b.tasks && b.tasks[rows[i]].assignee.Some?
  {
    var t := b.tasks[rows[i]];
    var reached := IsIdle(b.avatars, t.assignee.value) && !Taken(b, rows, i, t.assignee.value) && Unblocked(b.tasks, t);
    t.(blockedOn := if reached then None else t.blockedOn,
       status := if Wins(b, rows, i) then InProgress else t.status)
  }

  // ---------------------------------------------------------------- one row

  function RoomCenter(r: RoomDef): Tile {
    Tile(r.bounds.x + r.bounds.w / 2, r.bounds.y + r.bounds.h / 2)
  }

  /** The centre of a room that has tiles is one of them. */
  lemma RoomCenterIsInside(r: RoomDef)
    requires r.bounds.w > 0 && r.bounds.h > 0
    ensures InBounds(r.bounds, RoomCenter(r))
  {}

  /** Only the target of an avatar may differ. */
  ghost predicate SameButTargets(avatars: map<AgentId, Avatar>, avatars': map<AgentId, Avatar>) {
    && avatars'.Keys == avatars.Keys
    && forall a :: a in avatars ==> avatars'[a].(target := avatars[a].target) == avatars[a]
  }

  /** The agent's new walk leads to the centre of the room one of its tasks requires. */
  ghost predicate WalksToRoom(layout: TownLayout, graph: RoomGraph, av: Avatar, room: RoomId, queue: seq<Step>) {
    && layout.Room(room).Some?
    && exists wps :: IsPlan(layout, graph, av.room, av.pos, room, RoomCenter(layout.Room(room).value), wps, queue)
  }

  /** The agent's queue is new and leads to `room`; nothing else in the store changed. */
  ghost predicate WalkAdded(layout: TownLayout, graph: RoomGraph, b: Before, a: AgentId, room: RoomId,
                            queues: map<AgentId, seq<Step>>) {
    && a !in b.queues && a in b.avatars && b.avatars[a].room != room
    && a in queues && queues == b.queues[a := queues[a]]
    && WalksToRoom(layout, graph, b.avatars[a], room, queues[a])
  }

  /** What a row whose agent is not in the required room does to avatars and walks: nothing while the agent is walking
      or when the room does not exist, otherwise a move to the room's centre is requested. */
  ghost predicate WalkRequested(layout: TownLayout, graph: RoomGraph, b: Before, a: AgentId, room: RoomId,
                                avatars: map<AgentId, Avatar>, queues: map<AgentId, seq<Step>>) {
    if a in b.queues || layout.Room(room).None? then avatars == b.avatars && queues == b.queues
    else
      MoveRequested(layout, graph, a, room, RoomCenter(layout.Room(room).value), b.avatars, b.queues, avatars, queues)
  }

  /** Starts a walk to the centre of a required room unless the agent is already walking. */
  method SendWalking(world: WorldView, paths: PathStore, layout: TownLayout, graph: RoomGraph, agent: AgentId,
                     room: RoomId, ghost b: Before)
    requires agent in world.avatars
    requires b.avatars == world.avatars && b.queues == paths.queues
    modifies world, paths
    ensures WalkRequested(layout, graph, b, agent, room, world.avatars, paths.queues)
  {
    if agent in paths.queues {
      return;
    }
    var def := layout.Room(room);
    if def.Some? {
      var r, wps, queue := StartMove(world, paths, layout, graph, agent, room, RoomCenter(def.value));
    }
  }

  /** Marks the task in progress and the avatar working, then sends the frame; a failed send undoes both. */
  method HandOver(db: Database, world: WorldView, bus: OutBus, id: TaskId, agent: AgentId) returns (sent: bool)
    requires id in db.tasks && db.tasks[id].status == Queued
    requires IsIdle(world.avatars, agent)
    modifies db`tasks, world, bus
    ensures sent <==> agent in old(bus.channels) && old(bus.channels)[agent].HasRoom()
    ensures db.tasks == if sent then old(db.tasks)[id := old(db.tasks)[id].(status := InProgress)] else old(db.tasks)
    ensures world.avatars ==
      if sent then old(world.avatars)[agent := old(world.avatars)[agent].(status := Working)] else old(world.avatars)
    ensures bus.channels ==
      if sent then old(bus.channels)[agent := old(bus.channels)[agent].Push(TaskAssigned(id))] else old(bus.channels)
  {
    db.tasks := db.tasks[id := db.tasks[id].(status := InProgress)];
    world.avatars := world.avatars[agent := world.avatars[agent].(status := Working)];
    sent := bus.TrySend(agent, TaskAssigned(id));
    if !sent {
      db.tasks := db.tasks[id := db.tasks[id].(status := Queued)];
      world.avatars := world.avatars[agent := world.avatars[agent].(status := Idle)];
    }
  }

  /** The row gets past its blocker but its idle agent is in another room. */
  predicate IsInWrongRoom(b: Before, t: Task) {
    && t.assignee.Some? && IsIdle(b.avatars, t.assignee.value) && Unblocked(b.tasks, t)
    && !InRequiredRoom(b.avatars, t)
  }

  /** The tables after one row has been handled. */
  ghost predicate RowHandled(layout: TownLayout, graph: RoomGraph, b: Before, id: TaskId, dispatched: bool,
                             tasks: TaskTable, avatars: map<AgentId, Avatar>, queues: map<AgentId, seq<Step>>,
                             channels: map<AgentId, Channel>)
    requires id in b.tasks && b.tasks[id].assignee.Some?
  {
    var t := b.tasks[id];
    var a := t.assignee.value;
    && (dispatched <==> Eligible(b, id) && CanSend(b, a))
    && tasks == b.tasks[id := t.(
         blockedOn := if IsIdle(b.avatars, a) && Unblocked(b.tasks, t) then None else t.blockedOn,
         status := if dispatched then InProgress else t.status)]
    && channels == (if dispatched then b.channels[a := b.channels[a].Push(TaskAssigned(id))] else b.channels)
    && if IsInWrongRoom(b, t) then WalkRequested(layout, graph, b, a, t.requiredRoom.value, avatars, queues)
       else
         && avatars == (if dispatched then b.avatars[a := b.avatars[a].(status := Working)] else b.avatars)
         && queues == b.queues
  }

  /** A requested walk changes no more than a target and adds no more than one walk. */
  lemma WalkRequestIsMild(layout: TownLayout, graph: RoomGraph, b: Before, a: AgentId, room: RoomId,
                          avatars: map<AgentId, Avatar>, queues: map<AgentId, seq<Step>>)
    requires a in b.avatars && b.avatars[a].room != room && WalkRequested(layout, graph, b, a, room, avatars, queues)
    ensures SameButTargets(b.avatars, avatars)
    ensures queues == b.queues || WalkAdded(layout, graph, b, a, room, queues)
  {
    if a !in b.queues && layout.Room(room).Some? && (avatars != b.avatars || queues != b.queues) {
      var wps, queue :| PlannedFor(layout, graph, a, room, RoomCenter(layout.Room(room).value), b.avatars, b.queues,
                                   avatars, queues, wps, queue);
      PlannedIsMild(layout, graph, b, a, room, avatars, queues, wps, queue);
    }
  }

  lemma PlannedIsMild(layout: TownLayout, graph: RoomGraph, b: Before, a: AgentId, room: RoomId,
                      avatars: map<AgentId, Avatar>, queues: map<AgentId, seq<Step>>, wps: seq<Waypoint>,
                      queue: seq<Step>)
    requires a in b.avatars && b.avatars[a].room != room && a !in b.queues && layout.Room(room).Some?
    requires PlannedFor(layout, graph, a, room, RoomCenter(layout.Room(room).value), b.avatars, b.queues, avatars,
                        queues, wps, queue)
    ensures SameButTargets(b.avatars, avatars)
    ensures queues == b.queues || WalkAdded(layout, graph, b, a, room, queues)
  {}

  /** What handling a row does to avatars and walks, without the details. */
  lemma RowHandledIsMild(layout: TownLayout, graph: RoomGraph, b: Before, id: TaskId, dispatched: bool, c: Before)
    requires id in b.tasks && b.tasks[id].assignee.Some?
    requires RowHandled(layout, graph, b, id, dispatched, c.tasks, c.avatars, c.queues, c.channels)
    ensures var t := b.tasks[id];
            var a := t.assignee.value;
            && SameButTargets(if dispatched then b.avatars[a := b.avatars[a].(status := Working)] else b.avatars,
                              c.avatars)
            && (c.queues == b.queues || (t.requiredRoom.Some? && IsIdle(b.avatars, a)
                                         && WalkAdded(layout, graph, b, a, t.requiredRoom.value, c.queues)))
  {
    var t := b.tasks[id];
    if IsInWrongRoom(b, t) {
      WalkRequestIsMild(layout, graph, b, t.assignee.value, t.requiredRoom.value, c.avatars, c.queues);
    }
  }

  /** The part of the tick's view that movement reads and writes. */
  function MoveView(b: Before, layout: TownLayout): MoveState {
    MoveState(b.avatars, b.queues, layout)
  }

  /** Handling a row is, for movement, a requested move, a change of status, or nothing. */
  lemma RowIsMove(layout: TownLayout, graph: RoomGraph, b: Before, id: TaskId, dispatched: bool, c: Before)
    requires id in b.tasks && b.tasks[id].assignee.Some? && b.tasks[id].assignee.value != OPERATOR_AVATAR_ID
    requires RowHandled(layout, graph, b, id, dispatched, c.tasks, c.avatars, c.queues, c.channels)
    ensures MoveView(c, layout) == MoveView(b, layout)
            || exists cmd :: IsMoveOrStatus(cmd) && MoveNext(graph, MoveView(b, layout), cmd, MoveView(c, layout))
  {
    var t := b.tasks[id];
    var a := t.assignee.value;
    if IsInWrongRoom(b, t) && a !in b.queues && layout.Room(t.requiredRoom.value).Some? {
      var cmd := RequestMove(a, t.requiredRoom.value, RoomCenter(layout.Room(t.requiredRoom.value).value));
      assert IsMoveOrStatus(cmd) && MoveNext(graph, MoveView(b, layout), cmd, MoveView(c, layout));
    } else if dispatched {
      var cmd := ChangeStatus(a, Working);
      assert IsMoveOrStatus(cmd) && MoveNext(graph, MoveView(b, layout), cmd, MoveView(c, layout));
    }
  }

  /** Handles one row: waits, sends the agent walking, or hands the task over. */
  method DispatchOne(db: Database, world: WorldView, paths: PathStore, bus: OutBus, layout: TownLayout,
                     graph: RoomGraph, id: TaskId)
    returns (dispatched: bool)
    requires IsRow(db.tasks, db.agents, db.startups, id)
    modifies db`tasks, world, paths, bus
    ensures RowHandled(layout, graph,
                       old(Before(db.tasks, db.agents, db.startups, world.avatars, paths.queues, bus.channels)), id,
                       dispatched, db.tasks, world.avatars, paths.queues, bus.channels)
  {
    ghost var b := Before(db.tasks, db.agents, db.startups, world.avatars, paths.queues, bus.channels);
    var task := db.tasks[id];
    var agent := task.assignee.value;
    if agent !in world.avatars {
      return false;
    }
    var status, room := world.avatars[agent].status, world.avatars[agent].room;
    if status != Idle {
      return false;
    }
    if task.blockedOn.Some? {
      var blocker := task.blockedOn.value;
      var isTerminal := blocker !in db.tasks || IsTerminal(db.tasks[blocker].status);
      if !isTerminal {
        return false;
      }
      db.tasks := db.tasks[id := task.(blockedOn := None)];
    }
    if task.requiredRoom.Some? && room != task.requiredRoom.value {
      SendWalking(world, paths, layout, graph, agent, task.requiredRoom.value,
                  Before(db.tasks, db.agents, db.startups, world.avatars, paths.queues, bus.channels));
      return false;
    }
    if agent in db.agents && db.agents[agent].startup in db.startups {
      var startup := db.startups[db.agents[agent].startup];
      if startup.cap > 0.0 && startup.spent / startup.cap >= 0.95 {
        return false;
      }
    }
    if agent !in bus.channels {
      return false;
    }
    dispatched := HandOver(db, world, bus, id, agent);
  }

  // ---------------------------------------------------------------- the dispatch loop

  /** The rows of the tick's query, each once, in the order the database returns them. */
  ghost predicate AreQueuedRows(tasks: TaskTable, agents: AgentTable, startups: StartupTable, rows: seq<TaskId>) {
    && (forall i, j :: 0 <= i < j < |rows| ==> rows[i] != rows[j])
    && (forall i :: 0 <= i < |rows| ==> IsRow(tasks, agents, startups, rows[i]))
    && forall id :: IsRow(tasks, agents, startups, id) ==> id in rows
  }

  method QueryQueued(db: Database) returns (rows: seq<TaskId>)
    ensures AreQueuedRows(db.tasks, db.agents, db.startups, rows)
  {
    rows := [];
    var pending := db.tasks.Keys;
    while pending != {}
      invariant pending <= db.tasks.Keys
      invariant forall i, j :: 0 <= i < j < |rows| ==> rows[i] != rows[j]
      invariant forall i :: 0 <= i < |rows| ==> IsRow(db.tasks, db.agents, db.startups, rows[i]) && rows[i] !in pending
      invariant forall id :: IsRow(db.tasks, db.agents, db.startups, id) && id !in pending ==> id in rows
      decreases pending
    {
      var id :| id in pending;
      pending := pending - {id};
      if IsRow(db.tasks, db.agents, db.startups, id) {
        rows := rows + [id];
      }
    }
  }

  ghost predicate RowsOf(b: Before, rows: seq<TaskId>) {
    AreQueuedRows(b.tasks, b.agents, b.startups, rows)
  }

  /** The rows that win among the first `k`. */
  ghost function Winners(b: Before, rows: seq<TaskId>, k: nat): set<nat>
    requires k <= |rows|
  {
    set i: nat | i < k && Wins(b, rows, i)
  }

  ghost predicate TasksAfter(b: Before, rows: seq<TaskId>, k: nat, tasks: TaskTable)
    requires RowsOf(b, rows) && k <= |rows|
  {
    && tasks.Keys == b.tasks.Keys
    && (forall i :: 0 <= i < k ==> RowIsAfter(b, rows, i, tasks))
    && forall id :: id in b.tasks && id !in rows[..k] ==> tasks[id] == b.tasks[id]
  }

  ghost predicate RowIsAfter(b: Before, rows: seq<TaskId>, i: nat, tasks: TaskTable)
    requires RowsOf(b, rows) && i < |rows| && tasks.Keys == b.tasks.Keys
  {
    assert IsRow(b.tasks, b.agents, b.startups, rows[i]);
    tasks[rows[i]] == RowAfter(b, rows, i)
  }

  ghost predicate AvatarsAfter(b: Before, rows: seq<TaskId>, k: nat, avatars: map<AgentId, Avatar>)
    requires k <= |rows|
  {
    && avatars.Keys == b.avatars.Keys
    && forall a :: a in b.avatars ==> AvatarIsAfter(b, rows, k, avatars, a)
  }

  ghost predicate AvatarIsAfter(b: Before, rows: seq<TaskId>, k: nat, avatars: map<AgentId, Avatar>, a: AgentId)
    requires k <= |rows| && a in avatars && a in b.avatars
  {
    avatars[a].(target := b.avatars[a].target) ==
    b.avatars[a].(status := if Taken(b, rows, k, a) then Working else b.avatars[a].status)
  }

  ghost predicate ChannelsAfter(b: Before, rows: seq<TaskId>, k: nat, channels: map<AgentId, Channel>)
    requires k <= |rows|
  {
    && channels.Keys == b.channels.Keys
    && forall a :: a in b.channels ==> ChannelIsAfter(b, rows, k, channels, a)
  }

  ghost predicate ChannelIsAfter(b: Before, rows: seq<TaskId>, k: nat, channels: map<AgentId, Channel>, a: AgentId)
    requires k <= |rows| && a in channels && a in b.channels
  {
    if Taken(b, rows, k, a) then exists i :: 0 <= i < k && GotFrame(b, rows, i, channels, a)
    else channels[a] == b.channels[a]
  }

  /** The agent won row `i` and its channel gained that frame. */
  ghost predicate GotFrame(b: Before, rows: seq<TaskId>, i: nat, channels: map<AgentId, Channel>, a: AgentId)
    requires i < |rows| && a in channels && a in b.channels
  {
    && Wins(b, rows, i) && b.tasks[rows[i]].assignee.value == a
    && channels[a] == b.channels[a].Push(TaskAssigned(rows[i]))
  }

  /** Walks in flight are kept; a new walk leads an idle agent to the room one of its queued tasks requires. */
  ghost predicate QueuesAfter(layout: TownLayout, graph: RoomGraph, b: Before, queues: map<AgentId, seq<Step>>) {
    && (forall a :: a in b.queues ==> a in queues && queues[a] == b.queues[a])
    && forall a :: a in queues && a !in b.queues ==> HasWalkFor(layout, graph, b, a, queues[a])
  }

  ghost predicate HasWalkFor(layout: TownLayout, graph: RoomGraph, b: Before, a: AgentId, queue: seq<Step>) {
    && IsIdle(b.avatars, a)
    && exists id :: IsRow(b.tasks, b.agents, b.startups, id) && b.tasks[id].assignee.value == a
         && b.tasks[id].requiredRoom.Some? && b.avatars[a].room != b.tasks[id].requiredRoom.value
         && WalksToRoom(layout, graph, b.avatars[a], b.tasks[id].requiredRoom.value, queue)
  }

  /** An agent with an eligible row among the first `k`, and room in its channel, has been given one. */
  lemma {:induction false} FirstEligibleWins(b: Before, rows: seq<TaskId>, k: nat, j: nat)
    requires RowsOf(b, rows) && j < k <= |rows| && Eligible(b, rows[j])
    requires CanSend(b, b.tasks[rows[j]].assignee.value)
    ensures Taken(b, rows, k, b.tasks[rows[j]].assignee.value)
  {
    if !Wins(b, rows, j) {
      var i :| 0 <= i < j && Eligible(b, rows[i])
               && b.tasks[rows[i]].assignee.value == b.tasks[rows[j]].assignee.value;
      FirstEligibleWins(b, rows, k, i);
    }
  }

  /** The state in the loop when row `k` is reached, seen as the tick's view of the world. */
  ghost predicate Reached(layout: TownLayout, graph: RoomGraph, b: Before, rows: seq<TaskId>, k: nat, c: Before)
    requires RowsOf(b, rows) && k <= |rows|
  {
    && c.agents == b.agents && c.startups == b.startups
    && TasksAfter(b, rows, k, c.tasks)
    && AvatarsAfter(b, rows, k, c.avatars)
    && ChannelsAfter(b, rows, k, c.channels)
    && QueuesAfter(layout, graph, b, c.queues)
  }

  /** While the loop runs no task comes to rest and none leaves rest. */
  lemma LoopKeepsRest(b: Before, rows: seq<TaskId>, k: nat, tasks: TaskTable, t: Task)
    requires RowsOf(b, rows) && k <= |rows| && TasksAfter(b, rows, k, tasks)
    ensures Unblocked(tasks, t) == Unblocked(b.tasks, t)
  {
    if t.blockedOn.Some? && t.blockedOn.value in b.tasks {
      var blocker := t.blockedOn.value;
      if blocker in rows[..k] {
        var i :| 0 <= i < k && rows[i] == blocker;
        assert RowIsAfter(b, rows, i, tasks);
        assert IsRow(b.tasks, b.agents, b.startups, rows[i]);
      }
    }
  }

  /** A row has not been touched before it is reached. */
  lemma RowUntouched(layout: TownLayout, graph: RoomGraph, b: Before, rows: seq<TaskId>, k: nat, c: Before)
    requires RowsOf(b, rows) && k < |rows| && Reached(layout, graph, b, rows, k, c)
    ensures rows[k] in c.tasks && c.tasks[rows[k]] == b.tasks[rows[k]]
    ensures IsRow(b.tasks, b.agents, b.startups, rows[k]) && IsRow(c.tasks, c.agents, c.startups, rows[k])
  {
    assert IsRow(b.tasks, b.agents, b.startups, rows[k]);
    assert rows[k] !in rows[..k];
  }

  /** An agent is idle at row `k` if it was at the start and has not been taken. */
  lemma IdleAtRow(b: Before, rows: seq<TaskId>, k: nat, avatars: map<AgentId, Avatar>, a: AgentId)
    requires k < |rows| && AvatarsAfter(b, rows, k, avatars)
    ensures IsIdle(avatars, a) == (IsIdle(b.avatars, a) && !Taken(b, rows, k, a))
    ensures a in b.avatars ==> a in avatars && avatars[a].room == b.avatars[a].room
  {
    assert a in b.avatars ==> AvatarIsAfter(b, rows, k, avatars, a);
  }

  /** A row wins exactly when it is eligible, its agent can be sent to, and the agent has not been taken. */
  lemma WinsUnlessTaken(b: Before, rows: seq<TaskId>, k: nat)
    requires RowsOf(b, rows) && k < |rows| && IsRow(b.tasks, b.agents, b.startups, rows[k])
    ensures var a := b.tasks[rows[k]].assignee.value;
            Wins(b, rows, k) <==> Eligible(b, rows[k]) && CanSend(b, a) && !Taken(b, rows, k, a)
  {
    var a := b.tasks[rows[k]].assignee.value;
    if Eligible(b, rows[k]) && !Taken(b, rows, k, a) && CanSend(b, a) {
      forall j | 0 <= j < k && Eligible(b, rows[j])
        ensures b.tasks[rows[j]].assignee.value != a
      {
        if b.tasks[rows[j]].assignee.value == a {
          FirstEligibleWins(b, rows, k, j);
        }
      }
    }
  }

  /** The gates read the same at row `k` as at the start of the tick, except that a taken agent is no longer idle. */
  lemma GatesAreStable(layout: TownLayout, graph: RoomGraph, b: Before, rows: seq<TaskId>, k: nat, c: Before)
    requires RowsOf(b, rows) && k < |rows| && Reached(layout, graph, b, rows, k, c)
    ensures rows[k] in c.tasks && c.tasks[rows[k]] == b.tasks[rows[k]]
    ensures IsRow(c.tasks, c.agents, c.startups, rows[k])
    ensures var a := b.tasks[rows[k]].assignee.value;
            && IsIdle(c.avatars, a) == (IsIdle(b.avatars, a) && !Taken(b, rows, k, a))
            && (Eligible(c, rows[k]) && CanSend(c, a) <==> Wins(b, rows, k))
  {
    RowUntouched(layout, graph, b, rows, k, c);
    var a := b.tasks[rows[k]].assignee.value;
    LoopKeepsRest(b, rows, k, c.tasks, b.tasks[rows[k]]);
    IdleAtRow(b, rows, k, c.avatars, a);
    assert a in b.channels ==> ChannelIsAfter(b, rows, k, c.channels, a);
    WinsUnlessTaken(b, rows, k);
  }

  lemma TakenGrows(b: Before, rows: seq<TaskId>, k: nat, a: AgentId)
    requires RowsOf(b, rows) && k < |rows|
    ensures Taken(b, rows, k + 1, a) <==>
      Taken(b, rows, k, a) || (Wins(b, rows, k) && b.tasks[rows[k]].assignee.value == a)
  {}

  lemma TasksStep(b: Before, rows: seq<TaskId>, k: nat, tasks: TaskTable, tasks': TaskTable)
    requires RowsOf(b, rows) && k < |rows| && TasksAfter(b, rows, k, tasks)
    requires IsRow(b.tasks, b.agents, b.startups, rows[k])
    requires tasks' == tasks[rows[k] := RowAfter(b, rows, k)]
    ensures TasksAfter(b, rows, k + 1, tasks')
  {
    forall i | 0 <= i < k + 1
      ensures RowIsAfter(b, rows, i, tasks')
    {
      assert i < k ==> RowIsAfter(b, rows, i, tasks);
    }
    assert rows[..k + 1] == rows[..k] + [rows[k]];
  }

  lemma AvatarsStep(b: Before, rows: seq<TaskId>, k: nat, avatars: map<AgentId, Avatar>, avatars': map<AgentId, Avatar>)
    requires RowsOf(b, rows) && k < |rows| && AvatarsAfter(b, rows, k, avatars)
    requires Wins(b, rows, k) ==> b.tasks[rows[k]].assignee.value in avatars
    requires SameButTargets(
      if Wins(b, rows, k)
      then avatars[b.tasks[rows[k]].assignee.value := avatars[b.tasks[rows[k]].assignee.value].(status := Working)]
      else avatars, avatars')
    ensures AvatarsAfter(b, rows, k + 1, avatars')
  {
    forall a | a in b.avatars
      ensures AvatarIsAfter(b, rows, k + 1, avatars', a)
    {
      TakenGrows(b, rows, k, a);
      assert AvatarIsAfter(b, rows, k, avatars, a);
    }
  }

  lemma ChannelsStep(b: Before, rows: seq<TaskId>, k: nat, channels: map<AgentId, Channel>,
                     channels': map<AgentId, Channel>)
    requires RowsOf(b, rows) && k < |rows| && ChannelsAfter(b, rows, k, channels)
    requires Wins(b, rows, k) ==> !Taken(b, rows, k, b.tasks[rows[k]].assignee.value)
    requires channels' ==
      if Wins(b, rows, k)
      then var a := b.tasks[rows[k]].assignee.value; channels[a := channels[a].Push(TaskAssigned(rows[k]))]
      else channels
    ensures ChannelsAfter(b, rows, k + 1, channels')
  {
    forall a | a in b.channels
      ensures ChannelIsAfter(b, rows, k + 1, channels', a)
    {
      TakenGrows(b, rows, k, a);
      assert ChannelIsAfter(b, rows, k, channels, a);
      if Taken(b, rows, k, a) {
        var i :| 0 <= i < k && GotFrame(b, rows, i, channels, a);
        assert GotFrame(b, rows, i, channels', a);
      } else if Taken(b, rows, k + 1, a) {
        assert GotFrame(b, rows, k, channels', a);
      }
    }
  }

  lemma QueuesStep(layout: TownLayout, graph: RoomGraph, b: Before, c: Before, id: TaskId,
                   queues': map<AgentId, seq<Step>>)
    requires QueuesAfter(layout, graph, b, c.queues) && IsRow(b.tasks, b.agents, b.startups, id)
    requires c.avatars.Keys == b.avatars.Keys
    requires var t := b.tasks[id];
             var a := t.assignee.value;
             queues' == c.queues
             || (t.requiredRoom.Some? && IsIdle(b.avatars, a)
                 && SameRoomAndPlace(b.avatars, c.avatars, a)
                 && WalkAdded(layout, graph, c, a, t.requiredRoom.value, queues'))
    ensures QueuesAfter(layout, graph, b, queues')
  {
    var a := b.tasks[id].assignee.value;
    if queues' != c.queues {
      var wps :| IsPlan(layout, graph, c.avatars[a].room, c.avatars[a].pos, b.tasks[id].requiredRoom.value,
                        RoomCenter(layout.Room(b.tasks[id].requiredRoom.value).value), wps, queues'[a]);
      assert WalksToRoom(layout, graph, b.avatars[a], b.tasks[id].requiredRoom.value, queues'[a]);
      assert HasWalkFor(layout, graph, b, a, queues'[a]);
    }
  }

  ghost predicate SameRoomAndPlace(avatars: map<AgentId, Avatar>, avatars': map<AgentId, Avatar>, a: AgentId) {
    a in avatars && a in avatars' && avatars[a].room == avatars'[a].room && avatars[a].pos == avatars'[a].pos
  }

  /** Handling row `k` brings the loop to row `k + 1`. */
  lemma RowStepped(layout: TownLayout, graph: RoomGraph, b: Before, rows: seq<TaskId>, k: nat, c: Before,
                   dispatched: bool, c': Before)
    requires RowsOf(b, rows) && k < |rows| && Reached(layout, graph, b, rows, k, c)
    requires rows[k] in c.tasks && c.tasks[rows[k]].assignee.Some?
    requires RowHandled(layout, graph, c, rows[k], dispatched, c'.tasks, c'.avatars, c'.queues, c'.channels)
    requires c'.agents == c.agents && c'.startups == c.startups
    ensures Reached(layout, graph, b, rows, k + 1, c')
    ensures dispatched <==> Wins(b, rows, k)
  {
    GatesAreStable(layout, graph, b, rows, k, c);
    RowHandledIsMild(layout, graph, c, rows[k], dispatched, c');
    assert IsRow(b.tasks, b.agents, b.startups, rows[k]);
    var a := b.tasks[rows[k]].assignee.value;
    LoopKeepsRest(b, rows, k, c.tasks, b.tasks[rows[k]]);
    assert a in b.avatars ==> AvatarIsAfter(b, rows, k, c.avatars, a);
    TasksStep(b, rows, k, c.tasks, c'.tasks);
    AvatarsStep(b, rows, k, c.avatars, c'.avatars);
    ChannelsStep(b, rows, k, c.channels, c'.channels);
    QueuesStep(layout, graph, b, c, rows[k], c'.queues);
  }

  lemma WinnersStep(b: Before, rows: seq<TaskId>, k: nat)
    requires k < |rows|
    ensures |Winners(b, rows, k + 1)| == |Winners(b, rows, k)| + if Wins(b, rows, k) then 1 else 0
  {
    var before := Winners(b, rows, k);
    assert k !in before;
    assert Winners(b, rows, k + 1) == if Wins(b, rows, k) then before + {k} else before;
  }

  lemma LoopStarts(layout: TownLayout, graph: RoomGraph, b: Before, rows: seq<TaskId>)
    requires RowsOf(b, rows)
    ensures Reached(layout, graph, b, rows, 0, b) && Winners(b, rows, 0) == {}
  {
    forall a | a in b.avatars
      ensures AvatarIsAfter(b, rows, 0, b.avatars, a)
    {}
  }

  ghost function Snapshot(db: Database, world: WorldView, paths: PathStore, bus: OutBus): Before
    reads db, world, paths, bus
  {
    Before(db.tasks, db.agents, db.startups, world.avatars, paths.queues, bus.channels)
  }

  /** The scheduler's half of a tick is, for movement, a stretch of requested moves and changes of status; the
      operator's avatar is no agent. */
  ghost predicate AreMoves(layout: TownLayout, graph: RoomGraph, b: Before, c: Before) {
    OPERATOR_AVATAR_ID !in b.agents ==> MovesTo(graph, MoveView(b, layout), MoveView(c, layout))
  }

  lemma MovesStep(layout: TownLayout, graph: RoomGraph, b: Before, c: Before, id: TaskId, dispatched: bool, c': Before)
    requires AreMoves(layout, graph, b, c) && c.agents == b.agents
    requires IsRow(c.tasks, c.agents, c.startups, id)
    requires RowHandled(layout, graph, c, id, dispatched, c'.tasks, c'.avatars, c'.queues, c'.channels)
    ensures AreMoves(layout, graph, b, c')
  {
    if OPERATOR_AVATAR_ID !in b.agents {
      RowIsMove(layout, graph, c, id, dispatched, c');
      if cmd :| IsMoveOrStatus(cmd) && MoveNext(graph, MoveView(c, layout), cmd, MoveView(c', layout)) {
        MovesOneMore(graph, MoveView(b, layout), MoveView(c, layout), cmd, MoveView(c', layout));
      }
    }
  }

  /** What the loop keeps from row to row, handling the row at hand. */
  lemma LoopStep(layout: TownLayout, graph: RoomGraph, b: Before, rows: seq<TaskId>, k: nat, c: Before,
                 dispatched: bool, c': Before)
    requires RowsOf(b, rows) && k < |rows| && Reached(layout, graph, b, rows, k, c) && AreMoves(layout, graph, b, c)
    requires RowHandled(layout, graph, c, rows[k], dispatched, c'.tasks, c'.avatars, c'.queues, c'.channels)
    requires c'.agents == c.agents && c'.startups == c.startups
    requires IsRow(c.tasks, c.agents, c.startups, rows[k])
    ensures Reached(layout, graph, b, rows, k + 1, c') && AreMoves(layout, graph, b, c')
    ensures |Winners(b, rows, k + 1)| == |Winners(b, rows, k)| + if dispatched then 1 else 0
  {
    RowStepped(layout, graph, b, rows, k, c, dispatched, c');
    MovesStep(layout, graph, b, c, rows[k], dispatched, c');
    WinnersStep(b, rows, k);
  }

  /** The dispatch loop over the queued rows. */
  method DispatchLoop(db: Database, world: WorldView, paths: PathStore, bus: OutBus, layout: TownLayout,
                      graph: RoomGraph)
    returns (dispatched: nat, ghost rows: seq<TaskId>)
    modifies db`tasks, world, paths, bus
    ensures var b := old(Snapshot(db, world, paths, bus));
            && RowsOf(b, rows)
            && Reached(layout, graph, b, rows, |rows|, Snapshot(db, world, paths, bus))
            && dispatched == |Winners(b, rows, |rows|)|
            && AreMoves(layout, graph, b, Snapshot(db, world, paths, bus))
  {
    ghost var b := Snapshot(db, world, paths, bus);
    var queued := QueryQueued(db);
    rows := queued;
    dispatched := 0;
    ghost var c := b;
    LoopStarts(layout, graph, b, rows);
    MovesToItself(graph, MoveView(b, layout));
    for k := 0 to |queued|
      invariant c == Snapshot(db, world, paths, bus)
      invariant Reached(layout, graph, b, rows, k, c)
      invariant dispatched == |Winners(b, rows, k)|
      invariant AreMoves(layout, graph, b, c)
    {
      GatesAreStable(layout, graph, b, rows, k, c);
      var sent := DispatchOne(db, world, paths, bus, layout, graph, queued[k]);
      ghost var c' := Snapshot(db, world, paths, bus);
      LoopStep(layout, graph, b, rows, k, c, sent, c');
      c := c';
      if sent {
        dispatched := dispatched + 1;
      }
    }
  }

  // ---------------------------------------------------------------- what a tick achieves

  ghost function Image<A, B>(s: set<A>, f: A -> B): set<B> {
    set x | x in s :: f(x)
  }

  lemma {:induction false} ImageSize<A, B>(s: set<A>, f: A -> B)
    requires forall x, y :: x in s && y in s && f(x) == f(y) ==> x == y
    ensures |Image(s, f)| == |s|
  {
    if s != {} {
      var x :| x in s;
      var rest := s - {x};
      ImageSize(rest, f);
      assert Image(s, f) == Image(rest, f) + {f(x)};
    }
  }

  /** Agents that were idle before and are working after. */
  ghost function StartedWorking(b: Before, c: Before): set<AgentId> {
    set a | a in b.avatars && a in c.avatars && b.avatars[a].status == Idle && c.avatars[a].status == Working
  }

  /** Tasks that were queued before and are in progress after. */
  ghost function StartedTasks(b: Before, c: Before): set<TaskId> {
    set id | id in b.tasks && id in c.tasks && b.tasks[id].status == Queued && c.tasks[id].status == InProgress
  }

  /** Agents whose channel changed. */
  ghost function Notified(b: Before, c: Before): set<AgentId> {
    set a | a in b.channels && a in c.channels && c.channels[a] != b.channels[a]
  }

  lemma WinningAgents(layout: TownLayout, graph: RoomGraph, b: Before, rows: seq<TaskId>, c: Before)
    requires RowsOf(b, rows) && Reached(layout, graph, b, rows, |rows|, c)
    ensures forall a :: Taken(b, rows, |rows|, a) <==> a in StartedWorking(b, c)
    ensures forall a :: Taken(b, rows, |rows|, a) <==> a in Notified(b, c)
  {
    forall a
      ensures Taken(b, rows, |rows|, a) <==> a in StartedWorking(b, c)
      ensures Taken(b, rows, |rows|, a) <==> a in Notified(b, c)
    {
      assert a in b.avatars ==> AvatarIsAfter(b, rows, |rows|, c.avatars, a);
      assert a in b.channels ==> ChannelIsAfter(b, rows, |rows|, c.channels, a);
      if Taken(b, rows, |rows|, a) {
        var i :| 0 <= i < |rows| && GotFrame(b, rows, i, c.channels, a);
        assert |c.channels[a].frames| == |b.channels[a].frames| + 1;
      }
    }
  }

  lemma WinningTasks(layout: TownLayout, graph: RoomGraph, b: Before, rows: seq<TaskId>, c: Before, id: TaskId)
    requires RowsOf(b, rows) && Reached(layout, graph, b, rows, |rows|, c)
    ensures id in StartedTasks(b, c) <==> exists i :: 0 <= i < |rows| && Wins(b, rows, i) && rows[i] == id
  {
    if id in b.tasks && id in rows {
      var i :| 0 <= i < |rows| && rows[i] == id;
      assert RowIsAfter(b, rows, i, c.tasks);
      assert IsRow(b.tasks, b.agents, b.startups, rows[i]);
    } else if id in b.tasks {
      assert rows[..|rows|] == rows;
    }
  }

  /** Conservation: the count returned, the tasks put in progress, the agents put to work and the channels written to
      are equally many. */
  lemma DispatchConserves(layout: TownLayout, graph: RoomGraph, b: Before, rows: seq<TaskId>, c: Before)
    requires RowsOf(b, rows) && Reached(layout, graph, b, rows, |rows|, c)
    ensures |Winners(b, rows, |rows|)| == |StartedWorking(b, c)| == |StartedTasks(b, c)| == |Notified(b, c)|
  {
    WinningAgents(layout, graph, b, rows, c);
    assert StartedWorking(b, c) == Notified(b, c);
    CountAgents(b, rows, StartedWorking(b, c));
    forall id
      ensures id in StartedTasks(b, c) <==> exists i :: 0 <= i < |rows| && Wins(b, rows, i) && rows[i] == id
    {
      WinningTasks(layout, graph, b, rows, c, id);
    }
    CountTasks(b, rows, StartedTasks(b, c));
  }

  lemma CountAgents(b: Before, rows: seq<TaskId>, agents: set<AgentId>)
    requires forall a :: Taken(b, rows, |rows|, a) <==> a in agents
    ensures |Winners(b, rows, |rows|)| == |agents|
  {
    var w := Winners(b, rows, |rows|);
    var agent := (i: nat) => if i < |rows| && Wins(b, rows, i) then b.tasks[rows[i]].assignee.value else "";
    ImageSize(w, agent);
    forall a | a in agents
      ensures a in Image(w, agent)
    {
      var i: nat :| i < |rows| && Wins(b, rows, i) && b.tasks[rows[i]].assignee.value == a;
      assert i in w && agent(i) == a;
    }
    assert Image(w, agent) == agents;
  }

  lemma CountTasks(b: Before, rows: seq<TaskId>, tasks: set<TaskId>)
    requires forall i, j :: 0 <= i < j < |rows| ==> rows[i] != rows[j]
    requires forall id :: id in tasks <==> exists i :: 0 <= i < |rows| && Wins(b, rows, i) && rows[i] == id
    ensures |Winners(b, rows, |rows|)| == |tasks|
  {
    var w := Winners(b, rows, |rows|);
    var task := (i: nat) => if i < |rows| then rows[i] else "";
    ImageSize(w, task);
    forall id | id in tasks
      ensures id in Image(w, task)
    {
      var i: nat :| i < |rows| && Wins(b, rows, i) && rows[i] == id;
      assert i in w && task(i) == id;
    }
    assert Image(w, task) == tasks;
  }

  /** Each channel written to gained exactly one frame, that of the task its agent started. */
  lemma FramesMatchTasks(layout: TownLayout, graph: RoomGraph, b: Before, rows: seq<TaskId>, c: Before, a: AgentId)
    returns (id: TaskId)
    requires RowsOf(b, rows) && Reached(layout, graph, b, rows, |rows|, c) && a in Notified(b, c)
    ensures id in StartedTasks(b, c) && b.tasks[id].assignee == Some(a)
    ensures c.channels[a] == b.channels[a].Push(TaskAssigned(id))
  {
    assert ChannelIsAfter(b, rows, |rows|, c.channels, a);
    var i :| 0 <= i < |rows| && GotFrame(b, rows, i, c.channels, a);
    id := rows[i];
    WinningTasks(layout, graph, b, rows, c, id);
  }

  /** Work conservation: an agent with room in its channel and an eligible task gets exactly one task, the first
      eligible one in query order; nobody else gets any. */
  lemma DispatchIsWorkConserving(layout: TownLayout, graph: RoomGraph, b: Before, rows: seq<TaskId>, c: Before, i: nat)
    requires RowsOf(b, rows) && Reached(layout, graph, b, rows, |rows|, c)
    requires i < |rows| && rows[i] in b.tasks && b.tasks[rows[i]].assignee.Some?
    ensures c.tasks.Keys == b.tasks.Keys
    ensures var a := b.tasks[rows[i]].assignee.value;
            c.tasks[rows[i]].status == InProgress <==>
              && Eligible(b, rows[i]) && CanSend(b, a)
              && forall j :: 0 <= j < i && Eligible(b, rows[j]) ==> b.tasks[rows[j]].assignee.value != a
    ensures var a := b.tasks[rows[i]].assignee.value;
            Eligible(b, rows[i]) && CanSend(b, a) ==> a in StartedWorking(b, c)
  {
    var a := b.tasks[rows[i]].assignee.value;
    assert RowIsAfter(b, rows, i, c.tasks);
    assert IsRow(b.tasks, b.agents, b.startups, rows[i]);
    WinningAgents(layout, graph, b, rows, c);
    if Eligible(b, rows[i]) && CanSend(b, a) {
      FirstEligibleWins(b, rows, |rows|, i);
    }
  }

  /** A row whose frame cannot be sent, or that fails a gate, stays queued, and its agent is left as it was unless
      another row won it. */
  lemma LosersStayQueued(layout: TownLayout, graph: RoomGraph, b: Before, rows: seq<TaskId>, c: Before, i: nat)
    requires RowsOf(b, rows) && Reached(layout, graph, b, rows, |rows|, c)
    requires i < |rows| && rows[i] in b.tasks && b.tasks[rows[i]].assignee.Some? && rows[i] in c.tasks
    ensures !Eligible(b, rows[i]) || !CanSend(b, b.tasks[rows[i]].assignee.value) ==> c.tasks[rows[i]].status == Queued
    ensures var a := b.tasks[rows[i]].assignee.value;
            !CanSend(b, a) && a in b.avatars ==>
              a in c.avatars && c.avatars[a].status == b.avatars[a].status && a !in Notified(b, c)
  {
    var a := b.tasks[rows[i]].assignee.value;
    assert RowIsAfter(b, rows, i, c.tasks);
    assert IsRow(b.tasks, b.agents, b.startups, rows[i]);
    WinningAgents(layout, graph, b, rows, c);
    assert a in b.avatars ==> AvatarIsAfter(b, rows, |rows|, c.avatars, a);
  }

  lemma RowAfterIsLifecycle(b: Before, rows: seq<TaskId>, i: nat)
    requires i < |rows| && IsRow(b.tasks, b.agents, b.startups, rows[i])
    ensures var t := RowAfter(b, rows, i);
            || t == b.tasks[rows[i]]
            || RowStep(b.tasks, b.agents, rows[i], Dispatched, t)
            || RowStep(b.tasks, b.agents, rows[i], BlockerCleared, t)
  {
    assert Wins(b, rows, i) ==> !Taken(b, rows, i, b.tasks[rows[i]].assignee.value);
  }

  /** Each row the loop changes makes one step of the task lifecycle: a dispatch, or the clearing of its blocker. */
  lemma DispatchIsLifecycle(layout: TownLayout, graph: RoomGraph, b: Before, rows: seq<TaskId>, c: Before, id: TaskId)
    requires RowsOf(b, rows) && Reached(layout, graph, b, rows, |rows|, c) && id in b.tasks
    ensures c.tasks.Keys == b.tasks.Keys
    ensures c.tasks[id] == b.tasks[id] || RowStep(b.tasks, b.agents, id, Dispatched, c.tasks[id])
            || RowStep(b.tasks, b.agents, id, BlockerCleared, c.tasks[id])
  {
    if id in rows {
      var i :| 0 <= i < |rows| && rows[i] == id;
      assert RowIsAfter(b, rows, i, c.tasks);
      assert IsRow(b.tasks, b.agents, b.startups, rows[i]);
      RowAfterIsLifecycle(b, rows, i);
    } else {
      assert rows[..|rows|] == rows;
    }
  }

  // ---------------------------------------------------------------- reassignment passes

  /** An idle avatar of the startup with the role, other than the current assignee. */
  predicate IsPeer(avatars: map<AgentId, Avatar>, startup: StartupId, role: Role, current: AgentId, p: AgentId) {
    && p in avatars && p != current
    && avatars[p].startup == startup && avatars[p].role == role && avatars[p].status == Idle
  }

  method FindPeer(avatars: map<AgentId, Avatar>, startup: StartupId, role: Role, current: AgentId)
    returns (peer: Option<AgentId>)
    ensures peer.Some? ==> IsPeer(avatars, startup, role, current, peer.value)
    ensures peer.None? ==> forall p :: !IsPeer(avatars, startup, role, current, p)
  {
    var pending := avatars.Keys;
    while pending != {}
      invariant pending <= avatars.Keys
      invariant forall p :: p in avatars && p !in pending ==> !IsPeer(avatars, startup, role, current, p)
      decreases pending
    {
      var p :| p in pending;
      if IsPeer(avatars, startup, role, current, p) {
        return Some(p);
      }
      pending := pending - {p};
    }
    return None;
  }

  /** The row waits for an agent that is not idle although a peer is. `stale` holds the rows untouched for longer than
      their startup's threshold. */
  ghost predicate ToSteal(t: Task, agents: AgentTable, startups: StartupTable, avatars: map<AgentId, Avatar>,
                          stale: set<TaskId>, id: TaskId) {
    && IsStealRow(t, startups, stale, id)
    && !IsIdle(avatars, t.assignee.value)
    && HasPeer(t, agents, avatars)
  }

  predicate IsStealRow(t: Task, startups: StartupTable, stale: set<TaskId>, id: TaskId) {
    && t.status == Queued && t.assignee.Some? && id in stale
    && t.startup in startups && startups[t.startup].autoSteal
  }

  /** The assignee has an agents row and somebody with its role is idle in the startup. */
  ghost predicate HasPeer(t: Task, agents: AgentTable, avatars: map<AgentId, Avatar>)
    requires t.assignee.Some?
  {
    t.assignee.value in agents
    && exists p :: IsPeer(avatars, t.startup, agents[t.assignee.value].role, t.assignee.value, p)
  }

  /** `t'` is `t` handed to some idle peer. */
  ghost predicate HandedToPeer(t: Task, agents: AgentTable, avatars: map<AgentId, Avatar>, t': Task, recovered: bool)
    requires t.assignee.Some? && t.assignee.value in agents
  {
    exists p :: IsPeer(avatars, t.startup, agents[t.assignee.value].role, t.assignee.value, p)
      && t' == (if recovered then t.(assignee := Some(p), status := Queued, reviewRound := 0)
                else t.(assignee := Some(p)))
  }

  /** The task was sent back for changes at least as often as its startup tolerates and somebody else is free. */
  ghost predicate ToRecover(t: Task, agents: AgentTable, startups: StartupTable, avatars: map<AgentId, Avatar>) {
    && IsRecoveryRow(t, startups)
    && HasPeer(t, agents, avatars)
  }

  predicate IsRecoveryRow(t: Task, startups: StartupTable) {
    && t.status == ChangesRequested && t.assignee.Some?
    && t.startup in startups && startups[t.startup].autoRecovery
    && t.reviewRound >= startups[t.startup].recoveryAttempts
  }

  ghost predicate StealOutcome(t: Task, agents: AgentTable, startups: StartupTable, avatars: map<AgentId, Avatar>,
                               stale: set<TaskId>, id: TaskId, t': Task) {
    if ToSteal(t, agents, startups, avatars, stale, id) then HandedToPeer(t, agents, avatars, t', false) else t' == t
  }

  ghost predicate RecoveryOutcome(t: Task, agents: AgentTable, startups: StartupTable, avatars: map<AgentId, Avatar>,
                                  t': Task) {
    if ToRecover(t, agents, startups, avatars) then HandedToPeer(t, agents, avatars, t', true) else t' == t
  }

  /** Hands every stale queued task whose assignee is not idle to an idle peer, where there is one. */
  method AutoStealPass(db: Database, world: WorldView, stale: set<TaskId>)
    modifies db`tasks
    ensures db.tasks.Keys == old(db.tasks).Keys
    ensures forall id :: id in db.tasks ==>
      StealOutcome(old(db.tasks)[id], db.agents, db.startups, world.avatars, stale, id, db.tasks[id])
  {
    ghost var tasks := db.tasks;
    var startups := set s | s in db.startups && db.startups[s].autoSteal;
    while startups != {}
      invariant forall s :: s in startups ==> s in db.startups && db.startups[s].autoSteal
      invariant db.tasks.Keys == tasks.Keys
      invariant forall id :: id in tasks ==>
        if tasks[id].startup in startups then db.tasks[id] == tasks[id]
        else StealOutcome(tasks[id], db.agents, db.startups, world.avatars, stale, id, db.tasks[id])
      decreases startups
    {
      var startup :| startup in startups;
      startups := startups - {startup};
      StealInStartup(db, world, startup, stale);
    }
  }

  method StealInStartup(db: Database, world: WorldView, startup: StartupId, stale: set<TaskId>)
    modifies db`tasks
    ensures db.tasks.Keys == old(db.tasks).Keys
    ensures forall id :: id in db.tasks ==>
      if old(db.tasks)[id].startup != startup then db.tasks[id] == old(db.tasks)[id]
      else StealOutcome(old(db.tasks)[id], db.agents, db.startups, world.avatars, stale, id, db.tasks[id])
  {
    ghost var tasks := db.tasks;
    var rows := set id | id in db.tasks && db.tasks[id].startup == startup
                         && IsStealRow(db.tasks[id], db.startups, stale, id);
    while rows != {}
      invariant db.tasks.Keys == tasks.Keys
      invariant forall id :: id in rows ==>
        id in tasks && tasks[id].startup == startup && IsStealRow(tasks[id], db.startups, stale, id)
      invariant forall id :: id in tasks ==>
        if id in rows || tasks[id].startup != startup then db.tasks[id] == tasks[id]
        else StealOutcome(tasks[id], db.agents, db.startups, world.avatars, stale, id, db.tasks[id])
      decreases rows
    {
      var id :| id in rows;
      rows := rows - {id};
      var current := db.tasks[id].assignee.value;
      if IsIdle(world.avatars, current) || current !in db.agents {
        continue;
      }
      var peer := FindPeer(world.avatars, startup, db.agents[current].role, current);
      if peer.Some? {
        db.tasks := db.tasks[id := db.tasks[id].(assignee := peer)];
      }
    }
  }

  /** Hands every task past its startup's tolerated review rounds back to the queue of an idle peer, where there is
      one. */
  method AutoRecoveryPass(db: Database, world: WorldView)
    modifies db`tasks
    ensures db.tasks.Keys == old(db.tasks).Keys
    ensures forall id :: id in db.tasks ==>
      RecoveryOutcome(old(db.tasks)[id], db.agents, db.startups, world.avatars, db.tasks[id])
  {
    ghost var tasks := db.tasks;
    var startups := set s | s in db.startups && db.startups[s].autoRecovery;
    while startups != {}
      invariant forall s :: s in startups ==> s in db.startups && db.startups[s].autoRecovery
      invariant db.tasks.Keys == tasks.Keys
      invariant forall id :: id in tasks ==>
        if tasks[id].startup in startups then db.tasks[id] == tasks[id]
        else RecoveryOutcome(tasks[id], db.agents, db.startups, world.avatars, db.tasks[id])
      decreases startups
    {
      var startup :| startup in startups;
      startups := startups - {startup};
      RecoverInStartup(db, world, startup);
    }
  }

  method RecoverInStartup(db: Database, world: WorldView, startup: StartupId)
    modifies db`tasks
    ensures db.tasks.Keys == old(db.tasks).Keys
    ensures forall id :: id in db.tasks ==>
      if old(db.tasks)[id].startup != startup then db.tasks[id] == old(db.tasks)[id]
      else RecoveryOutcome(old(db.tasks)[id], db.agents, db.startups, world.avatars, db.tasks[id])
  {
    ghost var tasks := db.tasks;
    var rows := set id | id in db.tasks && db.tasks[id].startup == startup && IsRecoveryRow(db.tasks[id], db.startups);
    while rows != {}
      invariant db.tasks.Keys == tasks.Keys
      invariant forall id :: id in rows ==>
        id in tasks && tasks[id].startup == startup && IsRecoveryRow(tasks[id], db.startups)
      invariant forall id :: id in tasks ==>
        if id in rows || tasks[id].startup != startup then db.tasks[id] == tasks[id]
        else RecoveryOutcome(tasks[id], db.agents, db.startups, world.avatars, db.tasks[id])
      decreases rows
    {
      var id :| id in rows;
      rows := rows - {id};
      var current := db.tasks[id].assignee.value;
      if current !in db.agents {
        continue;
      }
      var peer := FindPeer(world.avatars, startup, db.agents[current].role, current);
      if peer.Some? {
        db.tasks := db.tasks[id := db.tasks[id].(assignee := peer, status := Queued, reviewRound := 0)];
      }
    }
  }

  /** While avatars mirror the agents table, a hand-over by either pass is a steal or a recovery between peers. */
  lemma HandOverIsLifecycle(tasks: TaskTable, agents: AgentTable, avatars: map<AgentId, Avatar>, id: TaskId, t': Task,
                            recovered: bool) returns (p: AgentId)
    requires Mirrors(avatars, agents) && id in tasks && tasks[id].assignee.Some? && tasks[id].assignee.value in agents
    requires tasks[id].status == if recovered then ChangesRequested else Queued
    requires HandedToPeer(tasks[id], agents, avatars, t', recovered)
    ensures RowStep(tasks, agents, id, if recovered then Recovered(p) else Stolen(p), t')
  {
    p :| IsPeer(avatars, tasks[id].startup, agents[tasks[id].assignee.value].role, tasks[id].assignee.value, p)
         && t' == if recovered then tasks[id].(assignee := Some(p), status := Queued, reviewRound := 0)
                  else tasks[id].(assignee := Some(p));
  }

  /** What a tick does to the table of tasks: dispatch, then stealing, then recovery, with the tables in between. */
  ghost predicate IsTick(layout: TownLayout, graph: RoomGraph, b: Before, rows: seq<TaskId>, c: Before,
                         stale: set<TaskId>, stolen: TaskTable, tasks: TaskTable) {
    && RowsOf(b, rows) && Reached(layout, graph, b, rows, |rows|, c)
    && tasks.Keys == stolen.Keys == c.tasks.Keys
    && (forall id :: id in stolen ==> StealOutcome(c.tasks[id], b.agents, b.startups, c.avatars, stale, id, stolen[id]))
    && forall id :: id in stolen ==> RecoveryOutcome(stolen[id], b.agents, b.startups, c.avatars, tasks[id])
  }

  /** One scheduler tick. */
  method Tick(db: Database, world: WorldView, paths: PathStore, bus: OutBus, deadlines: DeadlineTable,
              layout: TownLayout, graph: RoomGraph, now: int, stale: set<TaskId>)
    returns (dispatched: nat, overdue: seq<TaskId>, ghost b: Before, ghost rows: seq<TaskId>, ghost c: Before,
             ghost stolen: TaskTable)
    modifies db`tasks, world, paths, bus, deadlines
    ensures b == old(Snapshot(db, world, paths, bus))
    ensures IsTick(layout, graph, b, rows, c, stale, stolen, db.tasks) && AreMoves(layout, graph, b, c)
    ensures dispatched == |Winners(b, rows, |rows|)|
    ensures IsScan(old(deadlines.rows), c.tasks, now, deadlines.rows, overdue)
    ensures world.avatars == c.avatars && paths.queues == c.queues && bus.channels == c.channels
  {
    b := Snapshot(db, world, paths, bus);
    dispatched, rows := DispatchLoop(db, world, paths, bus, layout, graph);
    c := Snapshot(db, world, paths, bus);
    overdue := deadlines.Scan(db, now);
    AutoStealPass(db, world, stale);
    stolen := db.tasks;
    AutoRecoveryPass(db, world);
  }
}
