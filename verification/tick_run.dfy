/** A whole scheduler tick as part of the runs of the task lifecycle and of movement, and the agreement between avatars
    and agents on which both rest. */
module TickRun {
  import opened Wrappers
  import opened Path
  import opened State
  import opened Seed
  import opened MoveSys
  import opened Movement
  import opened TaskSm
  import opened Db
  import opened Lifecycle
  import opened Scheduler
  import opened TickRules

  // ---------------------------------------------------------------- avatars mirror agents

  /** New avatars are inserted with their agents' startup and role. */
  ghost predicate MintedMirror(minted: map<AgentId, Avatar>, agents: AgentTable) {
    forall a :: a in minted ==>
      a in agents && agents[a].startup == minted[a].startup && agents[a].role == minted[a].role
  }

  /** Every command of the world loop keeps avatars and agents in agreement. */
  lemma MovesKeepMirrors(graph: RoomGraph, s: MoveState, cmd: MoveCmd, s': MoveState, agents: AgentTable)
    requires Mirrors(s.avatars, agents) && MoveNext(graph, s, cmd, s')
    requires cmd.InsertAvatars? ==> MintedMirror(cmd.minted, agents)
    ensures Mirrors(s'.avatars, agents)
  {}

  /** So does every action on tasks and agents; nobody is hired as an operator. */
  lemma TasksKeepMirrors(avatars: map<AgentId, Avatar>, s: TaskWorld, action: Action, s': TaskWorld)
    requires Mirrors(avatars, s.agents) && TaskNext(s, action, s')
    requires action.Hire? ==> action.agent != OPERATOR_AVATAR_ID && action.hired.role != Role.Operator
    ensures Mirrors(avatars, s'.agents)
  {}

  /** Movement and tasks side by side. */
  datatype Both = Both(moves: MoveState, tasks: TaskWorld)

  datatype BothStep = Moved(cmd: MoveCmd) | Acted(action: Action)

  ghost predicate BothNext(graph: RoomGraph, s: Both, step: BothStep, s': Both) {
    match step
    case Moved(cmd) =>
      && MoveNext(graph, s.moves, cmd, s'.moves) && s'.tasks == s.tasks
      && (cmd.InsertAvatars? ==> MintedMirror(cmd.minted, s.tasks.agents))
    case Acted(action) =>
      && TaskNext(s.tasks, action, s'.tasks) && s'.moves == s.moves
      && (action.Hire? ==> action.agent != OPERATOR_AVATAR_ID && action.hired.role != Role.Operator)
  }

  ghost predicate BothStepAt(graph: RoomGraph, trace: seq<Both>, steps: seq<BothStep>, i: nat)
    requires i < |steps| && |trace| == |steps| + 1
  {
    BothNext(graph, trace[i], steps[i], trace[i + 1])
  }

  /** In every state that both together reach from one in which they agree, avatars mirror agents. */
  lemma {:induction false} ReachableMirrors(graph: RoomGraph, trace: seq<Both>, steps: seq<BothStep>, i: nat)
    requires |trace| == |steps| + 1 && i < |trace| && Mirrors(trace[0].moves.avatars, trace[0].tasks.agents)
    requires forall j: nat :: j < |steps| ==> BothStepAt(graph, trace, steps, j)
    ensures Mirrors(trace[i].moves.avatars, trace[i].tasks.agents)
  {
    if i > 0 {
      ReachableMirrors(graph, trace, steps, i - 1);
      assert BothStepAt(graph, trace, steps, i - 1);
      var s, s' := trace[i - 1], trace[i];
      match steps[i - 1]
      case Moved(cmd) => MovesKeepMirrors(graph, s.moves, cmd, s'.moves, s.tasks.agents);
      case Acted(action) => TasksKeepMirrors(s.moves.avatars, s.tasks, action, s'.tasks);
    }
  }

  lemma DispatchKeepsMirrors(layout: TownLayout, graph: RoomGraph, b: Before, rows: seq<TaskId>, c: Before)
    requires RowsOf(b, rows) && Reached(layout, graph, b, rows, |rows|, c) && Mirrors(b.avatars, b.agents)
    ensures Mirrors(c.avatars, c.agents)
  {
    forall a | a in c.avatars
      ensures c.avatars[a].startup == b.avatars[a].startup && c.avatars[a].role == b.avatars[a].role
    {
      assert AvatarIsAfter(b, rows, |rows|, c.avatars, a);
    }
  }

  // ---------------------------------------------------------------- the tick as a stretch of the lifecycle

  lemma DispatchStepsApart(layout: TownLayout, graph: RoomGraph, b: Before, rows: seq<TaskId>, c: Before)
    requires RowsOf(b, rows) && Reached(layout, graph, b, rows, |rows|, c)
    ensures RowsStepApart(b.tasks, b.agents, c.tasks)
  {
    forall id | id in b.tasks
      ensures id in c.tasks && StepsApart(b.tasks, b.agents, c.tasks, id)
    {
      DispatchIsLifecycle(layout, graph, b, rows, c, id);
    }
  }

  lemma StealStepsApart(tasks: TaskTable, agents: AgentTable, startups: StartupTable, avatars: map<AgentId, Avatar>,
                        stale: set<TaskId>, tasks': TaskTable)
    requires Mirrors(avatars, agents) && tasks'.Keys == tasks.Keys
    requires forall id :: id in tasks ==> StealOutcome(tasks[id], agents, startups, avatars, stale, id, tasks'[id])
    ensures RowsStepApart(tasks, agents, tasks')
  {
    forall id | id in tasks
      ensures StepsApart(tasks, agents, tasks', id)
    {
      assert StealOutcome(tasks[id], agents, startups, avatars, stale, id, tasks'[id]);
      if ToSteal(tasks[id], agents, startups, avatars, stale, id) {
        var p := HandOverIsLifecycle(tasks, agents, avatars, id, tasks'[id], false);
      }
    }
  }

  lemma RecoveryStepsApart(tasks: TaskTable, agents: AgentTable, startups: StartupTable, avatars: map<AgentId, Avatar>,
                           tasks': TaskTable)
    requires Mirrors(avatars, agents) && tasks'.Keys == tasks.Keys
    requires forall id :: id in tasks ==> RecoveryOutcome(tasks[id], agents, startups, avatars, tasks'[id])
    ensures RowsStepApart(tasks, agents, tasks')
  {
    forall id | id in tasks
      ensures StepsApart(tasks, agents, tasks', id)
    {
      assert RecoveryOutcome(tasks[id], agents, startups, avatars, tasks'[id]);
      if ToRecover(tasks[id], agents, startups, avatars) {
        var p := HandOverIsLifecycle(tasks, agents, avatars, id, tasks'[id], true);
      }
    }
  }

  /** While avatars mirror agents, a whole tick - dispatch, stealing, recovery - is a stretch of lifecycle events, so
      whatever holds over every run of these holds across ticks. */
  lemma TickIsTaskRun(layout: TownLayout, graph: RoomGraph, b: Before, rows: seq<TaskId>, c: Before, stale: set<TaskId>,
                      stolen: TaskTable, tasks: TaskTable)
    requires IsTick(layout, graph, b, rows, c, stale, stolen, tasks) && Mirrors(b.avatars, b.agents)
    ensures ChangesTo(TaskWorld(b.tasks, b.agents), TaskWorld(tasks, b.agents))
    ensures Mirrors(c.avatars, b.agents)
  {
    DispatchKeepsMirrors(layout, graph, b, rows, c);
    DispatchStepsApart(layout, graph, b, rows, c);
    StealStepsApart(c.tasks, b.agents, b.startups, c.avatars, stale, stolen);
    RecoveryStepsApart(stolen, b.agents, b.startups, c.avatars, tasks);
    var w0, w1 := TaskWorld(b.tasks, b.agents), TaskWorld(c.tasks, b.agents);
    var w2, w3 := TaskWorld(stolen, b.agents), TaskWorld(tasks, b.agents);
    RowsStepAll(b.tasks, b.agents, c.tasks);
    RowsStepAll(c.tasks, b.agents, stolen);
    RowsStepAll(stolen, b.agents, tasks);
    ChangesCompose(w0, w1, w2);
    ChangesCompose(w0, w2, w3);
  }

  /** So a run of the lifecycle goes on across a tick. */
  lemma TickContinuesTaskRun(layout: TownLayout, graph: RoomGraph, trace: seq<TaskWorld>, actions: seq<Action>,
                             b: Before, rows: seq<TaskId>, c: Before, stale: set<TaskId>, stolen: TaskTable,
                             tasks: TaskTable)
    returns (trace': seq<TaskWorld>, actions': seq<Action>)
    requires IsTaskRun(trace, actions) && trace[|actions|] == TaskWorld(b.tasks, b.agents)
    requires IsTick(layout, graph, b, rows, c, stale, stolen, tasks) && Mirrors(b.avatars, b.agents)
    ensures IsTaskRun(trace', actions') && trace <= trace' && actions <= actions'
    ensures trace'[|actions'|] == TaskWorld(tasks, b.agents)
  {
    TickIsTaskRun(layout, graph, b, rows, c, stale, stolen, tasks);
    trace', actions' := TaskRunGoesOn(trace, actions, TaskWorld(tasks, b.agents));
  }

  // ---------------------------------------------------------------- recovery over runs

  /** A tick leaves a row with requested changes alone unless it recovers it. */
  lemma OnlyRecovered(layout: TownLayout, graph: RoomGraph, b: Before, rows: seq<TaskId>, c: Before, stale: set<TaskId>,
                      stolen: TaskTable, tasks: TaskTable, id: TaskId)
    requires IsTick(layout, graph, b, rows, c, stale, stolen, tasks)
    requires id in b.tasks && b.tasks[id].status == ChangesRequested
    ensures id in tasks && RecoveryOutcome(b.tasks[id], b.agents, b.startups, c.avatars, tasks[id])
  {
    OtherRowsStay(layout, graph, b, rows, c, id);
    StolenExactly(c.tasks[id], b.agents, b.startups, c.avatars, stale, id, stolen[id]);
  }

  /** After any run, a tick takes a row with requested changes from its assignee exactly if the startup has opted in,
      changes were asked for at least as often as it tolerates since the row was last in the queue, and after dispatch
      somebody else with the assignee's role is idle in the startup. */
  lemma RecoveredByRequests(layout: TownLayout, graph: RoomGraph, trace: seq<TaskWorld>, actions: seq<Action>,
                            b: Before, rows: seq<TaskId>, c: Before, stale: set<TaskId>, stolen: TaskTable,
                            tasks: TaskTable, id: TaskId)
    returns (q: nat, a: AgentId)
    requires IsTaskRun(trace, actions) && trace[|actions|] == TaskWorld(b.tasks, b.agents)
    requires IsTick(layout, graph, b, rows, c, stale, stolen, tasks)
    requires id in b.tasks && b.tasks[id].status == ChangesRequested
    ensures q <= |actions| && LeftQueueAt(trace, id, q, |actions|)
    ensures b.tasks[id].assignee == Some(a) && a in b.agents && id in tasks
    ensures tasks[id] != b.tasks[id] <==>
              && b.tasks[id].startup in b.startups && b.startups[b.tasks[id].startup].autoRecovery
              && Requests(actions, id, q, |actions|) >= b.startups[b.tasks[id].startup].recoveryAttempts
              && exists p :: p in c.avatars && c.avatars[p].status == Idle && p != a
                             && c.avatars[p].startup == b.tasks[id].startup && c.avatars[p].role == b.agents[a].role
    ensures tasks[id] != b.tasks[id] ==> tasks[id].status == Queued && tasks[id].assignee != Some(a)
  {
    var n := |actions|;
    assert IsAt(trace, id, n, ChangesRequested);
    q := RequestedSinceQueue(trace, actions, id, n);
    a := b.tasks[id].assignee.value;
    OnlyRecovered(layout, graph, b, rows, c, stale, stolen, tasks, id);
    RecoveredExactly(b.tasks[id], b.agents, b.startups, c.avatars, tasks[id]);
  }

  /** Rows escalate from round 3 on, so a startup that is made to tolerate more never has a row recovered. */
  lemma MoreThanThreeNeverRecover(layout: TownLayout, graph: RoomGraph, trace: seq<TaskWorld>, actions: seq<Action>,
                                  b: Before, rows: seq<TaskId>, c: Before, stale: set<TaskId>, stolen: TaskTable,
                                  tasks: TaskTable, id: TaskId)
    requires IsTaskRun(trace, actions) && trace[|actions|] == TaskWorld(b.tasks, b.agents)
    requires IsTick(layout, graph, b, rows, c, stale, stolen, tasks)
    requires id in b.tasks && b.tasks[id].status == ChangesRequested && b.tasks[id].startup in b.startups
    requires b.startups[b.tasks[id].startup].recoveryAttempts > 3
    ensures id in tasks && tasks[id] == b.tasks[id]
  {
    assert IsAt(trace, id, |actions|, ChangesRequested);
    var q := RequestedSinceQueue(trace, actions, id, |actions|);
    OnlyRecovered(layout, graph, b, rows, c, stale, stolen, tasks, id);
    RecoveredExactly(b.tasks[id], b.agents, b.startups, c.avatars, tasks[id]);
  }

  // ---------------------------------------------------------------- the tick as a stretch of movement

  lemma {:induction false} StretchKeepsWalksBacked(graph: RoomGraph, trace: seq<MoveState>, cmds: seq<MoveCmd>, i: nat)
    requires IsStretch(graph, trace, cmds) && i <= |cmds| && WalksBacked(trace[0])
    ensures WalksBacked(trace[i])
  {
    if i > 0 {
      StretchKeepsWalksBacked(graph, trace, cmds, i - 1);
      assert RunStep(graph, trace, cmds, i - 1);
      WalksBackedPreserved(graph, trace[i - 1], cmds[i - 1], trace[i]);
    }
  }

  /** After the scheduler's half of a tick targets are backed by stored walks as they were before it. */
  lemma TickKeepsTargetsBacked(layout: TownLayout, graph: RoomGraph, b: Before, c: Before)
    requires AreMoves(layout, graph, b, c) && OPERATOR_AVATAR_ID !in b.agents && WalksBacked(MoveView(b, layout))
    ensures WalksBacked(MoveView(c, layout))
  {
    var s, s' := MoveView(b, layout), MoveView(c, layout);
    var trace, cmds :| IsStretch(graph, trace, cmds) && trace[0] == s && trace[|cmds|] == s';
    StretchKeepsWalksBacked(graph, trace, cmds, |cmds|);
  }

  /** A tick of the world loop - every avatar one step, then the scheduler - continues a run of movement, so whatever
      holds over every such run holds across ticks. */
  lemma TickContinuesRun(graph: RoomGraph, trace: seq<MoveState>, cmds: seq<MoveCmd>, b: Before, c: Before)
    returns (trace': seq<MoveState>, cmds': seq<MoveCmd>)
    requires IsMoveRun(graph, trace, cmds) && OPERATOR_AVATAR_ID !in b.agents
    requires MoveNext(graph, trace[|cmds|], Tick, MoveView(b, trace[|cmds|].layout))
    requires AreMoves(trace[|cmds|].layout, graph, b, c)
    ensures IsMoveRun(graph, trace', cmds') && trace <= trace' && cmds + [MoveCmd.Tick] <= cmds'
    ensures trace'[|cmds'|] == MoveView(c, trace[|cmds|].layout)
  {
    var layout := trace[|cmds|].layout;
    var stepped, commands := trace + [MoveView(b, layout)], cmds + [MoveCmd.Tick];
    forall i | 0 <= i < |commands|
      ensures RunStep(graph, stepped, commands, i)
    {
      assert i < |cmds| ==> RunStep(graph, trace, cmds, i);
    }
    trace', cmds' := RunGoesOn(graph, stepped, commands, MoveView(c, layout));
  }
}
