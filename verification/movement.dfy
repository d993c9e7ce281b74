/** What the movement subsystem guarantees over whole walks and over every run of the world loop. */
module Movement {
  import opened Wrappers
  import opened Path
  import opened State
  import opened Seed
  import opened MoveSys

  // ---------------------------------------------------------------- where a walk ends

  /** The last transition that fires among the first `n` waypoints enters one of their rooms. */
  lemma {:induction false} LastSurvivor(bounds: map<RoomId, Bounds>, from: RoomId, fromTile: Tile, wps: seq<Waypoint>,
                                        n: nat)
    returns (k: nat)
    requires n <= |wps|
    ensures k <= n
    ensures var s := Survivors(bounds, from, fromTile, wps, n);
            RoomAt(from, wps, k) == if s == [] then from else s[|s| - 1]
    ensures n > 0 && !Lost(bounds, from, fromTile, wps, n - 1) ==> k == n
    ensures n > 0 && Lost(bounds, from, fromTile, wps, n - 1) ==> k < n
  {
    if n == 0 {
      k := 0;
    } else if Lost(bounds, from, fromTile, wps, n - 1) {
      k := LastSurvivor(bounds, from, fromTile, wps, n - 1);
    } else {
      k := n;
    }
  }

  /** The last room entered is the target exactly when no door is needed or the last transition is not lost. */
  lemma LastEntered(bounds: map<RoomId, Bounds>, graph: RoomGraph, from: RoomId, fromTile: Tile, to: RoomId,
                    wps: seq<Waypoint>)
    requires IsShortestChain(graph, from, wps, to)
    ensures var s := Survivors(bounds, from, fromTile, wps, |wps|);
            (if s == [] then from else s[|s| - 1]) == to <==>
              wps == [] || !Lost(bounds, from, fromTile, wps, |wps| - 1)
  {
    var k := LastSurvivor(bounds, from, fromTile, wps, |wps|);
    if k < |wps| {
      ShortestChainIsSimple(graph, from, wps, to, k, |wps|);
    }
  }

  /** A walk ends in the target room exactly when it needs no door or the transition of its last door is not lost. */
  lemma ArrivalRoom(layout: TownLayout, graph: RoomGraph, from: RoomId, fromTile: Tile, to: RoomId, toTile: Tile,
                    wps: seq<Waypoint>, queue: seq<Step>)
    requires IsPlan(layout, graph, from, fromTile, to, toTile, wps, queue)
    ensures RoomAfter(from, queue) == to <==>
      wps == [] || !Lost(layout.RoomBoundsMap(), from, fromTile, wps, |wps| - 1)
  {
    LastEntered(layout.RoomBoundsMap(), graph, from, fromTile, to, wps);
  }

  /** The walks and avatars after `k` ticks in which no move is requested. */
  function Ticks(avatars: map<AgentId, Avatar>, queues: map<AgentId, seq<Step>>, k: nat)
    : (map<AgentId, Avatar>, map<AgentId, seq<Step>>)
  {
    if k == 0 then (avatars, queues)
    else
      var (a, q) := Ticks(avatars, queues, k - 1);
      (AvatarsStepped(a, q), QueuesStepped(a, q))
  }

  /** An avatar after the first `k` steps of its queue; the target is cleared with the last. */
  function Along(av: Avatar, queue: seq<Step>, k: nat): Avatar
    requires k <= |queue| && queue != []
  {
    av.(pos := if k == 0 then av.pos else queue[k - 1].tile,
        room := RoomAfter(av.room, queue[..k]),
        target := if k == |queue| then None else av.target)
  }

  lemma AlongStep(av: Avatar, queue: seq<Step>, k: nat)
    requires 0 < k <= |queue|
    ensures AvatarStepped(Along(av, queue, k - 1), queue[k - 1..]) == Along(av, queue, k)
  {
    assert queue[..k][..k - 1] == queue[..k - 1];
  }

  /** After `k` ticks an agent has made the first `k` steps of its queue. */
  lemma {:induction false} TicksAlongQueue(avatars: map<AgentId, Avatar>, queues: map<AgentId, seq<Step>>, a: AgentId,
                                           k: nat)
    requires a in avatars && a in queues && k <= |queues[a]| && queues[a] != []
    ensures var (avatars', queues') := Ticks(avatars, queues, k);
            && a in avatars' && avatars'[a] == Along(avatars[a], queues[a], k)
            && (if k < |queues[a]| then a in queues' && queues'[a] == queues[a][k..] else a !in queues')
  {
    if k > 0 {
      var q := queues[a];
      TicksAlongQueue(avatars, queues, a, k - 1);
      AlongStep(avatars[a], q, k);
      assert q[k - 1..][1..] == q[k..];
    }
  }

  /** The agents that tick number `k + 1` reports as arrived. */
  ghost predicate ArrivesAtTick(avatars: map<AgentId, Avatar>, queues: map<AgentId, seq<Step>>, k: nat, e: MoveEvent) {
    var (avatars', queues') := Ticks(avatars, queues, k);
    Completes(avatars', queues', e)
  }

  /** The agent is there after `k` ticks and, unless `k` is 0, one 4-connected step from where it was a tick before. */
  ghost predicate StepsAtTick(avatars: map<AgentId, Avatar>, queues: map<AgentId, seq<Step>>, a: AgentId, k: nat) {
    && a in Ticks(avatars, queues, k).0
    && (k > 0 ==> a in Ticks(avatars, queues, k - 1).0
                  && Adjacent(Ticks(avatars, queues, k - 1).0[a].pos, Ticks(avatars, queues, k).0[a].pos))
  }

  lemma PositionAtTick(avatars: map<AgentId, Avatar>, queues: map<AgentId, seq<Step>>, a: AgentId, k: nat)
    requires a in avatars && a in queues && k <= |queues[a]| && queues[a] != []
    ensures a in Ticks(avatars, queues, k).0
    ensures Ticks(avatars, queues, k).0[a].pos == ([avatars[a].pos] + Tiles(queues[a]))[k]
  {
    TicksAlongQueue(avatars, queues, a, k);
  }

  lemma WalksStepByStep(avatars: map<AgentId, Avatar>, queues: map<AgentId, seq<Step>>, a: AgentId, to: Tile, k: nat)
    requires a in avatars && a in queues && k <= |queues[a]| && queues[a] != []
    requires LeadsTo(queues[a], avatars[a].pos, to)
    ensures StepsAtTick(avatars, queues, a, k)
  {
    PositionAtTick(avatars, queues, a, k);
    if k > 0 {
      PositionAtTick(avatars, queues, a, k - 1);
      assert IsStep([avatars[a].pos] + Tiles(queues[a]), k);
    }
  }

  lemma ArrivesOnce(avatars: map<AgentId, Avatar>, queues: map<AgentId, seq<Step>>, a: AgentId, k: nat, e: MoveEvent)
    requires a in avatars && a in queues && k < |queues[a]| && e.agent == a
    ensures ArrivesAtTick(avatars, queues, k, e) <==>
      k == |queues[a]| - 1 && e.room == RoomAfter(avatars[a].room, queues[a])
  {
    var q := queues[a];
    TicksAlongQueue(avatars, queues, a, k);
    if k == |q| - 1 {
      AlongStep(avatars[a], q, |q|);
      assert q[..|q|] == q;
    }
  }

  /** An agent makes its walk in exactly as many ticks as its queue has steps: each tick moves it one
      4-connected tile, only the last one reports completion, and then it stands at the end, in the room last
      entered, without a target. */
  ghost predicate MakesItsWalk(avatars: map<AgentId, Avatar>, queues: map<AgentId, seq<Step>>, a: AgentId, to: Tile)
    requires a in avatars && a in queues
  {
    var n, room := |queues[a]|, RoomAfter(avatars[a].room, queues[a]);
    && (forall k: nat :: k <= n ==> StepsAtTick(avatars, queues, a, k))
    && (forall k: nat, e: MoveEvent :: k < n && e.agent == a ==>
          (ArrivesAtTick(avatars, queues, k, e) <==> k == n - 1 && e.room == room))
    && a in Ticks(avatars, queues, n).0
    && Ticks(avatars, queues, n).0[a] == avatars[a].(pos := to, room := room, target := None)
  }

  lemma QueueIsWalked(avatars: map<AgentId, Avatar>, queues: map<AgentId, seq<Step>>, a: AgentId, to: Tile)
    requires a in avatars && a in queues && queues[a] != []
    requires LeadsTo(queues[a], avatars[a].pos, to)
    ensures MakesItsWalk(avatars, queues, a, to)
  {
    var n := |queues[a]|;
    forall k: nat | k <= n
      ensures StepsAtTick(avatars, queues, a, k)
    {
      WalksStepByStep(avatars, queues, a, to, k);
    }
    forall k: nat, e: MoveEvent | k < n && e.agent == a
      ensures ArrivesAtTick(avatars, queues, k, e) <==> k == n - 1 && e.room == RoomAfter(avatars[a].room, queues[a])
    {
      ArrivesOnce(avatars, queues, a, k, e);
    }
    TicksAlongQueue(avatars, queues, a, n);
    assert queues[a][..n] == queues[a];
  }

  /** An accepted move is made in as many ticks as its queue has steps and ends on the target tile; it ends in the
      target room exactly when the last door's transition was not lost. */
  lemma MoveTakesItsQueue(layout: TownLayout, graph: RoomGraph, agent: AgentId, room: RoomId, target: Tile,
                          avatars0: map<AgentId, Avatar>, queues0: map<AgentId, seq<Step>>,
                          avatars: map<AgentId, Avatar>, queues: map<AgentId, seq<Step>>,
                          wps: seq<Waypoint>, queue: seq<Step>)
    requires PlannedFor(layout, graph, agent, room, target, avatars0, queues0, avatars, queues, wps, queue)
    requires queue != []
    ensures agent in avatars && agent in queues && queues[agent] == queue
    ensures avatars[agent].room == avatars0[agent].room && MakesItsWalk(avatars, queues, agent, target)
    ensures RoomAfter(avatars0[agent].room, queue) == room <==>
      wps == [] || !Lost(layout.RoomBoundsMap(), avatars0[agent].room, avatars0[agent].pos, wps, |wps| - 1)
  {
    QueueIsWalked(avatars, queues, agent, target);
    ArrivalRoom(layout, graph, avatars0[agent].room, avatars0[agent].pos, room, target, wps, queue);
  }

  // ---------------------------------------------------------------- every run of the world loop

  /** The part of the world loop's state that movement reads and writes. The room graph is built once. */
  datatype MoveState = MoveState(avatars: map<AgentId, Avatar>, queues: map<AgentId, seq<Step>>, layout: TownLayout)

  /** The loop commands that touch it. */
  datatype MoveCmd =
    | Tick
    | RequestMove(agent: AgentId, room: RoomId, target: Tile)
    | OperatorMove(target: Tile)
    | OperatorPossess(startup: StartupId)
    | OperatorUnpossess
    | InsertAvatars(minted: map<AgentId, Avatar>, claim: Option<(RoomId, StartupId)>)
    | ReleaseSuite(startup: StartupId)
    | ChangeStatus(agent: AgentId, status: AvatarStatus)

  const OPERATOR_SPAWN := Tile(20, 5)
  const LOBBY: RoomId := "lobby"

  function OperatorAvatar(startup: StartupId): Avatar {
    Avatar(startup, Operator, OPERATOR_SPAWN, None, LOBBY, Idle)
  }

  ghost predicate MoveNext(graph: RoomGraph, s: MoveState, cmd: MoveCmd, s': MoveState) {
    match cmd
    case Tick =>
      s' == s.(avatars := AvatarsStepped(s.avatars, s.queues), queues := QueuesStepped(s.avatars, s.queues))
    case RequestMove(agent, room, target) =>
      && agent != OPERATOR_AVATAR_ID && s'.layout == s.layout
      && MoveRequested(s.layout, graph, agent, room, target, s.avatars, s.queues, s'.avatars, s'.queues)
    case OperatorMove(target) =>
      s' == if OPERATOR_AVATAR_ID !in s.avatars then s
            else s.(avatars := s.avatars[OPERATOR_AVATAR_ID := s.avatars[OPERATOR_AVATAR_ID].(target := Some(target))])
    case OperatorPossess(startup) =>
      s' == s.(avatars := s.avatars[OPERATOR_AVATAR_ID := OperatorAvatar(startup)])
    case OperatorUnpossess =>
      s' == s.(avatars := s.avatars - {OPERATOR_AVATAR_ID})
    case InsertAvatars(minted, claim) =>
      // Ids are newly minted and a provisioned agent stands still.
      && (forall a :: a in minted ==>
            a != OPERATOR_AVATAR_ID && a !in s.avatars && a !in s.queues && minted[a].target == None)
      && s' == MoveState(s.avatars + minted, s.queues,
                         if claim.None? then s.layout else ClaimSuite(s.layout, claim.value.0, claim.value.1))
    case ReleaseSuite(startup) =>
      s' == MoveState(map a | a in s.avatars && s.avatars[a].startup != startup :: s.avatars[a], s.queues,
                      ReleaseSuites(s.layout, startup))
    case ChangeStatus(agent, status) =>
      s' == if agent !in s.avatars then s
            else s.(avatars := s.avatars[agent := s.avatars[agent].(status := status)])
  }

  /** A request with a plan can be accepted, and then its walk is stored. */
  lemma PlanIsAStep(graph: RoomGraph, s: MoveState, agent: AgentId, room: RoomId, target: Tile, wps: seq<Waypoint>,
                    queue: seq<Step>, s': MoveState)
    requires agent != OPERATOR_AVATAR_ID && agent in s.avatars && CanEnter(s.layout, s.avatars[agent].startup, room)
    requires IsPlan(s.layout, graph, s.avatars[agent].room, s.avatars[agent].pos, room, target, wps, queue)
    requires s'.avatars == s.avatars[agent := AvatarStarted(s.avatars[agent], target, queue)]
    requires s'.queues == QueuesStarted(s.queues, agent, queue) && s'.layout == s.layout
    ensures MoveNext(graph, s, RequestMove(agent, room, target), s')
  {
    assert PlannedFor(s.layout, graph, agent, room, target, s.avatars, s.queues, s'.avatars, s'.queues, wps, queue);
  }

  /** Before anyone has moved: no stored walks and no targets. */
  ghost predicate MoveInit(s: MoveState) {
    s.queues == map[] && forall a :: a in s.avatars ==> s.avatars[a].target == None
  }

  ghost predicate IsMoveRun(graph: RoomGraph, trace: seq<MoveState>, cmds: seq<MoveCmd>) {
    && |trace| == |cmds| + 1
    && MoveInit(trace[0])
    && forall i :: 0 <= i < |cmds| ==> RunStep(graph, trace, cmds, i)
  }

  ghost predicate RunStep(graph: RoomGraph, trace: seq<MoveState>, cmds: seq<MoveCmd>, i: nat)
    requires i < |cmds| && |trace| == |cmds| + 1
  {
    MoveNext(graph, trace[i], cmds[i], trace[i + 1])
  }

  /** A stretch of such steps from any state, made only of requested moves and changes of status. */
  ghost predicate IsStretch(graph: RoomGraph, trace: seq<MoveState>, cmds: seq<MoveCmd>) {
    && |trace| == |cmds| + 1
    && forall i :: 0 <= i < |cmds| ==> RunStep(graph, trace, cmds, i) && IsMoveOrStatus(cmds[i])
  }

  predicate IsMoveOrStatus(cmd: MoveCmd) {
    cmd.RequestMove? || cmd.ChangeStatus?
  }

  ghost predicate MovesTo(graph: RoomGraph, s: MoveState, s': MoveState) {
    exists trace, cmds :: IsStretch(graph, trace, cmds) && trace[0] == s && trace[|cmds|] == s'
  }

  lemma MovesToItself(graph: RoomGraph, s: MoveState)
    ensures MovesTo(graph, s, s)
  {
    var trace: seq<MoveState>, cmds: seq<MoveCmd> := [s], [];
    assert IsStretch(graph, trace, cmds) && trace[0] == s && trace[|cmds|] == s;
  }

  lemma SameStep(graph: RoomGraph, trace: seq<MoveState>, cmds: seq<MoveCmd>, i: nat, trace': seq<MoveState>,
                 cmds': seq<MoveCmd>, j: nat)
    requires |trace| == |cmds| + 1 && i < |cmds| && |trace'| == |cmds'| + 1 && j < |cmds'|
    requires trace'[j] == trace[i] && trace'[j + 1] == trace[i + 1] && cmds'[j] == cmds[i]
    ensures RunStep(graph, trace', cmds', j) == RunStep(graph, trace, cmds, i)
  {}

  lemma MovesOneMore(graph: RoomGraph, s: MoveState, t: MoveState, cmd: MoveCmd, s': MoveState)
    requires MovesTo(graph, s, t) && MoveNext(graph, t, cmd, s') && IsMoveOrStatus(cmd)
    ensures MovesTo(graph, s, s')
  {
    var trace, cmds :| IsStretch(graph, trace, cmds) && trace[0] == s && trace[|cmds|] == t;
    var trace', cmds' := trace + [s'], cmds + [cmd];
    forall i | 0 <= i < |cmds'|
      ensures RunStep(graph, trace', cmds', i) && IsMoveOrStatus(cmds'[i])
    {
      if i < |cmds| {
        SameStep(graph, trace, cmds, i, trace', cmds', i);
      }
    }
    assert IsStretch(graph, trace', cmds') && trace'[0] == s && trace'[|cmds'|] == s';
  }

  /** A run followed by such a stretch is a run. */
  lemma RunGoesOn(graph: RoomGraph, trace: seq<MoveState>, cmds: seq<MoveCmd>, s': MoveState)
    returns (trace': seq<MoveState>, cmds': seq<MoveCmd>)
    requires IsMoveRun(graph, trace, cmds) && MovesTo(graph, trace[|cmds|], s')
    ensures IsMoveRun(graph, trace', cmds') && trace <= trace' && cmds <= cmds' && trace'[|cmds'|] == s'
  {
    var more, added :| IsStretch(graph, more, added) && more[0] == trace[|cmds|] && more[|added|] == s';
    trace', cmds' := trace + more[1..], cmds + added;
    forall i | 0 <= i < |cmds'|
      ensures RunStep(graph, trace', cmds', i)
    {
      if i < |cmds| {
        SameStep(graph, trace, cmds, i, trace', cmds', i);
      } else {
        SameStep(graph, more, added, i - |cmds|, trace', cmds', i);
      }
    }
  }

  // ---------------------------------------------------------------- a walk among everything else

  /** How many ticks there are from command `i` up to command `j`. */
  function TicksBetween(cmds: seq<MoveCmd>, i: nat, j: nat): nat
    requires i <= j <= |cmds|
  {
    if i == j then 0 else TicksBetween(cmds, i, j - 1) + (if cmds[j - 1].Tick? then 1 else 0)
  }

  /** The agent is present throughout and none of its requests for a move stores a new walk. */
  ghost predicate IsLeftAlone(trace: seq<MoveState>, cmds: seq<MoveCmd>, a: AgentId, i: nat, j: nat)
    requires |trace| == |cmds| + 1 && j <= |cmds|
  {
    && (forall m: nat :: i <= m <= j ==> IsPresent(trace, a, m))
    && forall m: nat :: i <= m < j ==> IsUnmoved(trace, cmds, a, m)
  }

  predicate IsPresent(trace: seq<MoveState>, a: AgentId, m: nat)
    requires m < |trace|
  {
    a in trace[m].avatars
  }

  ghost predicate IsUnmoved(trace: seq<MoveState>, cmds: seq<MoveCmd>, a: AgentId, m: nat)
    requires |trace| == |cmds| + 1 && m < |cmds|
  {
    cmds[m].RequestMove? && cmds[m].agent == a ==> trace[m + 1].queues == trace[m].queues
  }

  /** The two avatars differ at most in status and target. */
  predicate IsAlike(av: Avatar, other: Avatar) {
    av.(status := other.status, target := other.target) == other
  }

  /** The agent has made `t` steps of its queue; only its status may have been changed by others, and its target by
      itself. */
  ghost predicate OnItsWay(s: MoveState, a: AgentId, av: Avatar, queue: seq<Step>, t: nat)
    requires t <= |queue| && queue != []
  {
    && a in s.avatars && IsAlike(s.avatars[a], Along(av, queue, t))
    && (t == |queue| ==> s.avatars[a].target == None)
    && (if t < |queue| then a in s.queues && s.queues[a] == queue[t..] else a !in s.queues)
  }

  function Min(m: nat, n: nat): nat {
    if m < n then m else n
  }

  lemma TickGoesOn(s: MoveState, s': MoveState, a: AgentId, av: Avatar, queue: seq<Step>, t: nat)
    requires t <= |queue| && queue != [] && OnItsWay(s, a, av, queue, t)
    requires s' == s.(avatars := AvatarsStepped(s.avatars, s.queues), queues := QueuesStepped(s.avatars, s.queues))
    ensures OnItsWay(s', a, av, queue, Min(t + 1, |queue|))
  {
    if t < |queue| {
      AlongStep(av, queue, t + 1);
      assert queue[t..][1..] == queue[t + 1..];
      AlikeGoOn(s.avatars[a], Along(av, queue, t), queue[t..]);
    }
  }

  lemma AlikeGoOn(av: Avatar, other: Avatar, queue: seq<Step>)
    requires IsAlike(av, other)
    ensures IsAlike(AvatarStepped(av, queue), AvatarStepped(other, queue))
  {}

  lemma OthersGoOn(graph: RoomGraph, s: MoveState, cmd: MoveCmd, s': MoveState, a: AgentId, av: Avatar,
                   queue: seq<Step>, t: nat)
    requires t <= |queue| && queue != [] && OnItsWay(s, a, av, queue, t) && a != OPERATOR_AVATAR_ID
    requires MoveNext(graph, s, cmd, s') && !cmd.Tick? && a in s'.avatars
    requires cmd.RequestMove? && cmd.agent == a ==> s'.queues == s.queues
    ensures OnItsWay(s', a, av, queue, t)
  {}

  ghost predicate IsOnItsWayAt(trace: seq<MoveState>, cmds: seq<MoveCmd>, i: nat, j: nat, a: AgentId, av: Avatar,
                               queue: seq<Step>)
    requires |trace| == |cmds| + 1 && i <= j <= |cmds| && queue != []
  {
    OnItsWay(trace[j], a, av, queue, Min(TicksBetween(cmds, i, j), |queue|))
  }

  lemma GoesOn(graph: RoomGraph, trace: seq<MoveState>, cmds: seq<MoveCmd>, i: nat, j: nat, a: AgentId, av: Avatar,
               queue: seq<Step>)
    requires |trace| == |cmds| + 1 && i <= j < |cmds| && queue != [] && a != OPERATOR_AVATAR_ID
    requires MoveNext(graph, trace[j], cmds[j], trace[j + 1]) && IsOnItsWayAt(trace, cmds, i, j, a, av, queue)
    requires IsUnmoved(trace, cmds, a, j) && a in trace[j + 1].avatars
    ensures IsOnItsWayAt(trace, cmds, i, j + 1, a, av, queue)
  {
    var t := Min(TicksBetween(cmds, i, j), |queue|);
    if cmds[j].Tick? {
      TickGoesOn(trace[j], trace[j + 1], a, av, queue, t);
    } else {
      OthersGoOn(graph, trace[j], cmds[j], trace[j + 1], a, av, queue, t);
    }
  }

  /** Whatever else happens in between - other agents' moves, inserted and dissolved startups, changes of status - an
      agent that is left alone makes one step of its queue per tick, and after the last step stays where it is. */
  lemma {:induction false} KeepsGoing(graph: RoomGraph, trace: seq<MoveState>, cmds: seq<MoveCmd>, i: nat, j: nat,
                                      a: AgentId, av: Avatar, queue: seq<Step>)
    requires IsMoveRun(graph, trace, cmds) && i <= j <= |cmds| && queue != [] && a != OPERATOR_AVATAR_ID
    requires IsOnItsWayAt(trace, cmds, i, i, a, av, queue) && IsLeftAlone(trace, cmds, a, i, j)
    ensures IsOnItsWayAt(trace, cmds, i, j, a, av, queue)
    decreases j
  {
    if i < j {
      assert IsUnmoved(trace, cmds, a, j - 1) && IsPresent(trace, a, j) && RunStep(graph, trace, cmds, j - 1);
      KeepsGoing(graph, trace, cmds, i, j - 1, a, av, queue);
      GoesOn(graph, trace, cmds, i, j - 1, a, av, queue);
    }
  }

  /** Command `p` is a request of the agent that is accepted with the given plan. */
  ghost predicate AcceptedAt(graph: RoomGraph, trace: seq<MoveState>, cmds: seq<MoveCmd>, p: nat, a: AgentId,
                             wps: seq<Waypoint>, queue: seq<Step>)
    requires |trace| == |cmds| + 1 && p < |cmds|
  {
    && cmds[p].RequestMove? && cmds[p].agent == a && a != OPERATOR_AVATAR_ID
    && PlannedFor(trace[p].layout, graph, a, cmds[p].room, cmds[p].target, trace[p].avatars, trace[p].queues,
                  trace[p + 1].avatars, trace[p + 1].queues, wps, queue)
  }

  /** The agent stands on the tile, in the room, without a walk or a target. */
  predicate HasArrived(s: MoveState, a: AgentId, tile: Tile, room: RoomId) {
    && a in s.avatars && a !in s.queues
    && s.avatars[a].pos == tile && s.avatars[a].room == room && s.avatars[a].target == None
  }

  /** A tick reports completion for the agent if and only if `now` holds, and then in the given room. */
  ghost predicate ReportsOnly(s: MoveState, a: AgentId, now: bool, room: RoomId) {
    forall e: MoveEvent :: e.agent == a ==> (Completes(s.avatars, s.queues, e) <==> now && e.room == room)
  }

  lemma LastStepReports(s: MoveState, a: AgentId, av: Avatar, queue: seq<Step>, t: nat)
    requires t <= |queue| && queue != [] && OnItsWay(s, a, av, queue, t)
    ensures ReportsOnly(s, a, t == |queue| - 1, RoomAfter(av.room, queue))
  {
    if t == |queue| - 1 {
      AlongStep(av, queue, |queue|);
      AlikeGoOn(s.avatars[a], Along(av, queue, t), queue[t..]);
      assert queue[..|queue|] == queue;
    }
  }

  lemma ArrivedAtEnd(s: MoveState, a: AgentId, av: Avatar, queue: seq<Step>)
    requires queue != [] && OnItsWay(s, a, av, queue, |queue|)
    ensures HasArrived(s, a, LastTile(queue), RoomAfter(av.room, queue))
  {
    assert queue[..|queue|] == queue;
  }

  /** What an accepted request starts the agent with. */
  lemma AcceptedPlan(graph: RoomGraph, trace: seq<MoveState>, cmds: seq<MoveCmd>, p: nat, a: AgentId, start: Avatar,
                     wps: seq<Waypoint>, queue: seq<Step>) returns (av: Avatar)
    requires |trace| == |cmds| + 1 && p < |cmds|
    requires AcceptedAt(graph, trace, cmds, p, a, wps, queue) && queue != []
    requires a in trace[p].avatars && start == trace[p].avatars[a]
    ensures a != OPERATOR_AVATAR_ID && IsOnItsWayAt(trace, cmds, p + 1, p + 1, a, av, queue)
    ensures av.room == start.room && LastTile(queue) == cmds[p].target
    ensures RoomAfter(start.room, queue) == cmds[p].room <==>
              wps == [] || !Lost(trace[p].layout.RoomBoundsMap(), start.room, start.pos, wps, |wps| - 1)
  {
    av := AvatarStarted(start, cmds[p].target, queue);
    assert queue[0..] == queue && queue[..0] == [];
    assert OnItsWay(trace[p + 1], a, av, queue, 0);
    ArrivalRoom(trace[p].layout, graph, start.room, start.pos, cmds[p].room, cmds[p].target, wps, queue);
  }

  /** In state `j` a walk of `n` steps stored in state `i` reports its completion exactly if the next tick is the n-th,
      and from the n-th tick on the agent has arrived. */
  ghost predicate EndsWithTick(trace: seq<MoveState>, cmds: seq<MoveCmd>, a: AgentId, i: nat, j: nat, n: nat,
                               tile: Tile, room: RoomId)
    requires |trace| == |cmds| + 1 && i <= j <= |cmds|
  {
    && ReportsOnly(trace[j], a, TicksBetween(cmds, i, j) == n - 1, room)
    && (TicksBetween(cmds, i, j) >= n ==> HasArrived(trace[j], a, tile, room))
  }

  lemma WalkInAnyRun(graph: RoomGraph, trace: seq<MoveState>, cmds: seq<MoveCmd>, i: nat, j: nat, a: AgentId,
                     av: Avatar, queue: seq<Step>, tile: Tile, room: RoomId)
    requires IsMoveRun(graph, trace, cmds) && i <= j <= |cmds| && queue != [] && a != OPERATOR_AVATAR_ID
    requires IsOnItsWayAt(trace, cmds, i, i, a, av, queue) && IsLeftAlone(trace, cmds, a, i, j)
    requires tile == LastTile(queue) && room == RoomAfter(av.room, queue)
    ensures EndsWithTick(trace, cmds, a, i, j, |queue|, tile, room)
  {
    KeepsGoing(graph, trace, cmds, i, j, a, av, queue);
    var t := Min(TicksBetween(cmds, i, j), |queue|);
    LastStepReports(trace[j], a, av, queue, t);
    if t == |queue| {
      ArrivedAtEnd(trace[j], a, av, queue);
    }
  }

  /** In any run, an accepted move of n steps is completed by exactly the n-th tick after it, and from then on, until it
      sets out again, the agent stands on the target tile without a target; the room is the target room exactly when
      the last door's transition was not lost. */
  lemma MoveInAnyRun(graph: RoomGraph, trace: seq<MoveState>, cmds: seq<MoveCmd>, p: nat, j: nat, a: AgentId,
                     wps: seq<Waypoint>, queue: seq<Step>)
    requires IsMoveRun(graph, trace, cmds) && p < j <= |cmds|
    requires AcceptedAt(graph, trace, cmds, p, a, wps, queue) && queue != []
    requires a in trace[p].avatars
    requires IsLeftAlone(trace, cmds, a, p + 1, j)
    ensures EndsWithTick(trace, cmds, a, p + 1, j, |queue|, cmds[p].target, RoomAfter(trace[p].avatars[a].room, queue))
    ensures RoomAfter(trace[p].avatars[a].room, queue) == cmds[p].room <==>
              wps == []
              || !Lost(trace[p].layout.RoomBoundsMap(), trace[p].avatars[a].room, trace[p].avatars[a].pos, wps,
                       |wps| - 1)
  {
    var start, i := trace[p].avatars[a], p + 1;
    var av := AcceptedPlan(graph, trace, cmds, p, a, start, wps, queue);
    WalkInAnyRun(graph, trace, cmds, i, j, a, av, queue, cmds[p].target, RoomAfter(start.room, queue));
  }

  /** A request for the room and the tile that the agent has just come to, inside its bounds, is accepted whenever the
      room may be entered. It takes the target away and nothing else: an older walk goes on, as in every other run. */
  lemma RequestForOwnTile(graph: RoomGraph, s: MoveState, a: AgentId, s': MoveState)
    requires a in s.avatars && s.avatars[a].room in s.layout.RoomBoundsMap()
    requires InBounds(s.layout.RoomBoundsMap()[s.avatars[a].room], s.avatars[a].pos)
    requires CanEnter(s.layout, s.avatars[a].startup, s.avatars[a].room)
    requires MoveNext(graph, s, RequestMove(a, s.avatars[a].room, s.avatars[a].pos), s')
    ensures s' == s.(avatars := s.avatars[a := s.avatars[a].(target := None)])
  {
    var av := s.avatars[a];
    assert IsChain(graph, av.room, [], av.room);
    var wps, queue :| PlannedFor(s.layout, graph, a, av.room, av.pos, s.avatars, s.queues, s'.avatars, s'.queues, wps,
                                 queue);
    assert wps == [];
    StepsAreDetermined(s.layout.RoomBoundsMap(), av.room, av.pos, wps, av.pos, |queue|, |queue|);
  }

  // ---------------------------------------------------------------- targets are backed by walks

  /** A stored queue is a non-empty 4-connected walk from where its avatar stands, and the target of an agent is
      where its queue ends. */
  ghost predicate WalkStored(s: MoveState, a: AgentId)
    requires a in s.queues
  {
    && s.queues[a] != []
    && (a in s.avatars ==> LeadsTo(s.queues[a], s.avatars[a].pos, LastTile(s.queues[a])))
  }

  function LastTile(queue: seq<Step>): Tile
    requires queue != []
  {
    queue[|queue| - 1].tile
  }

  ghost predicate TargetBacked(s: MoveState, a: AgentId)
    requires a in s.avatars
  {
    s.avatars[a].target.Some? ==>
      a in s.queues && s.queues[a] != [] && LastTile(s.queues[a]) == s.avatars[a].target.value
  }

  ghost predicate WalksBacked(s: MoveState) {
    && OPERATOR_AVATAR_ID !in s.queues
    && (forall a :: a in s.queues ==> WalkStored(s, a))
    && forall a :: a in s.avatars && a != OPERATOR_AVATAR_ID ==> TargetBacked(s, a)
  }

  lemma LeadsToTail(queue: seq<Step>, from: Tile, to: Tile)
    requires LeadsTo(queue, from, to) && |queue| > 1
    ensures LeadsTo(queue[1..], queue[0].tile, to)
  {
    WalkSuffix([from] + Tiles(queue), 1);
    assert ([from] + Tiles(queue))[1..] == [queue[0].tile] + Tiles(queue[1..]);
  }

  lemma TickKeepsWalksBacked(s: MoveState, s': MoveState)
    requires WalksBacked(s)
    requires s' == s.(avatars := AvatarsStepped(s.avatars, s.queues), queues := QueuesStepped(s.avatars, s.queues))
    ensures WalksBacked(s')
  {
    forall a | a in s'.queues
      ensures WalkStored(s', a)
    {
      assert WalkStored(s, a);
      LeadsToTail(s.queues[a], s.avatars[a].pos, LastTile(s.queues[a]));
    }
    forall a | a in s'.avatars && a != OPERATOR_AVATAR_ID
      ensures TargetBacked(s', a)
    {
      assert TargetBacked(s, a);
      if a in s.queues && |s.queues[a]| > 1 {
        assert LastTile(s.queues[a][1..]) == LastTile(s.queues[a]);
      }
    }
  }

  lemma StoringKeepsWalksBacked(s: MoveState, agent: AgentId, target: Tile, s': MoveState, queue: seq<Step>)
    requires WalksBacked(s) && agent != OPERATOR_AVATAR_ID && agent in s.avatars
    requires LeadsTo(queue, s.avatars[agent].pos, target)
    requires s'.avatars == s.avatars[agent := AvatarStarted(s.avatars[agent], target, queue)]
    requires s'.queues == QueuesStarted(s.queues, agent, queue)
    ensures WalksBacked(s')
  {
    forall a | a in s'.queues
      ensures WalkStored(s', a)
    {
      assert a in s.queues ==> WalkStored(s, a);
    }
    forall a | a in s'.avatars && a != OPERATOR_AVATAR_ID
      ensures TargetBacked(s', a)
    {
      assert TargetBacked(s, a);
    }
  }

  lemma PlanKeepsWalksBacked(graph: RoomGraph, s: MoveState, agent: AgentId, room: RoomId, target: Tile, s': MoveState,
                             wps: seq<Waypoint>, queue: seq<Step>)
    requires WalksBacked(s) && agent != OPERATOR_AVATAR_ID
    requires PlannedFor(s.layout, graph, agent, room, target, s.avatars, s.queues, s'.avatars, s'.queues, wps, queue)
    ensures WalksBacked(s')
  {
    StoringKeepsWalksBacked(s, agent, target, s', queue);
  }

  lemma WalksBackedPreserved(graph: RoomGraph, s: MoveState, cmd: MoveCmd, s': MoveState)
    requires WalksBacked(s) && MoveNext(graph, s, cmd, s')
    ensures WalksBacked(s')
  {
    match cmd
    case Tick =>
      TickKeepsWalksBacked(s, s');
    case RequestMove(agent, room, target) =>
      if s' != s {
        var wps, queue :|
          PlannedFor(s.layout, graph, agent, room, target, s.avatars, s.queues, s'.avatars, s'.queues, wps, queue);
        PlanKeepsWalksBacked(graph, s, agent, room, target, s', wps, queue);
      }
    case _ =>
      forall a | a in s'.queues
        ensures WalkStored(s', a)
      {
        assert WalkStored(s, a);
      }
      forall a | a in s'.avatars && a != OPERATOR_AVATAR_ID
        ensures TargetBacked(s', a)
      {
        assert a in s.avatars ==> TargetBacked(s, a);
      }
  }

  /** In every reachable state an agent's target is backed by a stored walk that leads there, tile by tile, from where
      the agent stands. */
  lemma {:induction false} ReachableWalksAreBacked(graph: RoomGraph, trace: seq<MoveState>, cmds: seq<MoveCmd>, i: nat)
    requires IsMoveRun(graph, trace, cmds) && i < |trace|
    ensures WalksBacked(trace[i])
  {
    if i > 0 {
      ReachableWalksAreBacked(graph, trace, cmds, i - 1);
      assert RunStep(graph, trace, cmds, i - 1);
      WalksBackedPreserved(graph, trace[i - 1], cmds[i - 1], trace[i]);
    }
  }

  // ---------------------------------------------------------------- avatars outside their room

  /** The avatar is not walking and stands outside the bounds of the room it is recorded in. */
  ghost predicate Stranded(s: MoveState, a: AgentId) {
    && a in s.avatars && a !in s.queues
    && var bounds := s.layout.RoomBoundsMap();
       s.avatars[a].room in bounds ==> !InBounds(bounds[s.avatars[a].room], s.avatars[a].pos)
  }

  lemma PlansStartInside(layout: TownLayout, graph: RoomGraph, agent: AgentId, room: RoomId, target: Tile,
                         avatars: map<AgentId, Avatar>, queues: map<AgentId, seq<Step>>,
                         avatars': map<AgentId, Avatar>, queues': map<AgentId, seq<Step>>,
                         wps: seq<Waypoint>, queue: seq<Step>)
    requires PlannedFor(layout, graph, agent, room, target, avatars, queues, avatars', queues', wps, queue)
    ensures var bounds := layout.RoomBoundsMap();
            avatars[agent].room in bounds && InBounds(bounds[avatars[agent].room], avatars[agent].pos)
  {}

  lemma StrandedPreserved(graph: RoomGraph, s: MoveState, cmd: MoveCmd, s': MoveState, a: AgentId)
    requires MoveNext(graph, s, cmd, s') && Stranded(s, a) && a in s'.avatars && a != OPERATOR_AVATAR_ID
    ensures Stranded(s', a)
    ensures s'.avatars[a].pos == s.avatars[a].pos && s'.avatars[a].room == s.avatars[a].room
  {
    match cmd
    case InsertAvatars(_, claim) =>
      if claim.Some? {
        OwnershipKeepsBounds(s.layout, claim.value.0, claim.value.1);
      }
    case ReleaseSuite(owner) =>
      OwnershipKeepsBounds(s.layout, "", owner);
    case RequestMove(agent, room, target) =>
      if wps, queue :|
           PlannedFor(s.layout, graph, agent, room, target, s.avatars, s.queues, s'.avatars, s'.queues, wps, queue) {
        PlansStartInside(s.layout, graph, agent, room, target, s.avatars, s.queues, s'.avatars, s'.queues, wps, queue);
      }
    case _ =>
  }

  /** A stranded agent never moves again: every route starts inside the recorded room, so every request is refused. */
  lemma {:induction false} StrandedForever(graph: RoomGraph, trace: seq<MoveState>, cmds: seq<MoveCmd>, i: nat, j: nat,
                                           a: AgentId)
    requires IsMoveRun(graph, trace, cmds) && i <= j < |trace|
    requires Stranded(trace[i], a) && a != OPERATOR_AVATAR_ID
    requires forall k :: i <= k <= j ==> a in trace[k].avatars
    ensures Stranded(trace[j], a)
    ensures trace[j].avatars[a].pos == trace[i].avatars[a].pos && trace[j].avatars[a].room == trace[i].avatars[a].room
    decreases j
  {
    if i < j {
      StrandedForever(graph, trace, cmds, i, j - 1, a);
      assert RunStep(graph, trace, cmds, j - 1);
      StrandedPreserved(graph, trace[j - 1], cmds[j - 1], trace[j], a);
    }
  }
}
