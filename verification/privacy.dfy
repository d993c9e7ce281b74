/** Private rooms: only the target of a move is checked, which keeps walks out of rooms private to somebody else exactly
    in towns that bypass them; and rooms that are claimed while an agent is on its way. */
module Privacy {
  import opened Wrappers
  import opened Path
  import opened State
  import opened Seed
  import opened MoveSys
  import opened Movement

  /** The graph was built from the layout's doors. */
  ghost predicate IsGraphOf(layout: TownLayout, graph: RoomGraph) {
    forall r :: LinksAreDoors(layout, graph, r)
  }

  ghost predicate LinksAreDoors(layout: TownLayout, graph: RoomGraph, r: RoomId) {
    graph.Links(r) == DoorLinks(layout.doors, r)
  }

  predicate IsPrivate(layout: TownLayout, id: RoomId) {
    layout.Room(id).Some? && layout.Room(id).value.privateTo.Some?
  }

  /** The room is private to another startup. */
  predicate IsForeign(layout: TownLayout, startup: StartupId, id: RoomId) {
    layout.Room(id).Some? && layout.Room(id).value.privateTo.Some? && layout.Room(id).value.privateTo.value != startup
  }

  /** Doors can be used from both sides. */
  lemma LinkBack(layout: TownLayout, graph: RoomGraph, a: RoomId, w: Waypoint)
    requires IsGraphOf(layout, graph) && w in graph.Links(a)
    ensures Waypoint(a, w.door) in graph.Links(w.room)
  {
    assert LinksAreDoors(layout, graph, a) && LinksAreDoors(layout, graph, w.room);
    DoorLinksMember(layout.doors, a, w);
    var d :| d in layout.doors && Leads(d, a, w);
    DoorLinksMember(layout.doors, w.room, Waypoint(a, w.door));
    assert Leads(d, w.room, Waypoint(a, w.door));
  }

  // ---------------------------------------------------------------- the condition on the layout

  /** Wherever a room private to another startup lies between two rooms, of which the second may be entered, these are
      linked directly. */
  ghost predicate IsBypassed(layout: TownLayout, graph: RoomGraph, startup: StartupId) {
    forall p, l, m ::
      (IsForeign(layout, startup, p) && l in graph.Links(p) && m in graph.Links(p)
       && !IsForeign(layout, startup, m.room) && l.room != m.room)
      ==> Linked(graph, l.room, m.room)
  }

  /** The same for every private room, whoever owns it. Private rooms with a single neighbour are a special case. */
  ghost predicate PrivateRoomsAreBypassed(layout: TownLayout, graph: RoomGraph) {
    forall p, l, m :: IsPrivate(layout, p) && l in graph.Links(p) && m in graph.Links(p) && l.room != m.room ==>
      Linked(graph, l.room, m.room)
  }

  /** The chain with waypoints `i` and `i + 1` replaced by `w`. */
  function Shortened(wps: seq<Waypoint>, i: nat, w: Waypoint): seq<Waypoint>
    requires i + 2 <= |wps|
  {
    wps[..i] + [w] + wps[i + 2..]
  }

  lemma ShortenedRoom(from: RoomId, wps: seq<Waypoint>, i: nat, w: Waypoint, k: nat)
    requires i + 2 <= |wps| && w.room == RoomAt(from, wps, i + 2) && k < |wps|
    ensures RoomAt(from, Shortened(wps, i, w), k) == RoomAt(from, wps, if k <= i then k else k + 1)
  {}

  lemma ShortenedIsChain(graph: RoomGraph, from: RoomId, to: RoomId, wps: seq<Waypoint>, i: nat, w: Waypoint)
    requires IsChain(graph, from, wps, to) && i + 2 <= |wps|
    requires w in graph.Links(RoomAt(from, wps, i)) && w.room == RoomAt(from, wps, i + 2)
    ensures IsChain(graph, from, Shortened(wps, i, w), to)
  {
    var short := Shortened(wps, i, w);
    ShortenedRoom(from, wps, i, w, |short|);
    forall k | 0 <= k < |short|
      ensures IsLinkAt(graph, from, short, k)
    {
      ShortenedRoom(from, wps, i, w, k);
      assert k != i ==> IsLinkAt(graph, from, wps, if k < i then k else k + 1);
    }
  }

  /** A shortest chain never passes through a room between two rooms that are linked directly. */
  lemma NoShortcut(graph: RoomGraph, from: RoomId, to: RoomId, wps: seq<Waypoint>, i: nat, j: nat)
    requires IsShortestChain(graph, from, wps, to) && j == i + 2 <= |wps|
    ensures !Linked(graph, RoomAt(from, wps, i), RoomAt(from, wps, j))
  {
    if w :| w in graph.Links(RoomAt(from, wps, i)) && w.room == RoomAt(from, wps, j) {
      ShortenedIsChain(graph, from, to, wps, i, w);
    }
  }

  lemma OneDoorLinks(graph: RoomGraph, a: RoomId, wps: seq<Waypoint>, b: RoomId)
    requires IsChain(graph, a, wps, b) && |wps| == 1
    ensures Linked(graph, a, b)
  {
    assert IsLinkAt(graph, a, wps, 0);
  }

  /** If two neighbours of a room are not linked directly, the way through that room is shortest. */
  lemma DetourIsShortest(layout: TownLayout, graph: RoomGraph, p: RoomId, l: Waypoint, m: Waypoint)
    requires IsGraphOf(layout, graph) && l in graph.Links(p) && m in graph.Links(p)
    requires l.room != m.room && !Linked(graph, l.room, m.room)
    ensures IsShortestChain(graph, l.room, [Waypoint(p, l.door), m], m.room)
  {
    LinkBack(layout, graph, p, l);
    var wps := [Waypoint(p, l.door), m];
    forall k | 0 <= k < |wps|
      ensures IsLinkAt(graph, l.room, wps, k)
    {}
    forall other | IsChain(graph, l.room, other, m.room)
      ensures 2 <= |other|
    {
      if |other| == 1 {
        OneDoorLinks(graph, l.room, other, m.room);
      }
    }
  }

  lemma PrivateImpliesBypassed(layout: TownLayout, graph: RoomGraph, startup: StartupId)
    requires PrivateRoomsAreBypassed(layout, graph)
    ensures IsBypassed(layout, graph, startup)
  {}

  /** The rooms on a chain before and after an interior one, as links of that room. */
  lemma LinksAround(layout: TownLayout, graph: RoomGraph, from: RoomId, to: RoomId, wps: seq<Waypoint>, k: nat)
    requires IsGraphOf(layout, graph) && IsChain(graph, from, wps, to) && 0 < k < |wps|
    ensures Waypoint(RoomAt(from, wps, k - 1), wps[k - 1].door) in graph.Links(RoomAt(from, wps, k))
    ensures wps[k] in graph.Links(RoomAt(from, wps, k))
  {
    assert IsLinkAt(graph, from, wps, k) && IsLinkAt(graph, from, wps, k - 1);
    LinkBack(layout, graph, RoomAt(from, wps, k - 1), wps[k - 1]);
  }

  /** An interior room of a shortest chain is not private where private rooms are bypassed. */
  lemma InteriorIsCommon(layout: TownLayout, graph: RoomGraph, from: RoomId, to: RoomId, wps: seq<Waypoint>, k: nat)
    requires IsGraphOf(layout, graph) && PrivateRoomsAreBypassed(layout, graph)
    requires IsShortestChain(graph, from, wps, to) && 0 < k < |wps|
    ensures !IsPrivate(layout, RoomAt(from, wps, k))
  {
    LinksAround(layout, graph, from, to, wps, k);
    NeighboursDiffer(graph, from, to, wps, k, RoomAt(from, wps, k - 1), wps[k].room);
  }

  /** The way through a room that is neither skipped nor followed by a foreign one cannot be foreign itself. */
  lemma RoomIsNotForeign(layout: TownLayout, graph: RoomGraph, startup: StartupId, p: RoomId, l: Waypoint, m: Waypoint)
    requires IsBypassed(layout, graph, startup) && l in graph.Links(p) && m in graph.Links(p)
    requires l.room != m.room && !Linked(graph, l.room, m.room) && !IsForeign(layout, startup, m.room)
    ensures !IsForeign(layout, startup, p)
  {}

  lemma NeighboursDiffer(graph: RoomGraph, from: RoomId, to: RoomId, wps: seq<Waypoint>, k: nat, a: RoomId, b: RoomId)
    requires IsShortestChain(graph, from, wps, to) && 0 < k < |wps|
    requires a == RoomAt(from, wps, k - 1) && b == RoomAt(from, wps, k + 1)
    ensures a != b && !Linked(graph, a, b)
  {
    ShortestChainIsSimple(graph, from, wps, to, k - 1, k + 1);
    NoShortcut(graph, from, to, wps, k - 1, k + 1);
  }

  /** A room of a shortest chain, after its start, is not private to another startup where such rooms are bypassed. */
  lemma {:induction false} ChainKeepsOut(layout: TownLayout, graph: RoomGraph, startup: StartupId, from: RoomId,
                                         to: RoomId, wps: seq<Waypoint>, k: nat)
    requires IsGraphOf(layout, graph) && IsBypassed(layout, graph, startup)
    requires IsShortestChain(graph, from, wps, to) && !IsForeign(layout, startup, to) && 0 < k <= |wps|
    ensures !IsForeign(layout, startup, RoomAt(from, wps, k))
    decreases |wps| - k
  {
    if k < |wps| {
      var l := Waypoint(RoomAt(from, wps, k - 1), wps[k - 1].door);
      ChainKeepsOut(layout, graph, startup, from, to, wps, k + 1);
      LinksAround(layout, graph, from, to, wps, k);
      NeighboursDiffer(graph, from, to, wps, k, l.room, wps[k].room);
      RoomIsNotForeign(layout, graph, startup, RoomAt(from, wps, k), l, wps[k]);
    }
  }

  ghost predicate KeepsOutOfForeign(layout: TownLayout, startup: StartupId, from: RoomId, wps: seq<Waypoint>) {
    forall k :: 0 < k < |wps| ==> !IsForeign(layout, startup, RoomAt(from, wps, k))
  }

  ghost predicate KeepsOutOfPrivate(layout: TownLayout, from: RoomId, wps: seq<Waypoint>) {
    forall k :: 0 < k < |wps| ==> !IsPrivate(layout, RoomAt(from, wps, k))
  }

  /** No shortest chain to a room that may be entered passes through another startup's private room exactly when those
      rooms are bypassed. */
  lemma BypassedExactly(layout: TownLayout, graph: RoomGraph, startup: StartupId)
    requires IsGraphOf(layout, graph)
    ensures IsBypassed(layout, graph, startup) <==>
      forall from, to, wps :: IsShortestChain(graph, from, wps, to) && !IsForeign(layout, startup, to) ==>
        KeepsOutOfForeign(layout, startup, from, wps)
  {
    if IsBypassed(layout, graph, startup) {
      forall from, to, wps, k |
        IsShortestChain(graph, from, wps, to) && !IsForeign(layout, startup, to) && 0 < k < |wps|
        ensures !IsForeign(layout, startup, RoomAt(from, wps, k))
      {
        ChainKeepsOut(layout, graph, startup, from, to, wps, k);
      }
    } else {
      var p, l, m :| IsForeign(layout, startup, p) && l in graph.Links(p) && m in graph.Links(p)
        && !IsForeign(layout, startup, m.room) && l.room != m.room && !Linked(graph, l.room, m.room);
      DetourIsShortest(layout, graph, p, l, m);
      var wps := [Waypoint(p, l.door), m];
      assert RoomAt(l.room, wps, 1) == p;
      assert !KeepsOutOfForeign(layout, startup, l.room, wps);
    }
  }

  /** No shortest chain at all passes through a private room exactly when private rooms are bypassed. */
  lemma PrivateBypassedExactly(layout: TownLayout, graph: RoomGraph)
    requires IsGraphOf(layout, graph)
    ensures PrivateRoomsAreBypassed(layout, graph) <==>
      forall from, to, wps :: IsShortestChain(graph, from, wps, to) ==> KeepsOutOfPrivate(layout, from, wps)
  {
    if PrivateRoomsAreBypassed(layout, graph) {
      forall from, to, wps, k | IsShortestChain(graph, from, wps, to) && 0 < k < |wps|
        ensures !IsPrivate(layout, RoomAt(from, wps, k))
      {
        InteriorIsCommon(layout, graph, from, to, wps, k);
      }
    } else {
      var p, l, m :| IsPrivate(layout, p) && l in graph.Links(p) && m in graph.Links(p) && l.room != m.room
        && !Linked(graph, l.room, m.room);
      DetourIsShortest(layout, graph, p, l, m);
      var wps := [Waypoint(p, l.door), m];
      assert RoomAt(l.room, wps, 1) == p;
      assert !KeepsOutOfPrivate(layout, l.room, wps);
    }
  }

  // ---------------------------------------------------------------- whole walks

  /** Every room a startup's queue enters is open to it. */
  ghost predicate EntriesAllowed(layout: TownLayout, startup: StartupId, queue: seq<Step>) {
    forall r :: r in Crossings(queue) ==> CanEnter(layout, startup, r)
  }

  lemma {:induction false} SurvivorIsWaypoint(bounds: map<RoomId, Bounds>, from: RoomId, fromTile: Tile,
                                              wps: seq<Waypoint>, n: nat, r: RoomId) returns (k: nat)
    requires n <= |wps| && r in Survivors(bounds, from, fromTile, wps, n)
    ensures 0 < k <= n && r == RoomAt(from, wps, k) && !Lost(bounds, from, fromTile, wps, k - 1)
  {
    if !Lost(bounds, from, fromTile, wps, n - 1) && r == wps[n - 1].room {
      k := n;
    } else {
      k := SurvivorIsWaypoint(bounds, from, fromTile, wps, n - 1, r);
    }
  }

  lemma {:induction false} WaypointSurvives(bounds: map<RoomId, Bounds>, from: RoomId, fromTile: Tile,
                                            wps: seq<Waypoint>, n: nat, k: nat)
    requires 0 < k <= n <= |wps| && !Lost(bounds, from, fromTile, wps, k - 1)
    ensures RoomAt(from, wps, k) in Survivors(bounds, from, fromTile, wps, n)
  {
    if k < n {
      WaypointSurvives(bounds, from, fromTile, wps, n - 1, k);
    }
  }

  /** In any town, a walk keeps to rooms open to the startup exactly when every room of its chain whose transition
      fires is open to it: the check of the target says nothing about the rooms in between. */
  lemma WalkAllowedExactly(layout: TownLayout, graph: RoomGraph, startup: StartupId, from: RoomId, fromTile: Tile,
                           to: RoomId, toTile: Tile, wps: seq<Waypoint>, queue: seq<Step>)
    requires IsPlan(layout, graph, from, fromTile, to, toTile, wps, queue)
    ensures EntriesAllowed(layout, startup, queue) <==>
      forall k :: 0 < k <= |wps| && !Lost(layout.RoomBoundsMap(), from, fromTile, wps, k - 1) ==>
        CanEnter(layout, startup, RoomAt(from, wps, k))
  {
    var bounds := layout.RoomBoundsMap();
    forall k | 0 < k <= |wps| && !Lost(bounds, from, fromTile, wps, k - 1)
      ensures RoomAt(from, wps, k) in Crossings(queue)
    {
      WaypointSurvives(bounds, from, fromTile, wps, |wps|, k);
    }
    forall r | r in Crossings(queue)
      ensures exists k :: 0 < k <= |wps| && !Lost(bounds, from, fromTile, wps, k - 1) && r == RoomAt(from, wps, k)
    {
      var k := SurvivorIsWaypoint(bounds, from, fromTile, wps, |wps|, r);
    }
  }

  /** Where other startups' rooms are bypassed, checking the target alone is enough for the whole walk. */
  lemma PlannedEntriesAllowed(layout: TownLayout, graph: RoomGraph, startup: StartupId, from: RoomId, fromTile: Tile,
                              to: RoomId, toTile: Tile, wps: seq<Waypoint>, queue: seq<Step>)
    requires IsGraphOf(layout, graph) && IsBypassed(layout, graph, startup)
    requires IsPlan(layout, graph, from, fromTile, to, toTile, wps, queue) && CanEnter(layout, startup, to)
    ensures EntriesAllowed(layout, startup, queue)
  {
    forall r | r in Crossings(queue)
      ensures CanEnter(layout, startup, r)
    {
      var k := SurvivorIsWaypoint(layout.RoomBoundsMap(), from, fromTile, wps, |wps|, r);
      ChainKeepsOut(layout, graph, startup, from, to, wps, k);
      BoundedIffFound(layout.rooms, r);
    }
  }

  /** Every linked room has bounds and more than one tile, and its doors can be bridged. */
  ghost predicate IsWellBuilt(layout: TownLayout, graph: RoomGraph) {
    forall r, w :: w in graph.Links(r) ==> IsWellBuiltDoor(layout.RoomBoundsMap(), r, w)
  }

  ghost predicate IsWellBuiltDoor(bounds: map<RoomId, Bounds>, r: RoomId, w: Waypoint) {
    && r in bounds && AdjacentInside(bounds[r], w.door).Some?
    && bounds[r].w > 0 && bounds[r].h > 0 && bounds[r].w + bounds[r].h > 2
  }

  lemma TileAwayFrom(b: Bounds, door: Tile) returns (t: Tile)
    requires b.w > 0 && b.h > 0 && b.w + b.h > 2
    ensures InBounds(b, t) && t != door
  {
    t := if Tile(b.x, b.y) != door then Tile(b.x, b.y) else if b.w > 1 then Tile(b.x + 1, b.y) else Tile(b.x, b.y + 1);
  }

  /** A foreign room that is not bypassed is entered by some walk whose target is allowed. */
  lemma ForeignWalkExists(layout: TownLayout, graph: RoomGraph, startup: StartupId, p: RoomId, l: Waypoint, m: Waypoint)
    returns (fromTile: Tile, toTile: Tile, wps: seq<Waypoint>, queue: seq<Step>)
    requires IsGraphOf(layout, graph) && IsWellBuilt(layout, graph)
    requires l in graph.Links(p) && m in graph.Links(p) && l.room != m.room && !Linked(graph, l.room, m.room)
    requires !IsForeign(layout, startup, m.room)
    ensures CanEnter(layout, startup, m.room) && IsPlan(layout, graph, l.room, fromTile, m.room, toTile, wps, queue)
    ensures p in Crossings(queue)
  {
    var bounds := layout.RoomBoundsMap();
    LinkBack(layout, graph, p, l);
    LinkBack(layout, graph, p, m);
    assert IsWellBuiltDoor(bounds, p, l) && IsWellBuiltDoor(bounds, p, m);
    assert IsWellBuiltDoor(bounds, l.room, Waypoint(p, l.door)) && IsWellBuiltDoor(bounds, m.room, Waypoint(p, m.door));
    fromTile := TileAwayFrom(bounds[l.room], l.door);
    toTile := TileAwayFrom(bounds[m.room], m.door);
    wps := [Waypoint(p, l.door), m];
    DetourIsShortest(layout, graph, p, l, m);
    DetourIsBridged(bounds, p, l, m, fromTile, toTile);
    queue := PlanExists(layout, graph, l.room, fromTile, m.room, toTile, wps);
    WaypointSurvives(bounds, l.room, fromTile, wps, 2, 1);
    BoundedIffFound(layout.rooms, m.room);
  }

  lemma DetourIsBridged(bounds: map<RoomId, Bounds>, p: RoomId, l: Waypoint, m: Waypoint, fromTile: Tile, toTile: Tile)
    requires IsWellBuiltDoor(bounds, p, l) && IsWellBuiltDoor(bounds, p, m)
    requires IsWellBuiltDoor(bounds, l.room, Waypoint(p, l.door))
    requires IsWellBuiltDoor(bounds, m.room, Waypoint(p, m.door))
    requires InBounds(bounds[l.room], fromTile) && InBounds(bounds[m.room], toTile)
    ensures Bridged(bounds, l.room, fromTile, [Waypoint(p, l.door), m], toTile)
  {
    var wps := [Waypoint(p, l.door), m];
    assert RoomAt(l.room, wps, 0) == l.room && RoomAt(l.room, wps, 1) == p && RoomAt(l.room, wps, 2) == m.room;
    forall k | 0 <= k < |wps|
      ensures DoorBridged(bounds, l.room, wps, k)
    {
      assert k == 0 || k == 1;
    }
  }

  /** Every walk to an allowed target keeps to allowed rooms. */
  ghost predicate TargetCheckSuffices(layout: TownLayout, graph: RoomGraph, startup: StartupId) {
    forall from, fromTile, to, toTile, wps, queue ::
      IsPlan(layout, graph, from, fromTile, to, toTile, wps, queue) && CanEnter(layout, startup, to) ==>
        EntriesAllowed(layout, startup, queue)
  }

  /** In a well-built town, checking only the target keeps every walk out of other startups' private rooms exactly when
      those rooms are bypassed. */
  lemma TargetCheckSufficesExactly(layout: TownLayout, graph: RoomGraph, startup: StartupId)
    requires IsGraphOf(layout, graph) && IsWellBuilt(layout, graph)
    ensures TargetCheckSuffices(layout, graph, startup) <==> IsBypassed(layout, graph, startup)
  {
    if IsBypassed(layout, graph, startup) {
      forall from, fromTile, to, toTile, wps, queue |
        IsPlan(layout, graph, from, fromTile, to, toTile, wps, queue) && CanEnter(layout, startup, to)
        ensures EntriesAllowed(layout, startup, queue)
      {
        PlannedEntriesAllowed(layout, graph, startup, from, fromTile, to, toTile, wps, queue);
      }
    } else {
      var p, l, m :| IsForeign(layout, startup, p) && l in graph.Links(p) && m in graph.Links(p)
        && !IsForeign(layout, startup, m.room) && l.room != m.room && !Linked(graph, l.room, m.room);
      var fromTile, toTile, wps, queue := ForeignWalkExists(layout, graph, startup, p, l, m);
      assert !EntriesAllowed(layout, startup, queue);
    }
  }

  // ---------------------------------------------------------------- every run

  lemma DoorsStay(graph: RoomGraph, trace: seq<MoveState>, cmds: seq<MoveCmd>, i: nat)
    requires IsMoveRun(graph, trace, cmds) && i < |trace| && IsGraphOf(trace[0].layout, graph)
    ensures IsGraphOf(trace[i].layout, graph)
  {
    if i > 0 {
      DoorsStay(graph, trace, cmds, i - 1);
      assert RunStep(graph, trace, cmds, i - 1);
      forall r
        ensures LinksAreDoors(trace[i].layout, graph, r)
      {
        assert LinksAreDoors(trace[i - 1].layout, graph, r);
      }
    }
  }

  lemma CrossingsTail(queue: seq<Step>)
    requires queue != []
    ensures Crossings(queue) == Entered(queue[0]) + Crossings(queue[1..])
  {
    assert queue == [queue[0]] + queue[1..];
    CrossingsConcat([queue[0]], queue[1..]);
  }

  /** Command `p` is a request of the agent that changes its stored walk. */
  ghost predicate IsPlannedAt(trace: seq<MoveState>, cmds: seq<MoveCmd>, p: nat, a: AgentId) {
    && |trace| == |cmds| + 1 && p < |cmds|
    && cmds[p].RequestMove? && cmds[p].agent == a && trace[p + 1].queues != trace[p].queues
  }

  /** The last command before `i` that stored a walk for the agent. */
  ghost predicate IsLastPlan(trace: seq<MoveState>, cmds: seq<MoveCmd>, i: nat, a: AgentId, p: nat) {
    && p < i && IsPlannedAt(trace, cmds, p, a)
    && forall k: nat :: p < k < i ==> !IsPlannedAt(trace, cmds, k, a)
  }

  /** The stored walk of an agent comes from command `p` and enters only rooms that were open then. */
  ghost predicate HasOrigin(trace: seq<MoveState>, cmds: seq<MoveCmd>, i: nat, a: AgentId, p: nat)
    requires i < |trace| && a in trace[i].avatars && a in trace[i].queues
  {
    && IsLastPlan(trace, cmds, i, a, p) && p < |trace|
    && EntriesAllowed(trace[p].layout, trace[i].avatars[a].startup, trace[i].queues[a])
  }

  /** A walk just planned enters only rooms that exist and are open. */
  lemma NewWalkHasOrigin(graph: RoomGraph, trace: seq<MoveState>, cmds: seq<MoveCmd>, p: nat, i: nat, a: AgentId,
                         wps: seq<Waypoint>, queue: seq<Step>)
    requires |trace| == |cmds| + 1 && i == p + 1 && p < |cmds| && IsLastPlan(trace, cmds, i, a, p)
    requires AcceptedAt(graph, trace, cmds, p, a, wps, queue) && queue != []
    requires IsGraphOf(trace[p].layout, graph) && a in trace[p].avatars
    requires IsBypassed(trace[p].layout, graph, trace[p].avatars[a].startup)
    ensures a in trace[i].avatars && a in trace[i].queues && HasOrigin(trace, cmds, i, a, p)
  {
    var av := trace[p].avatars[a];
    PlannedEntriesAllowed(trace[p].layout, graph, av.startup, av.room, av.pos, cmds[p].room, cmds[p].target, wps,
                          queue);
  }

  /** The second queue enters no room that the first does not enter. */
  ghost predicate EntersNoMore(queue: seq<Step>, queue': seq<Step>) {
    forall r :: r in Crossings(queue') ==> r in Crossings(queue)
  }

  /** What one command does to a stored walk, unless it stores a new one. */
  lemma WalkShrinks(graph: RoomGraph, s: MoveState, cmd: MoveCmd, s': MoveState, a: AgentId)
    requires WalksBacked(s) && MoveNext(graph, s, cmd, s') && a in s'.avatars && a in s'.queues
    requires cmd.RequestMove? && cmd.agent == a ==> a in s.queues && s'.queues[a] == s.queues[a]
    ensures a in s.avatars && a in s.queues && s'.avatars[a].startup == s.avatars[a].startup
    ensures EntersNoMore(s.queues[a], s'.queues[a])
  {
    if cmd.Tick? {
      CrossingsTail(s.queues[a]);
    }
  }

  /** A request of an agent either stores the walk it now has or leaves the walk it had. */
  lemma RequestStoresOrKeeps(graph: RoomGraph, s: MoveState, agent: AgentId, room: RoomId, target: Tile, s': MoveState)
    requires MoveNext(graph, s, RequestMove(agent, room, target), s')
    ensures s'.queues == s.queues
            || exists wps, queue :: queue != []
                 && PlannedFor(s.layout, graph, agent, room, target, s.avatars, s.queues, s'.avatars, s'.queues, wps,
                               queue)
  {
    if wps, queue :|
         PlannedFor(s.layout, graph, agent, room, target, s.avatars, s.queues, s'.avatars, s'.queues, wps, queue) {
      assert queue == [] ==> s'.queues == s.queues;
    }
  }

  lemma PlanIsAccepted(graph: RoomGraph, trace: seq<MoveState>, cmds: seq<MoveCmd>, i: nat, a: AgentId)
    returns (wps: seq<Waypoint>, queue: seq<Step>)
    requires IsPlannedAt(trace, cmds, i, a) && RunStep(graph, trace, cmds, i)
    ensures queue != [] && AcceptedAt(graph, trace, cmds, i, a, wps, queue)
  {
    var s, s' := trace[i], trace[i + 1];
    RequestStoresOrKeeps(graph, s, a, cmds[i].room, cmds[i].target, s');
    wps, queue :| queue != [] && PlannedFor(s.layout, graph, a, cmds[i].room, cmds[i].target, s.avatars, s.queues,
                                            s'.avatars, s'.queues, wps, queue);
  }

  lemma OldWalkHasOrigin(trace: seq<MoveState>, cmds: seq<MoveCmd>, k: nat, i: nat, a: AgentId, p: nat)
    requires |trace| == |cmds| + 1 && i == k + 1 && k < |cmds|
    requires a in trace[k].avatars && a in trace[k].queues && a in trace[i].avatars && a in trace[i].queues
    requires trace[i].avatars[a].startup == trace[k].avatars[a].startup
    requires EntersNoMore(trace[k].queues[a], trace[i].queues[a]) && !IsPlannedAt(trace, cmds, k, a)
    requires HasOrigin(trace, cmds, k, a, p)
    ensures HasOrigin(trace, cmds, i, a, p)
  {}

  lemma {:induction false} StoredWalkHasOrigin(graph: RoomGraph, trace: seq<MoveState>, cmds: seq<MoveCmd>, i: nat,
                                               a: AgentId)
    returns (p: nat)
    requires IsMoveRun(graph, trace, cmds) && i < |trace| && IsGraphOf(trace[0].layout, graph)
    requires a in trace[i].avatars && a in trace[i].queues
    requires forall q: nat :: IsLastPlan(trace, cmds, i, a, q) ==>
               IsBypassed(trace[q].layout, graph, trace[i].avatars[a].startup)
    ensures HasOrigin(trace, cmds, i, a, p)
  {
    if i > 0 {
      var k := i - 1;
      assert RunStep(graph, trace, cmds, k);
      ReachableWalksAreBacked(graph, trace, cmds, k);
      DoorsStay(graph, trace, cmds, k);
      if IsPlannedAt(trace, cmds, k, a) {
        p := k;
        var wps, queue := PlanIsAccepted(graph, trace, cmds, k, a);
        assert IsLastPlan(trace, cmds, i, a, k);
        NewWalkHasOrigin(graph, trace, cmds, k, i, a, wps, queue);
      } else {
        WalkShrinks(graph, trace[k], cmds[k], trace[i], a);
        forall q: nat | IsLastPlan(trace, cmds, k, a, q)
          ensures IsLastPlan(trace, cmds, i, a, q)
        {}
        p := StoredWalkHasOrigin(graph, trace, cmds, k, a);
        OldWalkHasOrigin(trace, cmds, k, i, a, p);
      }
    }
  }

  /** An agent's room changes only when a tick takes the first step of its walk. */
  lemma RoomChangesByWalking(graph: RoomGraph, s: MoveState, cmd: MoveCmd, s': MoveState, a: AgentId)
    requires WalksBacked(s) && MoveNext(graph, s, cmd, s') && a in s.avatars && a in s'.avatars
    requires a != OPERATOR_AVATAR_ID
    requires s'.avatars[a].room != s.avatars[a].room
    ensures cmd.Tick? && a in s.queues && s'.avatars[a].room in Crossings(s.queues[a])
  {
    assert cmd.Tick? && a in s.queues;
    assert WalkStored(s, a);
    CrossingsTail(s.queues[a]);
  }

  // ---------------------------------------------------------------- who owns a room

  predicate Claims(cmd: MoveCmd, room: RoomId) {
    cmd.InsertAvatars? && cmd.claim.Some? && cmd.claim.value.0 == room
  }

  /** The later command takes the room away from the startup that claimed it: it claims it anew or releases that
      startup's suites. */
  predicate Undoes(later: MoveCmd, claim: MoveCmd, room: RoomId)
    requires Claims(claim, room)
  {
    Claims(later, room) || later == ReleaseSuite(claim.claim.value.1)
  }

  /** Command `j` claims the room, and before `i` nothing has undone that. */
  ghost predicate ClaimStands(cmds: seq<MoveCmd>, j: nat, i: nat, room: RoomId) {
    && j < i <= |cmds| && Claims(cmds[j], room)
    && forall m: nat :: j < m < i ==> !Undoes(cmds[m], cmds[j], room)
  }

  function Owner(layout: TownLayout, room: RoomId): Option<StartupId> {
    if layout.Room(room).None? then None else layout.Room(room).value.privateTo
  }

  function NextOwner(owner: Option<StartupId>, cmd: MoveCmd, room: RoomId): Option<StartupId> {
    if Claims(cmd, room) then Some(cmd.claim.value.1)
    else if cmd.ReleaseSuite? && owner == Some(cmd.startup) then None
    else owner
  }

  /** What one command does to the owner of a room. */
  lemma OwnerStep(graph: RoomGraph, s: MoveState, cmd: MoveCmd, s': MoveState, room: RoomId)
    requires MoveNext(graph, s, cmd, s') && s.layout.Room(room).Some?
    ensures s'.layout.Room(room).Some? && Owner(s'.layout, room) == NextOwner(Owner(s.layout, room), cmd, room)
  {
    match cmd
    case InsertAvatars(_, claim) =>
      if claim.Some? {
        ClaimFindsRoom(s.layout.rooms, claim.value.0, claim.value.1, room);
      }
    case ReleaseSuite(owner) =>
      ReleaseFindsRoom(s.layout.rooms, owner, room);
    case _ =>
  }

  /** A claim made from command `b` on that stands at `i`. */
  ghost predicate StandsSince(cmds: seq<MoveCmd>, b: nat, j: nat, i: nat, room: RoomId) {
    b <= j && ClaimStands(cmds, j, i, room)
  }

  lemma StandsOneMore(cmds: seq<MoveCmd>, b: nat, j: nat, k: nat, i: nat, room: RoomId)
    requires i == k + 1 <= |cmds| && b <= k
    ensures StandsSince(cmds, b, j, i, room) <==>
              if j == k then Claims(cmds[k], room)
              else StandsSince(cmds, b, j, k, room) && !Undoes(cmds[k], cmds[j], room)
  {}

  /** The owner that the commands from `b` to `i` leave a room with: the startup of the claim that stands or, if none
      does, the owner before, unless it was released or displaced. */
  ghost predicate OwnerFollows(cmds: seq<MoveCmd>, b: nat, i: nat, room: RoomId, before: Option<StartupId>,
                               owner: Option<StartupId>) {
    && (forall j: nat :: StandsSince(cmds, b, j, i, room) ==> owner == Some(cmds[j].claim.value.1))
    && ((forall j: nat :: !StandsSince(cmds, b, j, i, room)) ==> owner == before || owner == None)
  }

  lemma FollowsOneMore(cmds: seq<MoveCmd>, b: nat, k: nat, i: nat, room: RoomId, before: Option<StartupId>,
                       owner: Option<StartupId>)
    requires b <= k && i == k + 1 <= |cmds| && OwnerFollows(cmds, b, k, room, before, owner)
    ensures OwnerFollows(cmds, b, i, room, before, NextOwner(owner, cmds[k], room))
  {
    forall j: nat
      ensures StandsSince(cmds, b, j, i, room) <==>
                if j == k then Claims(cmds[k], room)
                else StandsSince(cmds, b, j, k, room) && !Undoes(cmds[k], cmds[j], room)
    {
      StandsOneMore(cmds, b, j, k, i, room);
    }
    if Claims(cmds[k], room) {
      assert StandsSince(cmds, b, k, i, room);
    }
  }

  lemma {:induction false} OwnerAfter(graph: RoomGraph, trace: seq<MoveState>, cmds: seq<MoveCmd>, b: nat, i: nat,
                                      room: RoomId)
    requires IsMoveRun(graph, trace, cmds) && b <= i <= |cmds| && trace[b].layout.Room(room).Some?
    ensures trace[i].layout.Room(room).Some?
    ensures OwnerFollows(cmds, b, i, room, Owner(trace[b].layout, room), Owner(trace[i].layout, room))
    decreases i
  {
    if b < i {
      var k := i - 1;
      OwnerAfter(graph, trace, cmds, b, k, room);
      assert RunStep(graph, trace, cmds, k);
      OwnerStep(graph, trace[k], cmds[k], trace[i], room);
      FollowsOneMore(cmds, b, k, i, room, Owner(trace[b].layout, room), Owner(trace[k].layout, room));
    }
  }

  /** Between `b` and `i` another startup claimed the room, and the claim stands. */
  ghost predicate IsClaimedAgainst(cmds: seq<MoveCmd>, b: nat, i: nat, room: RoomId, startup: StartupId) {
    exists j: nat :: StandsSince(cmds, b, j, i, room) && cmds[j].claim.value.1 != startup
  }

  /** A room open to a startup becomes private to another one exactly by a claim of that one which stands. */
  lemma ForeignExactly(graph: RoomGraph, trace: seq<MoveState>, cmds: seq<MoveCmd>, b: nat, i: nat, room: RoomId,
                       startup: StartupId)
    requires IsMoveRun(graph, trace, cmds) && b <= i <= |cmds|
    requires CanEnter(trace[b].layout, startup, room)
    ensures trace[i].layout.Room(room).Some?
    ensures IsForeign(trace[i].layout, startup, room) <==> IsClaimedAgainst(cmds, b, i, room, startup)
  {
    OwnerAfter(graph, trace, cmds, b, i, room);
    if j: nat :| StandsSince(cmds, b, j, i, room) {
      assert Owner(trace[i].layout, room) == Some(cmds[j].claim.value.1);
    }
  }

  /** In every run an agent that enters a room does so on the walk planned last. If other startups' rooms were bypassed
      when that walk was planned, the room is private to another startup exactly if that one claimed it since then and
      the claim stands. */
  lemma ForeignEntryExactly(graph: RoomGraph, trace: seq<MoveState>, cmds: seq<MoveCmd>, i: nat, a: AgentId)
    returns (p: nat)
    requires IsMoveRun(graph, trace, cmds) && i < |cmds| && IsGraphOf(trace[0].layout, graph)
    requires a in trace[i].avatars && a in trace[i + 1].avatars && a != OPERATOR_AVATAR_ID
    requires trace[i + 1].avatars[a].room != trace[i].avatars[a].room
    requires forall q: nat :: IsLastPlan(trace, cmds, i, a, q) ==>
               IsBypassed(trace[q].layout, graph, trace[i].avatars[a].startup)
    ensures IsLastPlan(trace, cmds, i, a, p)
    ensures trace[i].layout.Room(trace[i + 1].avatars[a].room).Some?
    ensures IsForeign(trace[i].layout, trace[i].avatars[a].startup, trace[i + 1].avatars[a].room) <==>
              IsClaimedAgainst(cmds, p, i, trace[i + 1].avatars[a].room, trace[i].avatars[a].startup)
  {
    assert RunStep(graph, trace, cmds, i);
    ReachableWalksAreBacked(graph, trace, cmds, i);
    RoomChangesByWalking(graph, trace[i], cmds[i], trace[i + 1], a);
    p := StoredWalkHasOrigin(graph, trace, cmds, i, a);
    ForeignExactly(graph, trace, cmds, p, i, trace[i + 1].avatars[a].room, trace[i].avatars[a].startup);
  }

  // ---------------------------------------------------------------- runs without claims

  /** No suite is claimed; releasing suites is allowed. */
  predicate ClaimsNothing(cmd: MoveCmd) {
    cmd.InsertAvatars? ==> cmd.claim.None?
  }

  lemma ReleaseKeepsBypassed(layout: TownLayout, graph: RoomGraph, owner: StartupId)
    requires PrivateRoomsAreBypassed(layout, graph)
    ensures PrivateRoomsAreBypassed(ReleaseSuites(layout, owner), graph)
  {
    forall id | IsPrivate(ReleaseSuites(layout, owner), id)
      ensures IsPrivate(layout, id)
    {
      ReleaseFindsRoom(layout.rooms, owner, id);
    }
  }

  lemma BypassedStep(graph: RoomGraph, s: MoveState, cmd: MoveCmd, s': MoveState)
    requires MoveNext(graph, s, cmd, s') && ClaimsNothing(cmd) && PrivateRoomsAreBypassed(s.layout, graph)
    ensures PrivateRoomsAreBypassed(s'.layout, graph)
  {
    if cmd.ReleaseSuite? {
      ReleaseKeepsBypassed(s.layout, graph, cmd.startup);
    } else {
      assert s'.layout == s.layout;
    }
  }

  lemma {:induction false} StaysBypassed(graph: RoomGraph, trace: seq<MoveState>, cmds: seq<MoveCmd>, i: nat)
    requires IsMoveRun(graph, trace, cmds) && i < |trace| && PrivateRoomsAreBypassed(trace[0].layout, graph)
    requires forall j :: 0 <= j < |cmds| ==> ClaimsNothing(cmds[j])
    ensures PrivateRoomsAreBypassed(trace[i].layout, graph)
  {
    if i > 0 {
      StaysBypassed(graph, trace, cmds, i - 1);
      assert RunStep(graph, trace, cmds, i - 1) && ClaimsNothing(cmds[i - 1]);
      BypassedStep(graph, trace[i - 1], cmds[i - 1], trace[i]);
    }
  }

  /** In a town whose private rooms are bypassed, as long as no suite is claimed, no run ever moves an agent into a room
      private to another startup. */
  lemma NoForeignEntry(graph: RoomGraph, trace: seq<MoveState>, cmds: seq<MoveCmd>, i: nat, a: AgentId)
    requires IsMoveRun(graph, trace, cmds) && i < |cmds|
    requires IsGraphOf(trace[0].layout, graph) && PrivateRoomsAreBypassed(trace[0].layout, graph)
    requires forall j :: 0 <= j < |cmds| ==> ClaimsNothing(cmds[j])
    requires a in trace[i].avatars && a in trace[i + 1].avatars && a != OPERATOR_AVATAR_ID
    requires trace[i + 1].avatars[a].room != trace[i].avatars[a].room
    ensures trace[i].layout.Room(trace[i + 1].avatars[a].room).Some?
    ensures !IsForeign(trace[i].layout, trace[i].avatars[a].startup, trace[i + 1].avatars[a].room)
  {
    forall q: nat | IsLastPlan(trace, cmds, i, a, q)
      ensures IsBypassed(trace[q].layout, graph, trace[i].avatars[a].startup)
    {
      StaysBypassed(graph, trace, cmds, q);
      PrivateImpliesBypassed(trace[q].layout, graph, trace[i].avatars[a].startup);
    }
    var p := ForeignEntryExactly(graph, trace, cmds, i, a);
    assert forall j: nat :: j < i ==> ClaimsNothing(cmds[j]);
  }
}
