/** Movement: planning a walk for an avatar, and advancing every walking avatar by one tile per tick. */
module MoveSys {
  import opened Wrappers
  import opened Path
  import opened State
  import opened Seed

  datatype StartMoveResult = Ok | NoPath | PermissionDenied | NoSuchAgent

  /** The avatar reached the end of its walk, in the given room. */
  datatype MoveEvent = Complete(agent: AgentId, room: RoomId)

  method GraphFromLayout(layout: TownLayout) returns (g: RoomGraph)
    ensures g.doors == layout.doors
    ensures forall r :: g.Links(r) == DoorLinks(layout.doors, r)
  {
    g := FromDoors(layout.doors);
  }

  /** A room that exists and is common or owned by the startup. */
  predicate CanEnter(layout: TownLayout, startup: StartupId, room: RoomId) {
    match layout.Room(room)
    case None => false
    case Some(r) => r.privateTo.None? || r.privateTo.value == startup
  }

  // ---------------------------------------------------------------- queues of steps

  function Tiles(steps: seq<Step>): (tiles: seq<Tile>)
    ensures |tiles| == |steps| && forall k :: 0 <= k < |steps| ==> tiles[k] == steps[k].tile
  {
    seq(|steps|, k requires 0 <= k < |steps| => steps[k].tile)
  }

  /** The rooms entered along a queue, in order. */
  function Crossings(steps: seq<Step>): seq<RoomId> {
    if steps == [] then []
    else Crossings(steps[..|steps| - 1]) + Entered(steps[|steps| - 1])
  }

  function Entered(s: Step): seq<RoomId> {
    if s.enter.Some? then [s.enter.value] else []
  }

  lemma {:induction false} CrossingsConcat(a: seq<Step>, b: seq<Step>)
    ensures Crossings(a + b) == Crossings(a) + Crossings(b)
  {
    if b == [] {
      assert a + b == a;
    } else {
      var front := b[..|b| - 1];
      assert (a + b)[..|a + b| - 1] == a + front;
      CrossingsConcat(a, front);
    }
  }

  /** The room an avatar is in after walking the queue from `room`. */
  function RoomAfter(room: RoomId, steps: seq<Step>): RoomId {
    var rooms := Crossings(steps);
    if rooms == [] then room else rooms[|rooms| - 1]
  }

  /** The queue moves one 4-connected tile per step, from `from` to `to`. */
  ghost predicate LeadsTo(steps: seq<Step>, from: Tile, to: Tile) {
    IsWalkBetween([from] + Tiles(steps), from, to)
  }

  // ---------------------------------------------------------------- planning

  /** The transition of waypoint `k` never fires: the walk starts on the first door, or arrives at door `k` already
      standing on it because the previous door has the same tile. */
  ghost predicate Lost(bounds: map<RoomId, Bounds>, from: RoomId, fromTile: Tile, wps: seq<Waypoint>, k: nat)
    requires k < |wps|
  {
    if k == 0 then fromTile == wps[0].door
    else
      && wps[k].door == wps[k - 1].door && RoomAt(from, wps, k) in bounds
      && InBounds(bounds[RoomAt(from, wps, k)], wps[k].door)
  }

  /** The rooms whose transition does fire, among the first `n` waypoints. */
  ghost function Survivors(bounds: map<RoomId, Bounds>, from: RoomId, fromTile: Tile, wps: seq<Waypoint>, n: nat)
    : seq<RoomId>
    requires n <= |wps|
  {
    if n == 0 then []
    else Survivors(bounds, from, fromTile, wps, n - 1)
         + (if Lost(bounds, from, fromTile, wps, n - 1) then [] else [wps[n - 1].room])
  }

  /** The steps over `tiles`, the last of which enters `next`. */
  function Annotate(tiles: seq<Tile>, next: Option<RoomId>): (steps: seq<Step>)
    ensures Tiles(steps) == tiles
  {
    seq(|tiles|, k requires 0 <= k < |tiles| => Step(tiles[k], if k == |tiles| - 1 then next else None))
  }

  lemma {:induction false} AnnotateCrossings(tiles: seq<Tile>, next: Option<RoomId>)
    ensures Crossings(Annotate(tiles, next)) == if tiles == [] || next.None? then [] else [next.value]
  {
    if tiles != [] {
      var steps := Annotate(tiles, next);
      assert steps[..|steps| - 1] == Annotate(tiles[..|tiles| - 1], None);
      AnnotateCrossings(tiles[..|tiles| - 1], None);
    }
  }

  lemma SliceGrows<T>(s: seq<T>, i: nat, j: nat)
    requires i <= j < |s|
    ensures s[i..j + 1] == s[i..j] + [s[j]]
  {}

  /** The tiles that a segment adds after a tile. */
  function Added(end: Option<Tile>, tiles: seq<Tile>): seq<Tile> {
    if tiles != [] && end == Some(tiles[0]) then tiles[1..] else tiles
  }

  /** Appends the tiles of one segment, skipping a tile equal to the one just appended; the segment's last tile
      carries the transition into the next room. */
  method AppendSegment(steps0: seq<Step>, last0: Option<Tile>, tiles: seq<Tile>, next: Option<RoomId>)
    returns (steps: seq<Step>, last: Option<Tile>)
    requires IsWalk(tiles) && tiles != []
    ensures last == Some(tiles[|tiles| - 1])
    ensures steps == steps0 + Annotate(Added(last0, tiles), next)
  {
    steps, last := steps0, last0;
    ghost var all := Annotate(tiles, next);
    ghost var skipped := if last0 == Some(tiles[0]) then 1 else 0;
    for j := 0 to |tiles|
      invariant j == 0 ==> steps == steps0 && last == last0
      invariant j > 0 ==> last == Some(tiles[j - 1]) && steps == steps0 + all[skipped..j]
    {
      var t := tiles[j];
      if last == Some(t) {
        assert j == 0 || IsStep(tiles, j);
        continue;
      }
      var enter := if j == |tiles| - 1 then next else None;
      assert all[j] == Step(t, enter);
      SliceGrows(all, skipped, j);
      steps := steps + [Step(t, enter)];
      last := Some(t);
    }
    assert Annotate(tiles[skipped..], next) == all[skipped..];
    assert tiles[0..] == tiles;
  }

  /** The last tile before segment `k`. */
  function EndBefore(route: seq<Segment>, k: nat): Option<Tile>
    requires k <= |route|
  {
    if k == 0 || route[k - 1].tiles == [] then None else Some(route[k - 1].tiles[|route[k - 1].tiles| - 1])
  }

  function RoomAfterSegment(route: seq<Segment>, k: nat): Option<RoomId>
    requires k < |route|
  {
    if k + 1 < |route| then Some(route[k + 1].room) else None
  }

  /** The lists of steps that come about segment by segment. */
  ghost predicate IsFlattening(route: seq<Segment>, parts: seq<seq<Step>>) {
    && |parts| == |route| + 1 && parts[0] == []
    && forall k: nat {:trigger IsExtended(route, parts, k)} :: k < |route| ==> IsExtended(route, parts, k)
  }

  ghost predicate IsExtended(route: seq<Segment>, parts: seq<seq<Step>>, k: nat)
    requires k < |route| && k + 1 < |parts|
  {
    parts[k + 1] == parts[k] + Annotate(Added(EndBefore(route, k), route[k].tiles), RoomAfterSegment(route, k))
  }

  function WithoutOwnTile(steps: seq<Step>, fromTile: Tile): seq<Step> {
    if steps != [] && steps[0].tile == fromTile then steps[1..] else steps
  }

  /** Flattens a route into the queue to store. The first tile is the avatar's own and is dropped, together with any
      transition it carries. */
  method BuildSteps(fromTile: Tile, route: seq<Segment>) returns (queue: seq<Step>, ghost parts: seq<seq<Step>>)
    requires forall k :: 0 <= k < |route| ==> IsWalk(route[k].tiles) && route[k].tiles != []
    ensures IsFlattening(route, parts) && queue == WithoutOwnTile(parts[|route|], fromTile)
  {
    var steps: seq<Step> := [];
    var last: Option<Tile> := None;
    parts := [[]];
    for i := 0 to |route|
      invariant last == EndBefore(route, i)
      invariant |parts| == i + 1 && parts[0] == [] && parts[i] == steps
      invariant forall k: nat :: k < i ==> IsExtended(route, parts, k)
    {
      var next := if i + 1 < |route| then Some(route[i + 1].room) else None;
      steps, last := AppendSegment(steps, last, route[i].tiles, next);
      ghost var was := parts;
      parts := parts + [steps];
      assert forall k: nat :: k < i ==> IsExtended(route, was, k) == IsExtended(route, parts, k);
      assert IsExtended(route, parts, i);
    }
    queue := if steps != [] && steps[0].tile == fromTile then steps[1..] else steps;
  }

  /** What has been built before segment `i` is appended. */
  ghost predicate IsPlanPrefix(bounds: map<RoomId, Bounds>, from: RoomId, fromTile: Tile, wps: seq<Waypoint>,
                               toTile: Tile, i: nat, steps: seq<Step>, last: Option<Tile>)
    requires i <= |wps| + 1
  {
    if i == 0 then steps == [] && last == None
    else
      var end := if i <= |wps| then wps[i - 1].door else toTile;
      && IsWalkBetween(Tiles(steps), fromTile, end)
      && last == Some(end)
      && Crossings(steps[1..]) == Survivors(bounds, from, fromTile, wps, if i <= |wps| then i else |wps|)
  }

  /** A walk that ended on a door goes on from the tile on which the next room is entered. */
  lemma JoinAtDoor(walk: seq<Tile>, a: Tile, door: Tile, tiles: seq<Tile>, end: Tile)
    requires IsWalkBetween(walk, a, door)
    requires tiles != [] && IsWalkBetween(tiles, tiles[0], end) && Distance(tiles[0], door) <= 1
    ensures IsWalkBetween(walk + (if door == tiles[0] then tiles[1..] else tiles), a, end)
  {
    if door == tiles[0] {
      assert |tiles| > 1 ==> IsStep(tiles, 1);
      WalkSuffix(tiles, 1);
      WalkConcat(walk, tiles[1..]);
    } else {
      WalkConcat(walk, tiles);
    }
  }

  lemma JoinCrossings(steps: seq<Step>, more: seq<Tile>, next: Option<RoomId>)
    requires steps != []
    ensures Tiles(steps + Annotate(more, next)) == Tiles(steps) + more
    ensures Crossings((steps + Annotate(more, next))[1..]) ==
            Crossings(steps[1..]) + (if more == [] || next.None? then [] else [next.value])
  {
    assert (steps + Annotate(more, next))[1..] == steps[1..] + Annotate(more, next);
    CrossingsConcat(steps[1..], Annotate(more, next));
    AnnotateCrossings(more, next);
  }

  /** A list of steps that goes on through a door. */
  lemma ExtendWalk(steps: seq<Step>, fromTile: Tile, door: Tile, tiles: seq<Tile>, end: Tile, next: Option<RoomId>)
    requires steps != [] && IsWalkBetween(Tiles(steps), fromTile, door)
    requires tiles != [] && IsWalkBetween(tiles, tiles[0], end) && Distance(tiles[0], door) <= 1
    ensures var more := Added(Some(door), tiles);
            && IsWalkBetween(Tiles(steps + Annotate(more, next)), fromTile, end)
            && Crossings((steps + Annotate(more, next))[1..]) ==
               Crossings(steps[1..]) + (if more == [] || next.None? then [] else [next.value])
  {
    JoinAtDoor(Tiles(steps), fromTile, door, tiles, end);
    JoinCrossings(steps, Added(Some(door), tiles), next);
  }

  lemma StartWalk(tiles: seq<Tile>, next: Option<RoomId>)
    requires tiles != []
    ensures Tiles(Annotate(tiles, next)) == tiles
    ensures Crossings(Annotate(tiles, next)[1..]) == if |tiles| == 1 || next.None? then [] else [next.value]
  {
    assert Annotate(tiles, next)[1..] == Annotate(tiles[1..], next);
    AnnotateCrossings(tiles[1..], next);
  }

  /** What the tiles of segment `i` have to be for the walk to go on: a walk from near the door before it to the door
      after it, without a new tile exactly when the transition of that door is lost. */
  ghost predicate IsLeg(bounds: map<RoomId, Bounds>, from: RoomId, fromTile: Tile, wps: seq<Waypoint>, toTile: Tile,
                        i: nat, tiles: seq<Tile>)
  {
    && i <= |wps| && tiles != []
    && IsWalkBetween(tiles, tiles[0], if i < |wps| then wps[i].door else toTile)
    && (if i == 0 then tiles[0] == fromTile else Distance(tiles[0], wps[i - 1].door) <= 1)
    && (0 == i < |wps| ==> (|tiles| == 1 <==> Lost(bounds, from, fromTile, wps, 0)))
    && (0 < i < |wps| ==>
          (|tiles| == 1 && tiles[0] == wps[i - 1].door <==> Lost(bounds, from, fromTile, wps, i)))
  }

  lemma SegmentIsLeg(bounds: map<RoomId, Bounds>, from: RoomId, fromTile: Tile, wps: seq<Waypoint>, toTile: Tile,
                     route: seq<Segment>, i: nat)
    requires IsRoute(bounds, from, fromTile, wps, toTile, route) && i < |route|
    ensures IsLeg(bounds, from, fromTile, wps, toTile, i, route[i].tiles)
  {
    assert i > 0 ==> DoorBridged(bounds, from, wps, i - 1);
    assert IsSegment(bounds, from, fromTile, wps, toTile, i, route[i]);
  }

  /** Appending the first segment starts the plan. */
  lemma FirstPlanStep(bounds: map<RoomId, Bounds>, from: RoomId, fromTile: Tile, wps: seq<Waypoint>, toTile: Tile,
                      tiles: seq<Tile>, next: Option<RoomId>)
    requires IsLeg(bounds, from, fromTile, wps, toTile, 0, tiles)
    requires next == if 0 < |wps| then Some(wps[0].room) else None
    ensures IsPlanPrefix(bounds, from, fromTile, wps, toTile, 1, Annotate(tiles, next), Some(tiles[|tiles| - 1]))
  {
    StartWalk(tiles, next);
  }

  /** Appending a later segment extends it; a transition is recorded exactly when it is not lost. */
  lemma NextPlanStep(bounds: map<RoomId, Bounds>, from: RoomId, fromTile: Tile, wps: seq<Waypoint>, toTile: Tile,
                     i: nat, steps: seq<Step>, last: Option<Tile>, tiles: seq<Tile>, next: Option<RoomId>)
    requires 0 < i <= |wps| && IsLeg(bounds, from, fromTile, wps, toTile, i, tiles)
    requires IsPlanPrefix(bounds, from, fromTile, wps, toTile, i, steps, last)
    requires next == if i < |wps| then Some(wps[i].room) else None
    ensures IsPlanPrefix(bounds, from, fromTile, wps, toTile, i + 1, steps + Annotate(Added(last, tiles), next),
                         Some(tiles[|tiles| - 1]))
  {
    ExtendWalk(steps, fromTile, wps[i - 1].door, tiles, tiles[|tiles| - 1], next);
  }

  lemma PlanStep(bounds: map<RoomId, Bounds>, from: RoomId, fromTile: Tile, wps: seq<Waypoint>, toTile: Tile,
                 i: nat, steps: seq<Step>, last: Option<Tile>, tiles: seq<Tile>, next: Option<RoomId>)
    requires IsLeg(bounds, from, fromTile, wps, toTile, i, tiles)
    requires IsPlanPrefix(bounds, from, fromTile, wps, toTile, i, steps, last)
    requires next == if i < |wps| then Some(wps[i].room) else None
    ensures IsPlanPrefix(bounds, from, fromTile, wps, toTile, i + 1, steps + Annotate(Added(last, tiles), next),
                         Some(tiles[|tiles| - 1]))
  {
    if i == 0 {
      assert steps + Annotate(Added(last, tiles), next) == Annotate(tiles, next);
      FirstPlanStep(bounds, from, fromTile, wps, toTile, tiles, next);
    } else {
      NextPlanStep(bounds, from, fromTile, wps, toTile, i, steps, last, tiles, next);
    }
  }

  lemma NextRoomOf(bounds: map<RoomId, Bounds>, from: RoomId, fromTile: Tile, wps: seq<Waypoint>, toTile: Tile,
                   route: seq<Segment>, i: nat)
    requires IsRoute(bounds, from, fromTile, wps, toTile, route) && i < |route|
    ensures RoomAfterSegment(route, i) == if i < |wps| then Some(wps[i].room) else None
  {
    if i < |wps| {
      assert DoorBridged(bounds, from, wps, i);
      assert IsSegment(bounds, from, fromTile, wps, toTile, i + 1, route[i + 1]);
    }
  }

  /** A complete plan starts on the avatar's own tile; what is left without that step is the walk to make. */
  lemma PlanComplete(bounds: map<RoomId, Bounds>, from: RoomId, fromTile: Tile, wps: seq<Waypoint>, toTile: Tile,
                     steps: seq<Step>, last: Option<Tile>)
    requires IsPlanPrefix(bounds, from, fromTile, wps, toTile, |wps| + 1, steps, last)
    ensures steps != [] && steps[0].tile == fromTile
    ensures LeadsTo(steps[1..], fromTile, toTile)
    ensures Crossings(steps[1..]) == Survivors(bounds, from, fromTile, wps, |wps|)
  {
    assert [fromTile] + Tiles(steps[1..]) == Tiles(steps);
  }

  // ---------------------------------------------------------------- how many steps a walk has

  lemma SegmentLength(bounds: map<RoomId, Bounds>, from: RoomId, fromTile: Tile, wps: seq<Waypoint>, toTile: Tile,
                      i: nat, s: Segment)
    requires i <= |wps| && Bridged(bounds, from, fromTile, wps, toTile)
    requires i > 0 ==> DoorBridged(bounds, from, wps, i - 1)
    requires IsSegment(bounds, from, fromTile, wps, toTile, i, s) && IsDirect(bounds, from, fromTile, wps, toTile, i, s)
    ensures s.tiles != [] && s.tiles[|s.tiles| - 1] == if i < |wps| then wps[i].door else toTile
    ensures |s.tiles| - (if i == 0 || wps[i - 1].door == s.tiles[0] then 1 else 0) ==
            LegLength(bounds, from, fromTile, wps, toTile, i)
  {
    assert i < |wps| ==> DoorBridged(bounds, from, wps, i);
  }

  lemma DoorBefore(bounds: map<RoomId, Bounds>, from: RoomId, fromTile: Tile, wps: seq<Waypoint>, toTile: Tile,
                   route: seq<Segment>, k: nat)
    requires IsRoute(bounds, from, fromTile, wps, toTile, route) && k < |route|
    ensures k > 0 ==> DoorBridged(bounds, from, wps, k - 1) && EndBefore(route, k) == Some(wps[k - 1].door)
  {
    if k > 0 {
      assert DoorBridged(bounds, from, wps, k - 1);
      assert k > 1 ==> DoorBridged(bounds, from, wps, k - 2);
      assert IsSegment(bounds, from, fromTile, wps, toTile, k - 1, route[k - 1]);
    }
  }

  lemma SegmentAdds(bounds: map<RoomId, Bounds>, from: RoomId, fromTile: Tile, wps: seq<Waypoint>, toTile: Tile,
                    route: seq<Segment>, k: nat)
    requires IsRoute(bounds, from, fromTile, wps, toTile, route) && k < |route|
    requires IsDirectRoute(bounds, from, fromTile, wps, toTile, route)
    ensures |Added(EndBefore(route, k), route[k].tiles)| ==
            LegLength(bounds, from, fromTile, wps, toTile, k) + (if k == 0 then 1 else 0)
  {
    DoorBefore(bounds, from, fromTile, wps, toTile, route, k);
    assert IsSegment(bounds, from, fromTile, wps, toTile, k, route[k]);
    assert IsDirect(bounds, from, fromTile, wps, toTile, k, route[k]);
    SegmentLength(bounds, from, fromTile, wps, toTile, k, route[k]);
  }

  /** Each segment adds its leg; the first also adds the tile to start from. */
  ghost predicate AddsLegs(route: seq<Segment>, legs: seq<nat>) {
    |legs| == |route| && forall k: nat {:trigger AddsLeg(route, legs, k)} :: k < |route| ==> AddsLeg(route, legs, k)
  }

  ghost predicate AddsLeg(route: seq<Segment>, legs: seq<nat>, k: nat)
    requires k < |route| == |legs|
  {
    |Added(EndBefore(route, k), route[k].tiles)| == legs[k] + (if k == 0 then 1 else 0)
  }

  lemma {:induction false} FlatteningHasLength(route: seq<Segment>, legs: seq<nat>, parts: seq<seq<Step>>, n: nat)
    requires IsFlattening(route, parts) && AddsLegs(route, legs) && n <= |route|
    ensures |parts[n]| == Sum(legs, n) + (if n == 0 then 0 else 1)
  {
    if n > 0 {
      FlatteningHasLength(route, legs, parts, n - 1);
      assert IsExtended(route, parts, n - 1) && AddsLeg(route, legs, n - 1);
    }
  }

  ghost predicate HasLegs(bounds: map<RoomId, Bounds>, from: RoomId, fromTile: Tile, wps: seq<Waypoint>, toTile: Tile,
                          route: seq<Segment>) {
    && |route| == |wps| + 1
    && forall k: nat {:trigger IsLegOf(bounds, from, fromTile, wps, toTile, route, k)} :: k < |route| ==>
         IsLegOf(bounds, from, fromTile, wps, toTile, route, k)
  }

  ghost predicate IsLegOf(bounds: map<RoomId, Bounds>, from: RoomId, fromTile: Tile, wps: seq<Waypoint>, toTile: Tile,
                          route: seq<Segment>, k: nat)
    requires k < |route| == |wps| + 1
  {
    && IsLeg(bounds, from, fromTile, wps, toTile, k, route[k].tiles)
    && RoomAfterSegment(route, k) == if k < |wps| then Some(wps[k].room) else None
  }

  /** What has been flattened is a walk that fires the transitions that are not lost. */
  lemma {:induction false} FlatteningIsPlan(bounds: map<RoomId, Bounds>, from: RoomId, fromTile: Tile,
                                            wps: seq<Waypoint>, toTile: Tile, route: seq<Segment>,
                                            parts: seq<seq<Step>>, n: nat)
    requires HasLegs(bounds, from, fromTile, wps, toTile, route) && IsFlattening(route, parts) && n <= |route|
    ensures IsPlanPrefix(bounds, from, fromTile, wps, toTile, n, parts[n], EndBefore(route, n))
  {
    if n > 0 {
      FlatteningIsPlan(bounds, from, fromTile, wps, toTile, route, parts, n - 1);
      assert IsExtended(route, parts, n - 1) && IsLegOf(bounds, from, fromTile, wps, toTile, route, n - 1);
      PlanStep(bounds, from, fromTile, wps, toTile, n - 1, parts[n - 1], EndBefore(route, n - 1), route[n - 1].tiles,
               RoomAfterSegment(route, n - 1));
    }
  }

  // ---------------------------------------------------------------- starting a move

  /** `queue` is a walk for the route found along the shortest chain `wps`: it has one step for every step of the route
      and fires exactly the transitions that are not lost. */
  ghost predicate IsPlan(layout: TownLayout, graph: RoomGraph, from: RoomId, fromTile: Tile, to: RoomId, toTile: Tile,
                         wps: seq<Waypoint>, queue: seq<Step>) {
    && IsShortestChain(graph, from, wps, to)
    && Bridged(layout.RoomBoundsMap(), from, fromTile, wps, toTile)
    && LeadsTo(queue, fromTile, toTile)
    && Crossings(queue) == Survivors(layout.RoomBoundsMap(), from, fromTile, wps, |wps|)
    && TakesSteps(layout.RoomBoundsMap(), from, fromTile, wps, toTile, |queue|)
  }

  /** The rooms are not connected, or the shortest chain found cannot be bridged. */
  ghost predicate HasNoRoute(layout: TownLayout, graph: RoomGraph, from: RoomId, fromTile: Tile, to: RoomId,
                             toTile: Tile, wps: seq<Waypoint>) {
    || (forall c :: !IsChain(graph, from, c, to))
    || (IsShortestChain(graph, from, wps, to) && !Bridged(layout.RoomBoundsMap(), from, fromTile, wps, toTile))
  }

  lemma RouteWalks(bounds: map<RoomId, Bounds>, from: RoomId, fromTile: Tile, wps: seq<Waypoint>, toTile: Tile,
                   route: seq<Segment>)
    requires IsRoute(bounds, from, fromTile, wps, toTile, route)
    ensures forall k :: 0 <= k < |route| ==> IsWalk(route[k].tiles) && route[k].tiles != []
  {
    forall k | 0 <= k < |route|
      ensures IsWalk(route[k].tiles) && route[k].tiles != []
    {
      assert k > 0 ==> DoorBridged(bounds, from, wps, k - 1);
      assert IsSegment(bounds, from, fromTile, wps, toTile, k, route[k]);
    }
  }

  lemma RouteHasLegs(bounds: map<RoomId, Bounds>, from: RoomId, fromTile: Tile, wps: seq<Waypoint>, toTile: Tile,
                     route: seq<Segment>)
    returns (legs: seq<nat>)
    requires IsRoute(bounds, from, fromTile, wps, toTile, route)
    requires IsDirectRoute(bounds, from, fromTile, wps, toTile, route)
    ensures HasLegs(bounds, from, fromTile, wps, toTile, route)
    ensures AddsLegs(route, legs) && AreLegs(bounds, from, fromTile, wps, toTile, legs)
  {
    legs := seq(|route|, k requires 0 <= k < |route| => LegLength(bounds, from, fromTile, wps, toTile, k));
    forall k: nat | k < |route|
      ensures IsLegOf(bounds, from, fromTile, wps, toTile, route, k)
    {
      SegmentIsLeg(bounds, from, fromTile, wps, toTile, route, k);
      NextRoomOf(bounds, from, fromTile, wps, toTile, route, k);
    }
    forall k: nat | k < |route|
      ensures AddsLeg(route, legs, k)
    {
      SegmentAdds(bounds, from, fromTile, wps, toTile, route, k);
    }
  }

  /** The queue for a route along a shortest chain is a plan. */
  lemma QueueIsPlan(layout: TownLayout, graph: RoomGraph, from: RoomId, fromTile: Tile, to: RoomId, toTile: Tile,
                    wps: seq<Waypoint>, route: seq<Segment>, legs: seq<nat>, parts: seq<seq<Step>>)
    requires IsShortestChain(graph, from, wps, to) && Bridged(layout.RoomBoundsMap(), from, fromTile, wps, toTile)
    requires HasLegs(layout.RoomBoundsMap(), from, fromTile, wps, toTile, route)
    requires AddsLegs(route, legs) && AreLegs(layout.RoomBoundsMap(), from, fromTile, wps, toTile, legs)
    requires IsFlattening(route, parts)
    ensures IsPlan(layout, graph, from, fromTile, to, toTile, wps, WithoutOwnTile(parts[|route|], fromTile))
  {
    var bounds := layout.RoomBoundsMap();
    FlatteningIsPlan(bounds, from, fromTile, wps, toTile, route, parts, |route|);
    FlatteningHasLength(route, legs, parts, |route|);
    PlanComplete(bounds, from, fromTile, wps, toTile, parts[|route|], EndBefore(route, |route|));
  }

  /** Finds a route and flattens it. */
  method PlanMove(layout: TownLayout, graph: RoomGraph, from: RoomId, fromTile: Tile, to: RoomId, toTile: Tile)
    returns (plan: Option<seq<Step>>, ghost wps: seq<Waypoint>)
    ensures plan.None? ==> HasNoRoute(layout, graph, from, fromTile, to, toTile, wps)
    ensures plan.Some? ==> IsPlan(layout, graph, from, fromTile, to, toTile, wps, plan.value)
  {
    var bounds := layout.RoomBoundsMap();
    var route, chain := FullRoute(graph, bounds, from, fromTile, to, toTile);
    if route.None? {
      return None, if chain.Some? then chain.value else [];
    }
    RouteWalks(bounds, from, fromTile, chain.value, toTile, route.value);
    var steps, parts := BuildSteps(fromTile, route.value);
    ghost var legs := RouteHasLegs(bounds, from, fromTile, chain.value, toTile, route.value);
    QueueIsPlan(layout, graph, from, fromTile, to, toTile, chain.value, route.value, legs, parts);
    return Some(steps), chain.value;
  }

  /** With an empty queue the avatar is already there: the target is cleared and an older queue is kept. */
  function AvatarStarted(av: Avatar, target: Tile, queue: seq<Step>): Avatar {
    av.(target := if queue == [] then None else Some(target))
  }

  function QueuesStarted(queues: map<AgentId, seq<Step>>, agent: AgentId, queue: seq<Step>): map<AgentId, seq<Step>> {
    if queue == [] then queues else queues[agent := queue]
  }

  /** An accepted request: one planned walk to a room the avatar's startup may enter, and nothing else changed. */
  ghost predicate PlannedFor(layout: TownLayout, graph: RoomGraph, agent: AgentId, room: RoomId, target: Tile,
                             avatars: map<AgentId, Avatar>, queues: map<AgentId, seq<Step>>,
                             avatars': map<AgentId, Avatar>, queues': map<AgentId, seq<Step>>,
                             wps: seq<Waypoint>, queue: seq<Step>) {
    && agent in avatars
    && var av := avatars[agent];
    && CanEnter(layout, av.startup, room)
    && IsPlan(layout, graph, av.room, av.pos, room, target, wps, queue)
    && avatars' == avatars[agent := AvatarStarted(av, target, queue)]
    && queues' == QueuesStarted(queues, agent, queue)
  }

  /** What a request for a move does: nothing when it is refused, otherwise it stores one planned walk. */
  ghost predicate MoveRequested(layout: TownLayout, graph: RoomGraph, agent: AgentId, room: RoomId, target: Tile,
                                avatars: map<AgentId, Avatar>, queues: map<AgentId, seq<Step>>,
                                avatars': map<AgentId, Avatar>, queues': map<AgentId, seq<Step>>) {
    || (avatars' == avatars && queues' == queues && MayRefuse(layout, graph, agent, room, target, avatars))
    || exists wps, queue ::
         PlannedFor(layout, graph, agent, room, target, avatars, queues, avatars', queues', wps, queue)
  }

  /** The grounds for refusing a move. */
  ghost predicate MayRefuse(layout: TownLayout, graph: RoomGraph, agent: AgentId, room: RoomId, target: Tile,
                            avatars: map<AgentId, Avatar>) {
    || agent !in avatars
    || !CanEnter(layout, avatars[agent].startup, room)
    || exists wps :: HasNoRoute(layout, graph, avatars[agent].room, avatars[agent].pos, room, target, wps)
  }

  /** Stores the walk and sets its target; an empty one leaves the agent without a target. */
  method StoreWalk(world: WorldView, paths: PathStore, agent: AgentId, target: Tile, steps: seq<Step>)
    requires agent in world.avatars
    modifies world, paths
    ensures world.avatars == old(world.avatars)[agent := AvatarStarted(old(world.avatars)[agent], target, steps)]
    ensures paths.queues == QueuesStarted(old(paths.queues), agent, steps)
  {
    var avatar := world.avatars[agent].(target := Some(target));
    world.avatars := world.avatars[agent := avatar];
    if steps == [] {
      world.avatars := world.avatars[agent := avatar.(target := None)];
      return;
    }
    paths.queues := paths.queues[agent := steps];
  }

  method StartMove(world: WorldView, paths: PathStore, layout: TownLayout, graph: RoomGraph, agent: AgentId,
                   targetRoom: RoomId, target: Tile)
    returns (r: StartMoveResult, ghost wps: seq<Waypoint>, ghost queue: seq<Step>)
    modifies world, paths
    ensures r == NoSuchAgent <==> agent !in old(world.avatars)
    ensures r == PermissionDenied <==>
      agent in old(world.avatars) && !CanEnter(layout, old(world.avatars)[agent].startup, targetRoom)
    ensures r == NoPath ==>
      var av := old(world.avatars)[agent];
      HasNoRoute(layout, graph, av.room, av.pos, targetRoom, target, wps)
    ensures r != Ok ==> world.avatars == old(world.avatars) && paths.queues == old(paths.queues)
    ensures r == Ok ==>
      PlannedFor(layout, graph, agent, targetRoom, target, old(world.avatars), old(paths.queues),
                 world.avatars, paths.queues, wps, queue)
  {
    wps, queue := [], [];
    if agent !in world.avatars {
      return NoSuchAgent, wps, queue;
    }
    var avatar := world.avatars[agent];
    if !CanEnter(layout, avatar.startup, targetRoom) {
      return PermissionDenied, wps, queue;
    }
    var plan;
    plan, wps := PlanMove(layout, graph, avatar.room, avatar.pos, targetRoom, target);
    if plan.None? {
      return NoPath, wps, queue;
    }
    queue := plan.value;
    StoreWalk(world, paths, agent, target, plan.value);
    return Ok, wps, queue;
  }

  // ---------------------------------------------------------------- every bridged chain has a plan

  /** A straight walk to a door tile that is inside or next to the room. */
  lemma WalkToDoorExists(b: Bounds, entry: Tile, door: Tile) returns (tiles: seq<Tile>)
    requires InBounds(b, entry) && AdjacentInside(b, door).Some?
    ensures WalksToDoor(b, entry, door, tiles) && |tiles| == DistanceToDoor(b, entry, door) + 1
  {
    var exit := AdjacentInside(b, door).value;
    StraightIsInside(b, entry, exit);
    tiles := Straight(entry, exit);
    if exit != door {
      WalkConcat(tiles, [door]);
      tiles := tiles + [door];
    }
  }

  lemma SegmentExists(bounds: map<RoomId, Bounds>, from: RoomId, fromTile: Tile, wps: seq<Waypoint>, toTile: Tile,
                      k: nat)
    returns (s: Segment)
    requires Bridged(bounds, from, fromTile, wps, toTile) && k <= |wps|
    ensures k > 0 ==> DoorBridged(bounds, from, wps, k - 1)
    ensures IsSegment(bounds, from, fromTile, wps, toTile, k, s)
    ensures IsDirect(bounds, from, fromTile, wps, toTile, k, s)
  {
    var room := RoomAt(from, wps, k);
    assert k > 0 ==> DoorBridged(bounds, from, wps, k - 1);
    var entry := EntryTile(bounds, from, fromTile, wps, k);
    if k < |wps| {
      assert DoorBridged(bounds, from, wps, k);
      var tiles := WalkToDoorExists(bounds[room], entry, wps[k].door);
      s := Segment(room, tiles);
    } else {
      StraightIsInside(bounds[room], entry, toTile);
      s := Segment(room, Straight(entry, toTile));
    }
  }

  ghost predicate IsSegmentAt(bounds: map<RoomId, Bounds>, from: RoomId, fromTile: Tile, wps: seq<Waypoint>,
                              toTile: Tile, k: nat, s: Segment) {
    && k <= |wps| && (k > 0 ==> DoorBridged(bounds, from, wps, k - 1))
    && IsSegment(bounds, from, fromTile, wps, toTile, k, s) && IsDirect(bounds, from, fromTile, wps, toTile, k, s)
  }

  lemma {:induction false} SegmentsExist(bounds: map<RoomId, Bounds>, from: RoomId, fromTile: Tile, wps: seq<Waypoint>,
                                         toTile: Tile, n: nat) returns (route: seq<Segment>)
    requires Bridged(bounds, from, fromTile, wps, toTile) && n <= |wps| + 1
    ensures |route| == n
    ensures forall k: nat {:trigger IsSegmentAt(bounds, from, fromTile, wps, toTile, k, route[k])} :: k < n ==>
              IsSegmentAt(bounds, from, fromTile, wps, toTile, k, route[k])
  {
    if n == 0 {
      route := [];
    } else {
      var front := SegmentsExist(bounds, from, fromTile, wps, toTile, n - 1);
      var last := SegmentExists(bounds, from, fromTile, wps, toTile, n - 1);
      route := front + [last];
      forall k: nat | k < n
        ensures IsSegmentAt(bounds, from, fromTile, wps, toTile, k, route[k])
      {
        assert route[k] == if k < n - 1 then front[k] else last;
        assert k < n - 1 ==> IsSegmentAt(bounds, from, fromTile, wps, toTile, k, front[k]);
      }
    }
  }

  lemma RouteExists(bounds: map<RoomId, Bounds>, from: RoomId, fromTile: Tile, wps: seq<Waypoint>, toTile: Tile)
    returns (route: seq<Segment>)
    requires Bridged(bounds, from, fromTile, wps, toTile)
    ensures IsRoute(bounds, from, fromTile, wps, toTile, route)
    ensures IsDirectRoute(bounds, from, fromTile, wps, toTile, route)
  {
    route := SegmentsExist(bounds, from, fromTile, wps, toTile, |wps| + 1);
    forall k: nat | k <= |wps|
      ensures k > 0 ==> DoorBridged(bounds, from, wps, k - 1)
      ensures IsSegment(bounds, from, fromTile, wps, toTile, k, route[k])
      ensures IsDirect(bounds, from, fromTile, wps, toTile, k, route[k])
    {
      assert IsSegmentAt(bounds, from, fromTile, wps, toTile, k, route[k]);
    }
  }

  lemma FlatteningExists(route: seq<Segment>) returns (parts: seq<seq<Step>>)
    ensures IsFlattening(route, parts)
  {
    parts := [[]];
    for i := 0 to |route|
      invariant |parts| == i + 1 && parts[0] == []
      invariant forall k: nat :: k < i ==> IsExtended(route, parts, k)
    {
      var was := parts;
      parts := parts + [was[i] + Annotate(Added(EndBefore(route, i), route[i].tiles), RoomAfterSegment(route, i))];
      assert forall k: nat :: k < i ==> IsExtended(route, was, k) == IsExtended(route, parts, k);
      assert IsExtended(route, parts, i);
    }
  }

  /** Whenever the rooms are connected and the doors of a shortest chain can be bridged there is a walk to store. */
  lemma PlanExists(layout: TownLayout, graph: RoomGraph, from: RoomId, fromTile: Tile, to: RoomId, toTile: Tile,
                   wps: seq<Waypoint>) returns (queue: seq<Step>)
    requires IsShortestChain(graph, from, wps, to) && Bridged(layout.RoomBoundsMap(), from, fromTile, wps, toTile)
    ensures IsPlan(layout, graph, from, fromTile, to, toTile, wps, queue)
  {
    var bounds := layout.RoomBoundsMap();
    var route := RouteExists(bounds, from, fromTile, wps, toTile);
    var parts := FlatteningExists(route);
    var legs := RouteHasLegs(bounds, from, fromTile, wps, toTile, route);
    QueueIsPlan(layout, graph, from, fromTile, to, toTile, wps, route, legs, parts);
    queue := WithoutOwnTile(parts[|route|], fromTile);
  }

  // ---------------------------------------------------------------- advancing every walk by one tile

  /** An avatar after one tick of its queue. */
  function AvatarStepped(av: Avatar, queue: seq<Step>): Avatar {
    if queue == [] then av.(target := None)
    else
      av.(pos := queue[0].tile,
          room := if queue[0].enter.Some? then queue[0].enter.value else av.room,
          target := if |queue| == 1 then None else av.target)
  }

  function AvatarsStepped(avatars: map<AgentId, Avatar>, queues: map<AgentId, seq<Step>>): map<AgentId, Avatar> {
    map a | a in avatars :: if a in queues then AvatarStepped(avatars[a], queues[a]) else avatars[a]
  }

  function QueuesStepped(avatars: map<AgentId, Avatar>, queues: map<AgentId, seq<Step>>): map<AgentId, seq<Step>> {
    map a | a in queues && a in avatars && |queues[a]| > 1 :: queues[a][1..]
  }

  /** The tick completes the walk of the event's agent, in the event's room. */
  predicate Completes(avatars: map<AgentId, Avatar>, queues: map<AgentId, seq<Step>>, e: MoveEvent) {
    && e.agent in avatars && e.agent in queues && |queues[e.agent]| == 1
    && e.room == AvatarStepped(avatars[e.agent], queues[e.agent]).room
  }

  ghost predicate NoRepeats<T(!new)>(s: seq<T>) {
    forall i, j :: 0 <= i < j < |s| ==> s[i] != s[j]
  }

  /** The loop of `StepAll` once the agents outside `pending` have been visited. */
  ghost predicate PartlyStepped(avatars0: map<AgentId, Avatar>, queues0: map<AgentId, seq<Step>>, pending: set<AgentId>,
                                avatars: map<AgentId, Avatar>, queues: map<AgentId, seq<Step>>,
                                toRemove: set<AgentId>) {
    && pending <= queues0.Keys
    && avatars.Keys == avatars0.Keys && queues.Keys == queues0.Keys
    && (forall a :: a in avatars0 ==>
          avatars[a] == if a in queues0 && a !in pending then AvatarStepped(avatars0[a], queues0[a]) else avatars0[a])
    && (forall a :: a in queues0 ==>
          queues[a] == if a in avatars0 && a !in pending && queues0[a] != [] then queues0[a][1..] else queues0[a])
    && (forall a :: a in toRemove <==> a in queues0 && a !in pending && (a !in avatars0 || |queues0[a]| <= 1))
  }

  /** Visiting one more agent: its avatar and queue advance, and a finished or ownerless queue is marked. */
  lemma VisitAgent(avatars0: map<AgentId, Avatar>, queues0: map<AgentId, seq<Step>>, pending: set<AgentId>,
                   avatars: map<AgentId, Avatar>, queues: map<AgentId, seq<Step>>, toRemove: set<AgentId>, a: AgentId)
    requires PartlyStepped(avatars0, queues0, pending, avatars, queues, toRemove) && a in pending
    ensures a in queues && queues[a] == queues0[a]
    ensures a in avatars ==> avatars[a] == avatars0[a]
    ensures PartlyStepped(avatars0, queues0, pending - {a},
              if a in avatars then avatars[a := AvatarStepped(avatars[a], queues[a])] else avatars,
              if a in avatars && queues[a] != [] then queues[a := queues[a][1..]] else queues,
              if a !in avatars || |queues[a]| <= 1 then toRemove + {a} else toRemove)
  {}

  function Without(queues: map<AgentId, seq<Step>>, toRemove: set<AgentId>): map<AgentId, seq<Step>> {
    map a | a in queues && a !in toRemove :: queues[a]
  }

  lemma AllVisited(avatars0: map<AgentId, Avatar>, queues0: map<AgentId, seq<Step>>,
                   avatars: map<AgentId, Avatar>, queues: map<AgentId, seq<Step>>, toRemove: set<AgentId>)
    requires PartlyStepped(avatars0, queues0, {}, avatars, queues, toRemove)
    ensures avatars == AvatarsStepped(avatars0, queues0)
    ensures Without(queues, toRemove) == QueuesStepped(avatars0, queues0)
  {}

  /** The events of the agents outside `pending`, each once. */
  ghost predicate EventsSoFar(avatars0: map<AgentId, Avatar>, queues0: map<AgentId, seq<Step>>, pending: set<AgentId>,
                              events: seq<MoveEvent>) {
    && NoRepeats(events)
    && forall e :: e in events <==> Completes(avatars0, queues0, e) && e.agent !in pending
  }

  lemma VisitEvents(avatars0: map<AgentId, Avatar>, queues0: map<AgentId, seq<Step>>, pending: set<AgentId>,
                    events: seq<MoveEvent>, a: AgentId)
    requires EventsSoFar(avatars0, queues0, pending, events) && a in pending && a in queues0
    ensures EventsSoFar(avatars0, queues0, pending - {a},
              if a in avatars0 && |queues0[a]| == 1
              then events + [Complete(a, AvatarStepped(avatars0[a], queues0[a]).room)] else events)
  {
    if a in avatars0 && |queues0[a]| == 1 {
      var e := Complete(a, AvatarStepped(avatars0[a], queues0[a]).room);
      assert e !in events;
      assert forall x :: Completes(avatars0, queues0, x) && x.agent == a ==> x == e;
    }
  }

  /** One tick: agents are visited in any order, each advancing by its own first step. */
  method StepAll(world: WorldView, paths: PathStore) returns (events: seq<MoveEvent>)
    modifies world, paths
    ensures world.avatars == AvatarsStepped(old(world.avatars), old(paths.queues))
    ensures paths.queues == QueuesStepped(old(world.avatars), old(paths.queues))
    ensures EventsSoFar(old(world.avatars), old(paths.queues), {}, events)
    ensures forall i, j :: 0 <= i < j < |events| ==> events[i] != events[j]
  {
    events := [];
    var toRemove: set<AgentId> := {};
    var pending := paths.queues.Keys;
    ghost var avatars0, queues0 := world.avatars, paths.queues;
    while pending != {}
      invariant PartlyStepped(avatars0, queues0, pending, world.avatars, paths.queues, toRemove)
      invariant EventsSoFar(avatars0, queues0, pending, events)
      decreases pending
    {
      var agent :| agent in pending;
      VisitAgent(avatars0, queues0, pending, world.avatars, paths.queues, toRemove, agent);
      VisitEvents(avatars0, queues0, pending, events, agent);
      pending := pending - {agent};
      if agent !in world.avatars {
        toRemove := toRemove + {agent};
        continue;
      }
      var avatar, path := world.avatars[agent], paths.queues[agent];
      if path == [] {
        toRemove := toRemove + {agent};
        world.avatars := world.avatars[agent := avatar.(target := None)];
        continue;
      }
      var step := path[0];
      path := path[1..];
      paths.queues := paths.queues[agent := path];
      avatar := avatar.(pos := step.tile);
      if step.enter.Some? {
        avatar := avatar.(room := step.enter.value);
      }
      if path == [] {
        avatar := avatar.(target := None);
        toRemove := toRemove + {agent};
        events := events + [Complete(agent, avatar.room)];
      }
      world.avatars := world.avatars[agent := avatar];
    }
    AllVisited(avatars0, queues0, world.avatars, paths.queues, toRemove);
    paths.queues := Without(paths.queues, toRemove);
  }
}
