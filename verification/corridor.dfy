/** Small towns in which moves do not do what they promise: two rooms joined only by a third one, which is private. The
    door to the east is on a tile of the eastern room, or it shares the tile of the door to the west. */
module Corridor {
  import opened Wrappers
  import opened Path
  import opened State
  import opened Seed
  import opened MoveSys
  import opened Movement
  import opened Privacy

  const OWNER: StartupId := "owner"
  const VISITOR: StartupId := "visitor"
  const OWN_TILE := Tile(3, 0)
  const SHARED_TILE := Tile(2, 0)

  function Town(east: Tile): TownLayout {
    TownLayout(
      [RoomDef("west", Bounds(0, 0, 2, 1), None),
       RoomDef("middle", Bounds(2, 0, 1, 2), Some(OWNER)),
       RoomDef("east", Bounds(3, 0, 2, 1), None)],
      [Door("west", "middle", Tile(2, 0)), Door("middle", "east", east)])
  }

  function Through(east: Tile): seq<Waypoint> {
    [Waypoint("middle", Tile(2, 0)), Waypoint("east", east)]
  }

  predicate IsCorridorLink(east: Tile, a: RoomId, w: Waypoint) {
    || (a == "west" && w == Waypoint("middle", Tile(2, 0)))
    || (a == "middle" && (w == Waypoint("west", Tile(2, 0)) || w == Waypoint("east", east)))
    || (a == "east" && w == Waypoint("middle", east))
  }

  lemma CorridorLinks(east: Tile, graph: RoomGraph, a: RoomId, w: Waypoint)
    requires IsGraphOf(Town(east), graph)
    ensures w in graph.Links(a) <==> IsCorridorLink(east, a, w)
  {
    assert LinksAreDoors(Town(east), graph, a);
    DoorLinksMember(Town(east).doors, a, w);
    var doors := Town(east).doors;
    assert doors[0] in doors && doors[1] in doors;
    assert (exists d :: d in doors && Leads(d, a, w)) <==> Leads(doors[0], a, w) || Leads(doors[1], a, w);
  }

  /** The only shortest chain from west to east passes through the private room. */
  lemma OnlyWay(east: Tile, graph: RoomGraph, wps: seq<Waypoint>)
    requires IsGraphOf(Town(east), graph)
    ensures IsShortestChain(graph, "west", wps, "east") <==> wps == Through(east)
  {
    ThroughIsShortest(east, graph);
    if IsShortestChain(graph, "west", wps, "east") {
      assert |wps| == 2;
      assert IsLinkAt(graph, "west", wps, 0) && IsLinkAt(graph, "west", wps, 1);
      CorridorLinks(east, graph, "west", wps[0]);
      CorridorLinks(east, graph, "middle", wps[1]);
    }
  }

  lemma ThroughIsShortest(east: Tile, graph: RoomGraph)
    requires IsGraphOf(Town(east), graph)
    ensures IsShortestChain(graph, "west", Through(east), "east")
  {
    var l, m := Waypoint("west", Tile(2, 0)), Waypoint("east", east);
    CorridorLinks(east, graph, "middle", l);
    CorridorLinks(east, graph, "middle", m);
    if w :| w in graph.Links("west") && w.room == "east" {
      CorridorLinks(east, graph, "west", w);
    }
    DetourIsShortest(Town(east), graph, "middle", l, m);
  }

  lemma CorridorBounds(east: Tile)
    ensures Town(east).RoomBoundsMap() ==
            map["west" := Bounds(0, 0, 2, 1), "middle" := Bounds(2, 0, 1, 2), "east" := Bounds(3, 0, 2, 1)]
  {
    var rooms := Town(east).rooms;
    assert rooms[..2][..1] == rooms[..1] && rooms[..1][..0] == [];
    assert BoundsOf(rooms[..1]) == map["west" := Bounds(0, 0, 2, 1)];
    assert BoundsOf(rooms[..2]) == BoundsOf(rooms[..1])["middle" := Bounds(2, 0, 1, 2)];
  }

  lemma CorridorDoorIsWellBuilt(east: Tile, r: RoomId, w: Waypoint)
    requires (east == OWN_TILE || east == SHARED_TILE) && IsCorridorLink(east, r, w)
    ensures IsWellBuiltDoor(Town(east).RoomBoundsMap(), r, w)
  {
    CorridorBounds(east);
    var inside := if r == "west" then Tile(1, 0) else if r == "middle" then Tile(2, 0) else Tile(3, 0);
    AdjacentInsideComplete(Town(east).RoomBoundsMap()[r], w.door, inside);
  }

  lemma ThroughIsBridged(east: Tile)
    requires east == OWN_TILE || east == SHARED_TILE
    ensures Bridged(Town(east).RoomBoundsMap(), "west", Tile(0, 0), Through(east), Tile(4, 0))
  {
    var l, m := Waypoint("west", Tile(2, 0)), Waypoint("east", east);
    CorridorBounds(east);
    CorridorDoorIsWellBuilt(east, "middle", l);
    CorridorDoorIsWellBuilt(east, "middle", m);
    CorridorDoorIsWellBuilt(east, "west", Waypoint("middle", Tile(2, 0)));
    CorridorDoorIsWellBuilt(east, "east", Waypoint("middle", east));
    DetourIsBridged(Town(east).RoomBoundsMap(), "middle", l, m, Tile(0, 0), Tile(4, 0));
  }

  /** The queue is a walk for the move from west to east. */
  ghost predicate LeadsEast(east: Tile, graph: RoomGraph, wps: seq<Waypoint>, queue: seq<Step>) {
    IsPlan(Town(east), graph, "west", Tile(0, 0), "east", Tile(4, 0), wps, queue)
  }

  /** The east is common, and the middle is private to its owner. */
  lemma MiddleIsPrivate(east: Tile, startup: StartupId)
    ensures CanEnter(Town(east), startup, "east")
    ensures IsForeign(Town(east), startup, "middle") <==> startup != OWNER
  {}

  /** A move from west to east is never refused for want of a path, and a walk for it exists. */
  lemma EastIsReached(east: Tile, graph: RoomGraph, wps: seq<Waypoint>)
    requires (east == OWN_TILE || east == SHARED_TILE) && IsGraphOf(Town(east), graph)
    ensures !HasNoRoute(Town(east), graph, "west", Tile(0, 0), "east", Tile(4, 0), wps)
    ensures exists chain, queue :: LeadsEast(east, graph, chain, queue)
  {
    ThroughIsShortest(east, graph);
    ThroughIsBridged(east);
    OnlyWay(east, graph, wps);
    var walk := PlanExists(Town(east), graph, "west", Tile(0, 0), "east", Tile(4, 0), Through(east));
    assert LeadsEast(east, graph, Through(east), walk);
  }

  lemma MiddleIsEntered(graph: RoomGraph, wps: seq<Waypoint>, queue: seq<Step>)
    requires wps == Through(OWN_TILE)
    requires LeadsEast(OWN_TILE, graph, wps, queue)
    ensures "middle" in Crossings(queue)
  {
    WaypointSurvives(Town(OWN_TILE).RoomBoundsMap(), "west", Tile(0, 0), wps, 2, 1);
  }

  lemma EastIsMissed(graph: RoomGraph, wps: seq<Waypoint>, queue: seq<Step>)
    requires wps == Through(SHARED_TILE)
    requires LeadsEast(SHARED_TILE, graph, wps, queue)
    ensures RoomAfter("west", queue) != "east"
  {
    CorridorBounds(SHARED_TILE);
    ArrivalRoom(Town(SHARED_TILE), graph, "west", Tile(0, 0), "east", Tile(4, 0), wps, queue);
  }

  /** A visitor's move from west to east passes the check of its target and is never refused for want of a path; a walk
      for it exists, and every such walk enters the owner's private room. */
  lemma VisitorEntersPrivateRoom(graph: RoomGraph, wps: seq<Waypoint>)
    requires IsGraphOf(Town(OWN_TILE), graph)
    ensures CanEnter(Town(OWN_TILE), VISITOR, "east") && IsForeign(Town(OWN_TILE), VISITOR, "middle")
    ensures !HasNoRoute(Town(OWN_TILE), graph, "west", Tile(0, 0), "east", Tile(4, 0), wps)
    ensures exists chain, queue :: LeadsEast(OWN_TILE, graph, chain, queue)
    ensures forall queue :: LeadsEast(OWN_TILE, graph, wps, queue) ==>
              "middle" in Crossings(queue)
  {
    MiddleIsPrivate(OWN_TILE, VISITOR);
    EastIsReached(OWN_TILE, graph, wps);
    OnlyWay(OWN_TILE, graph, wps);
    forall queue | LeadsEast(OWN_TILE, graph, wps, queue)
      ensures "middle" in Crossings(queue)
    {
      MiddleIsEntered(graph, wps, queue);
    }
  }

  /** Where the two doors share a tile, even the owner's move from west to east is accepted, and yet no walk for it ends
      in the eastern room. */
  lemma SharedTileMissesItsRoom(graph: RoomGraph, wps: seq<Waypoint>)
    requires IsGraphOf(Town(SHARED_TILE), graph)
    ensures CanEnter(Town(SHARED_TILE), OWNER, "east")
    ensures !HasNoRoute(Town(SHARED_TILE), graph, "west", Tile(0, 0), "east", Tile(4, 0), wps)
    ensures exists chain, queue :: LeadsEast(SHARED_TILE, graph, chain, queue)
    ensures forall queue :: LeadsEast(SHARED_TILE, graph, wps, queue) ==>
              RoomAfter("west", queue) != "east"
  {
    MiddleIsPrivate(SHARED_TILE, OWNER);
    EastIsReached(SHARED_TILE, graph, wps);
    OnlyWay(SHARED_TILE, graph, wps);
    forall queue | LeadsEast(SHARED_TILE, graph, wps, queue)
      ensures RoomAfter("west", queue) != "east"
    {
      EastIsMissed(graph, wps, queue);
    }
  }
}
