/** Where moves end, read off the layout and the place a move starts from. */
module Arrival {
  import opened Wrappers
  import opened Path
  import opened State
  import opened Seed
  import opened MoveSys
  import opened Movement
  import opened Privacy

  predicate SamePair(d: Door, e: Door) {
    (d.a == e.a && d.b == e.b) || (d.a == e.b && d.b == e.a)
  }

  /** No two doors share a tile or join the same two rooms. */
  predicate DoorsAreApart(doors: seq<Door>) {
    forall i: nat, j: nat {:trigger AreApart(doors, i, j)} :: i < j < |doors| ==> AreApart(doors, i, j)
  }

  predicate AreApart(doors: seq<Door>, i: nat, j: nat)
    requires i < |doors| && j < |doors|
  {
    doors[i].tile != doors[j].tile && !SamePair(doors[i], doors[j])
  }

  lemma DoorIsDetermined(doors: seq<Door>, d: Door, e: Door)
    requires DoorsAreApart(doors) && d in doors && e in doors && (d.tile == e.tile || SamePair(d, e))
    ensures d == e
  {
    var i: nat, j: nat :| i < |doors| && j < |doors| && doors[i] == d && doors[j] == e;
    assert AreApart(doors, i, j) ==> d.tile != e.tile && !SamePair(d, e);
    assert AreApart(doors, j, i) ==> e.tile != d.tile && !SamePair(e, d);
  }

  lemma LinkHasDoor(layout: TownLayout, graph: RoomGraph, a: RoomId, w: Waypoint) returns (d: Door)
    requires IsGraphOf(layout, graph) && w in graph.Links(a)
    ensures d in layout.doors && Leads(d, a, w)
  {
    assert LinksAreDoors(layout, graph, a);
    DoorLinksMember(layout.doors, a, w);
    d :| d in layout.doors && Leads(d, a, w);
  }

  lemma SameDoorLeadsBack(d: Door, a: RoomId, v: Waypoint, w: Waypoint)
    requires Leads(d, a, v) && Leads(d, v.room, w)
    ensures v.room == a || w.room == a
  {}

  /** Two doors in a row on one tile are one door, which leads back. */
  lemma NextDoorDiffers(layout: TownLayout, graph: RoomGraph, a: RoomId, v: Waypoint, w: Waypoint)
    requires IsGraphOf(layout, graph) && DoorsAreApart(layout.doors)
    requires v in graph.Links(a) && w in graph.Links(v.room) && v.room != a && w.room != a
    ensures v.door != w.door
  {
    var d := LinkHasDoor(layout, graph, a, v);
    var e := LinkHasDoor(layout, graph, v.room, w);
    if v.door == w.door {
      DoorIsDetermined(layout.doors, d, e);
      SameDoorLeadsBack(d, a, v, w);
    }
  }

  /** A shortest chain never leads back. */
  lemma NextRoomIsNew(graph: RoomGraph, from: RoomId, to: RoomId, wps: seq<Waypoint>, i: nat, k: nat)
    requires IsShortestChain(graph, from, wps, to) && k == i + 1 < |wps|
    ensures wps[i] in graph.Links(RoomAt(from, wps, i)) && wps[k] in graph.Links(wps[i].room)
    ensures wps[i].room != RoomAt(from, wps, i) && wps[k].room != RoomAt(from, wps, i)
  {
    ShortestChainIsSimple(graph, from, wps, to, i, k);
    ShortestChainIsSimple(graph, from, wps, to, i, k + 1);
    assert IsLinkAt(graph, from, wps, i) && IsLinkAt(graph, from, wps, k);
  }

  /** If a door of the start room on the start tile leads to the target, a shortest chain is that door. */
  lemma ChainIsThatDoor(layout: TownLayout, graph: RoomGraph, from: RoomId, fromTile: Tile, to: RoomId,
                        wps: seq<Waypoint>)
    requires IsGraphOf(layout, graph) && DoorsAreApart(layout.doors)
    requires IsShortestChain(graph, from, wps, to) && from != to && Waypoint(to, fromTile) in graph.Links(from)
    ensures wps == [Waypoint(to, fromTile)]
  {
    var direct := [Waypoint(to, fromTile)];
    assert IsLinkAt(graph, from, direct, 0);
    assert IsChain(graph, from, direct, to) && |wps| <= 1;
    assert IsLinkAt(graph, from, wps, 0);
    var d := LinkHasDoor(layout, graph, from, direct[0]);
    var e := LinkHasDoor(layout, graph, from, wps[0]);
    DoorIsDetermined(layout.doors, d, e);
  }

  /** Where doors are apart, a move ends in its target room exactly when it stays in one room or does not start on the
      tile of a door from its room to the target. */
  lemma ArrivalByDoors(layout: TownLayout, graph: RoomGraph, from: RoomId, fromTile: Tile, to: RoomId, toTile: Tile,
                       wps: seq<Waypoint>, queue: seq<Step>)
    requires IsGraphOf(layout, graph) && DoorsAreApart(layout.doors)
    requires IsPlan(layout, graph, from, fromTile, to, toTile, wps, queue)
    ensures RoomAfter(from, queue) == to <==> from == to || Waypoint(to, fromTile) !in graph.Links(from)
  {
    ArrivalRoom(layout, graph, from, fromTile, to, toTile, wps, queue);
    if from == to {
      assert IsChain(graph, from, [], to);
    } else {
      assert IsLinkAt(graph, from, wps, 0);
      if Waypoint(to, fromTile) in graph.Links(from) {
        ChainIsThatDoor(layout, graph, from, fromTile, to, wps);
      }
      if |wps| > 1 {
        var i, k := |wps| - 2, |wps| - 1;
        NextRoomIsNew(graph, from, to, wps, i, k);
        NextDoorDiffers(layout, graph, RoomAt(from, wps, i), wps[i], wps[k]);
      }
    }
  }
}
