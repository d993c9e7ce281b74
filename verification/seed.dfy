/** The town layout and the default town. */
module Seed {
  import opened Wrappers
  import opened Path
  import opened State

  datatype RoomDef = RoomDef(id: RoomId, bounds: Bounds, privateTo: Option<StartupId>)

  datatype TownLayout = TownLayout(rooms: seq<RoomDef>, doors: seq<Door>) {
    /** The first room with the given id. */
    function Room(id: RoomId): Option<RoomDef> {
      FindRoom(rooms, id)
    }

    /** Bounds by room id; a repeated id keeps its last entry. */
    function RoomBoundsMap(): map<RoomId, Bounds> {
      BoundsOf(rooms)
    }
  }

  function FindRoom(rooms: seq<RoomDef>, id: RoomId): (r: Option<RoomDef>)
    ensures r.Some? ==> r.value in rooms && r.value.id == id
    ensures r.None? ==> forall room :: room in rooms ==> room.id != id
  {
    if rooms == [] then None
    else if rooms[0].id == id then Some(rooms[0])
    else FindRoom(rooms[1..], id)
  }

  function BoundsOf(rooms: seq<RoomDef>): map<RoomId, Bounds> {
    if rooms == [] then map[]
    else BoundsOf(rooms[..|rooms| - 1])[rooms[|rooms| - 1].id := rooms[|rooms| - 1].bounds]
  }

  /** Sets the owner of the first room called `suite`, if there is one. */
  function ClaimSuite(layout: TownLayout, suite: RoomId, owner: StartupId): TownLayout {
    layout.(rooms := ClaimIn(layout.rooms, suite, owner))
  }

  function ClaimIn(rooms: seq<RoomDef>, suite: RoomId, owner: StartupId): (r: seq<RoomDef>)
    ensures |r| == |rooms|
    ensures forall i :: 0 <= i < |rooms| ==> r[i].id == rooms[i].id && r[i].bounds == rooms[i].bounds
    ensures forall i :: 0 <= i < |rooms| && rooms[i].id != suite ==> r[i] == rooms[i]
  {
    if rooms == [] then []
    else if rooms[0].id == suite then [rooms[0].(privateTo := Some(owner))] + rooms[1..]
    else [rooms[0]] + ClaimIn(rooms[1..], suite, owner)
  }

  /** Frees every room owned by `owner`. */
  function ReleaseSuites(layout: TownLayout, owner: StartupId): TownLayout {
    layout.(rooms := ReleaseIn(layout.rooms, owner))
  }

  function Released(room: RoomDef, owner: StartupId): RoomDef {
    if room.privateTo == Some(owner) then room.(privateTo := None) else room
  }

  function ReleaseIn(rooms: seq<RoomDef>, owner: StartupId): seq<RoomDef> {
    if rooms == [] then [] else [Released(rooms[0], owner)] + ReleaseIn(rooms[1..], owner)
  }

  /** Releasing an owner's suites changes a room's ownership and nothing else. */
  lemma {:induction false} ReleaseFindsRoom(rooms: seq<RoomDef>, owner: StartupId, id: RoomId)
    ensures FindRoom(ReleaseIn(rooms, owner), id) ==
            match FindRoom(rooms, id) case None => None case Some(r) => Some(Released(r, owner))
  {
    if rooms != [] {
      ReleaseFindsRoom(rooms[1..], owner, id);
    }
  }

  /** Claiming a suite makes the claimant its owner and changes nothing else. */
  lemma {:induction false} ClaimFindsRoom(rooms: seq<RoomDef>, suite: RoomId, owner: StartupId, id: RoomId)
    ensures FindRoom(ClaimIn(rooms, suite, owner), id) ==
            match FindRoom(rooms, id) case None => None
            case Some(r) => Some(if id == suite then r.(privateTo := Some(owner)) else r)
  {
    if rooms != [] && rooms[0].id != suite {
      ClaimFindsRoom(rooms[1..], suite, owner, id);
    }
  }

  /** The rooms that have bounds are the rooms that can be looked up. */
  lemma {:induction false} BoundedIffFound(rooms: seq<RoomDef>, id: RoomId)
    ensures id in BoundsOf(rooms) <==> FindRoom(rooms, id).Some?
  {
    if rooms != [] {
      var front, last := rooms[..|rooms| - 1], rooms[|rooms| - 1];
      BoundedIffFound(front, id);
      assert rooms == front + [last];
      assert forall r :: r in rooms <==> r in front || r == last;
    }
  }

  /** Lists that agree on ids and bounds give the same bounds map. */
  lemma {:induction false} SameBounds(a: seq<RoomDef>, b: seq<RoomDef>)
    requires |a| == |b| && forall i :: 0 <= i < |a| ==> a[i].id == b[i].id && a[i].bounds == b[i].bounds
    ensures BoundsOf(a) == BoundsOf(b)
  {
    if a != [] {
      SameBounds(a[..|a| - 1], b[..|b| - 1]);
    }
  }

  lemma {:induction false} ReleaseKeepsGeometry(rooms: seq<RoomDef>, owner: StartupId)
    ensures var r := ReleaseIn(rooms, owner);
            |r| == |rooms| && forall i :: 0 <= i < |rooms| ==> r[i].id == rooms[i].id && r[i].bounds == rooms[i].bounds
  {
    if rooms != [] {
      ReleaseKeepsGeometry(rooms[1..], owner);
    }
  }

  /** Ownership changes never move a wall. */
  lemma OwnershipKeepsBounds(layout: TownLayout, suite: RoomId, owner: StartupId)
    ensures ClaimSuite(layout, suite, owner).RoomBoundsMap() == layout.RoomBoundsMap()
    ensures ReleaseSuites(layout, owner).RoomBoundsMap() == layout.RoomBoundsMap()
  {
    SameBounds(ClaimIn(layout.rooms, suite, owner), layout.rooms);
    ReleaseKeepsGeometry(layout.rooms, owner);
    SameBounds(ReleaseIn(layout.rooms, owner), layout.rooms);
  }

  // ---------------------------------------------------------------- the default town

  function DefaultTown(): TownLayout {
    TownLayout(
      [RoomDef("suite_1", Bounds(0, 0, 7, 6), None),
       RoomDef("suite_2", Bounds(0, 6, 7, 6), None),
       RoomDef("suite_3", Bounds(33, 0, 7, 6), None),
       RoomDef("suite_4", Bounds(33, 6, 7, 6), None),
       RoomDef("lobby", Bounds(7, 4, 26, 4), None),
       RoomDef("cafe", Bounds(7, 0, 26, 4), None),
       RoomDef("library", Bounds(7, 8, 26, 4), None)],
      [Door("suite_1", "lobby", Tile(7, 4)),
       Door("suite_2", "lobby", Tile(7, 7)),
       Door("suite_3", "lobby", Tile(33, 4)),
       Door("suite_4", "lobby", Tile(33, 7)),
       Door("lobby", "cafe", Tile(20, 4)),
       Door("lobby", "library", Tile(20, 8))])
  }
}
