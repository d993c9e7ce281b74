/** Route planning: a search over rooms composed with a search over tiles inside each room, bridged at
    doors whose tile may lie inside only one of the two rooms they connect. */
module Path {
  import opened Wrappers
  import Search

  type RoomId = string
  datatype Tile = Tile(x: int, y: int)

  /** The half-open rectangle `x..x+w`, `y..y+h`. */
  datatype Bounds = Bounds(x: int, y: int, w: int, h: int)
  datatype Door = Door(a: RoomId, b: RoomId, tile: Tile)

  /** A room to enter and the door tile through which it is entered. */
  datatype Waypoint = Waypoint(room: RoomId, door: Tile)

  /** The tiles to visit inside one room. */
  datatype Segment = Segment(room: RoomId, tiles: seq<Tile>)

  // ---------------------------------------------------------------- the room graph

  datatype RoomGraph = RoomGraph(doors: seq<Door>, neighbors: map<RoomId, seq<Waypoint>>) {
    function Links(r: RoomId): seq<Waypoint> {
      if r in neighbors then neighbors[r] else []
    }
  }

  /** The links that the doors give to room `r`, in door order. */
  function DoorLinks(doors: seq<Door>, r: RoomId): seq<Waypoint> {
    if doors == [] then []
    else
      var d := doors[|doors| - 1];
      DoorLinks(doors[..|doors| - 1], r)
      + (if d.a == r then [Waypoint(d.b, d.tile)] else [])
      + (if d.b == r then [Waypoint(d.a, d.tile)] else [])
  }

  /** Door `d` leads out of room `r` through waypoint `w`. */
  predicate Leads(d: Door, r: RoomId, w: Waypoint) {
    d.tile == w.door && ((d.a == r && d.b == w.room) || (d.b == r && d.a == w.room))
  }

  /** The links of a room are the doors touching it, each usable from both sides. */
  lemma {:induction false} DoorLinksMember(doors: seq<Door>, r: RoomId, w: Waypoint)
    ensures w in DoorLinks(doors, r) <==> exists d :: d in doors && Leads(d, r, w)
  {
    if doors != [] {
      var last := doors[|doors| - 1];
      DoorLinksMember(doors[..|doors| - 1], r, w);
      assert doors == doors[..|doors| - 1] + [last];
      if d :| d in doors && Leads(d, r, w) {
        assert d == last || d in doors[..|doors| - 1];
      }
      assert Leads(last, r, w) ==> w in DoorLinks(doors, r);
    }
  }

  function PushLink(m: map<RoomId, seq<Waypoint>>, r: RoomId, w: Waypoint): map<RoomId, seq<Waypoint>> {
    m[r := (if r in m then m[r] else []) + [w]]
  }

  lemma DoorPushed(doors: seq<Door>, i: nat, neighbors: map<RoomId, seq<Waypoint>>, r: RoomId)
    requires i < |doors| && RoomGraph(doors, neighbors).Links(r) == DoorLinks(doors[..i], r)
    ensures var d := doors[i];
            var pushed := PushLink(PushLink(neighbors, d.a, Waypoint(d.b, d.tile)), d.b, Waypoint(d.a, d.tile));
            RoomGraph(doors, pushed).Links(r) == DoorLinks(doors[..i + 1], r)
  {
    assert doors[..i + 1][..i] == doors[..i];
  }

  method FromDoors(doors: seq<Door>) returns (g: RoomGraph)
    ensures g.doors == doors
    ensures forall r :: g.Links(r) == DoorLinks(doors, r)
  {
    var neighbors: map<RoomId, seq<Waypoint>> := map[];
    for i := 0 to |doors|
      invariant forall r :: RoomGraph(doors, neighbors).Links(r) == DoorLinks(doors[..i], r)
    {
      var d := doors[i];
      forall r
        ensures var pushed := PushLink(PushLink(neighbors, d.a, Waypoint(d.b, d.tile)), d.b, Waypoint(d.a, d.tile));
                RoomGraph(doors, pushed).Links(r) == DoorLinks(doors[..i + 1], r)
      {
        DoorPushed(doors, i, neighbors, r);
      }
      neighbors := PushLink(PushLink(neighbors, d.a, Waypoint(d.b, d.tile)), d.b, Waypoint(d.a, d.tile));
    }
    assert doors[..|doors|] == doors;
    g := RoomGraph(doors, neighbors);
  }

  /** The names of the rooms linked to `r`. */
  function Names(links: seq<Waypoint>): (names: seq<RoomId>)
    ensures |names| == |links| && forall i :: 0 <= i < |links| ==> names[i] == links[i].room
  {
    seq(|links|, i requires 0 <= i < |links| => links[i].room)
  }

  function Successors(g: RoomGraph): RoomId -> seq<RoomId> {
    r => Names(g.Links(r))
  }

  /** The room in which a traveller is after passing the first `k` waypoints. */
  function RoomAt(from: RoomId, wps: seq<Waypoint>, k: nat): RoomId
    requires k <= |wps|
  {
    if k == 0 then from else wps[k - 1].room
  }

  function Rooms(from: RoomId, wps: seq<Waypoint>): (rooms: seq<RoomId>)
    ensures |rooms| == |wps| + 1
    ensures forall k :: 0 <= k <= |wps| ==> rooms[k] == RoomAt(from, wps, k)
  {
    [from] + Names(wps)
  }

  /** Each waypoint is a link of the room before it, and the last one enters `to`. */
  ghost predicate IsChain(g: RoomGraph, from: RoomId, wps: seq<Waypoint>, to: RoomId) {
    && RoomAt(from, wps, |wps|) == to
    && forall k :: 0 <= k < |wps| ==> IsLinkAt(g, from, wps, k)
  }

  predicate IsLinkAt(g: RoomGraph, from: RoomId, wps: seq<Waypoint>, k: nat)
    requires k < |wps|
  {
    wps[k] in g.Links(RoomAt(from, wps, k))
  }

  /** A chain through the fewest rooms. */
  ghost predicate IsShortestChain(g: RoomGraph, from: RoomId, wps: seq<Waypoint>, to: RoomId) {
    && IsChain(g, from, wps, to)
    && forall other :: IsChain(g, from, other, to) ==> |wps| <= |other|
  }

  ghost predicate Linked(g: RoomGraph, a: RoomId, b: RoomId) {
    exists l :: l in g.Links(a) && l.room == b
  }

  lemma SuccessorIsLinked(g: RoomGraph, a: RoomId, b: RoomId)
    ensures b in Successors(g)(a) <==> Linked(g, a, b)
  {
    var links := g.Links(a);
    if b in Names(links) {
      var i :| 0 <= i < |links| && Names(links)[i] == b;
      assert links[i] in links;
    }
    if Linked(g, a, b) {
      var l :| l in links && l.room == b;
      var i :| 0 <= i < |links| && links[i] == l;
      assert Names(links)[i] == b;
    }
  }

  /** The rooms of a chain form a path of the search graph. */
  lemma ChainIsPath(g: RoomGraph, from: RoomId, wps: seq<Waypoint>, to: RoomId)
    requires IsChain(g, from, wps, to)
    ensures Search.IsPath(Successors(g), Rooms(from, wps), from, to)
  {
    var rooms := Rooms(from, wps);
    forall k | 0 < k < |rooms|
      ensures Search.IsEdge(Successors(g), rooms, k)
    {
      assert IsLinkAt(g, from, wps, k - 1);
      SuccessorIsLinked(g, rooms[k - 1], rooms[k]);
    }
  }

  /** Leaves out waypoints `i..j`. */
  function Cut(wps: seq<Waypoint>, i: nat, j: nat): (cut: seq<Waypoint>)
    requires i <= j <= |wps|
  {
    seq(|wps| - (j - i), k requires 0 <= k < |wps| - (j - i) => wps[if k < i then k else k + (j - i)])
  }

  lemma CutIsChain(g: RoomGraph, from: RoomId, wps: seq<Waypoint>, to: RoomId, i: nat, j: nat)
    requires IsChain(g, from, wps, to) && i <= j <= |wps|
    requires RoomAt(from, wps, i) == RoomAt(from, wps, j)
    ensures IsChain(g, from, Cut(wps, i, j), to)
  {
    var cut := Cut(wps, i, j);
    forall k | 0 <= k <= |cut|
      ensures RoomAt(from, cut, k) == RoomAt(from, wps, if k <= i then k else k + (j - i))
    {}
    forall k | 0 <= k < |cut|
      ensures IsLinkAt(g, from, cut, k)
    {
      assert IsLinkAt(g, from, wps, if k < i then k else k + (j - i));
    }
  }

  /** No room is visited twice on a shortest chain. */
  lemma ShortestChainIsSimple(g: RoomGraph, from: RoomId, wps: seq<Waypoint>, to: RoomId, i: nat, j: nat)
    requires IsShortestChain(g, from, wps, to)
    requires i < j <= |wps|
    ensures RoomAt(from, wps, i) != RoomAt(from, wps, j)
  {
    if RoomAt(from, wps, i) == RoomAt(from, wps, j) {
      CutIsChain(g, from, wps, to, i, j);
    }
  }

  /** The first link of `links` that leads to `room`. */
  function FirstLink(links: seq<Waypoint>, room: RoomId): (w: Option<Waypoint>)
    ensures w.Some? ==> w.value in links && w.value.room == room
    ensures w.None? ==> forall l :: l in links ==> l.room != room
  {
    if links == [] then None
    else if links[0].room == room then Some(links[0])
    else FirstLink(links[1..], room)
  }

  /** A chain through the fewest rooms, entering each by its first listed door; `None` exactly when the rooms
      are not connected. */
  method Route(g: RoomGraph, from: RoomId, to: RoomId) returns (r: Option<seq<Waypoint>>)
    ensures r.Some? ==> IsShortestChain(g, from, r.value, to)
    ensures r.Some? ==> UsesFirstDoors(g, from, r.value)
    ensures r.None? <==> forall wps :: !IsChain(g, from, wps, to)
  {
    if from == to {
      assert IsChain(g, from, [], to);
      return Some([]);
    }
    ghost var targets := set r, i | r in g.neighbors && 0 <= i < |g.neighbors[r]| :: g.neighbors[r][i].room;
    forall a, b | b in Successors(g)(a)
      ensures b in targets
    {
      SuccessorIsLinked(g, a, b);
      var l :| l in g.Links(a) && l.room == b;
      var i :| 0 <= i < |g.Links(a)| && g.Links(a)[i] == l;
      assert a in g.neighbors && g.neighbors[a][i].room == b;
    }
    var path := Search.AStar(Successors(g), _ => 0, from, to, {from} + targets);
    forall wps | IsChain(g, from, wps, to)
      ensures Search.IsPath(Successors(g), Rooms(from, wps), from, to)
    {
      ChainIsPath(g, from, wps, to);
    }
    if path.None? {
      return None;
    }
    var wps := Waypoints(g, path.value);
    forall k | 0 <= k < |wps|
      ensures IsLinkAt(g, from, wps, k)
    {
      assert FirstDoorAt(g, from, wps, k);
    }
    assert RoomAt(from, wps, |wps|) == Rooms(from, wps)[|wps|];
    forall other | IsChain(g, from, other, to)
      ensures |wps| <= |other|
    {
      assert |path.value| <= |Rooms(from, other)|;
    }
    assert IsChain(g, from, wps, to);
    return Some(wps);
  }

  /** Waypoint `k` is the first door listed between its two rooms. */
  ghost predicate FirstDoorAt(g: RoomGraph, from: RoomId, wps: seq<Waypoint>, k: nat)
    requires k < |wps|
  {
    FirstLink(g.Links(RoomAt(from, wps, k)), wps[k].room) == Some(wps[k])
  }

  ghost predicate UsesFirstDoors(g: RoomGraph, from: RoomId, wps: seq<Waypoint>) {
    forall k :: 0 <= k < |wps| ==> FirstDoorAt(g, from, wps, k)
  }

  lemma {:induction false} FirstLinkIsFirst(links: seq<Waypoint>, room: RoomId) returns (i: nat)
    requires FirstLink(links, room).Some?
    ensures i < |links| && links[i] == FirstLink(links, room).value
    ensures forall j :: 0 <= j < i ==> links[j].room != room
  {
    if links[0].room == room {
      i := 0;
    } else {
      var rest := FirstLinkIsFirst(links[1..], room);
      i := rest + 1;
      forall j | 0 <= j < i
        ensures links[j].room != room
      {
        assert j > 0 ==> links[1..][j - 1] == links[j];
      }
    }
  }

  /** Among the links of the room that a chain leaves through waypoint `k`, no earlier one leads to the same room. */
  lemma NoEarlierDoor(g: RoomGraph, from: RoomId, wps: seq<Waypoint>, k: nat) returns (i: nat)
    requires UsesFirstDoors(g, from, wps) && k < |wps|
    ensures var links := g.Links(if k == 0 then from else wps[k - 1].room);
            i < |links| && links[i] == wps[k] && forall j :: 0 <= j < i ==> links[j].room != wps[k].room
  {
    assert FirstDoorAt(g, from, wps, k);
    i := FirstLinkIsFirst(g.Links(RoomAt(from, wps, k)), wps[k].room);
  }

  /** `w` is the first door between rooms `k` and `k + 1` of a path. */
  predicate IsFirstDoor(g: RoomGraph, rooms: seq<RoomId>, k: nat, w: Waypoint)
    requires k + 1 < |rooms|
  {
    FirstLink(g.Links(rooms[k]), rooms[k + 1]) == Some(w)
  }

  /** Turns a path of rooms into waypoints, taking the first door between each pair of rooms. */
  method Waypoints(g: RoomGraph, rooms: seq<RoomId>) returns (wps: seq<Waypoint>)
    requires |rooms| > 0
    requires forall k :: 0 < k < |rooms| ==> Search.IsEdge(Successors(g), rooms, k)
    ensures Rooms(rooms[0], wps) == rooms
    ensures UsesFirstDoors(g, rooms[0], wps)
  {
    wps := [];
    for k := 1 to |rooms|
      invariant |wps| == k - 1
      invariant forall i: nat {:trigger IsFirstDoor(g, rooms, i, wps[i])} :: i < |wps| ==>
                  IsFirstDoor(g, rooms, i, wps[i])
    {
      assert Search.IsEdge(Successors(g), rooms, k);
      SuccessorIsLinked(g, rooms[k - 1], rooms[k]);
      ghost var was := wps;
      wps := wps + [FirstLink(g.Links(rooms[k - 1]), rooms[k]).value];
      forall i: nat | i < |wps|
        ensures IsFirstDoor(g, rooms, i, wps[i])
      {
        assert i < k - 1 ==> wps[i] == was[i] && IsFirstDoor(g, rooms, i, was[i]);
      }
    }
    forall k | 0 <= k < |wps|
      ensures FirstDoorAt(g, rooms[0], wps, k)
    {
      assert IsFirstDoor(g, rooms, k, wps[k]);
      assert k > 0 ==> IsFirstDoor(g, rooms, k - 1, wps[k - 1]);
    }
    forall k | 0 <= k < |rooms|
      ensures RoomAt(rooms[0], wps, k) == rooms[k]
    {
      assert k > 0 ==> IsFirstDoor(g, rooms, k - 1, wps[k - 1]);
    }
  }

  // ---------------------------------------------------------------- the tile grid

  function Abs(n: int): nat {
    if n < 0 then -n else n
  }

  function Distance(a: Tile, b: Tile): nat {
    Abs(a.x - b.x) + Abs(a.y - b.y)
  }

  /** The two tiles share an edge. */
  predicate Adjacent(a: Tile, b: Tile) {
    Distance(a, b) == 1
  }

  predicate InBounds(b: Bounds, t: Tile) {
    b.x <= t.x < b.x + b.w && b.y <= t.y < b.y + b.h
  }

  /** Every tile is one 4-connected step from the tile before it. */
  ghost predicate IsWalk(tiles: seq<Tile>) {
    forall k :: 0 < k < |tiles| ==> IsStep(tiles, k)
  }

  predicate IsStep(tiles: seq<Tile>, k: nat)
    requires 0 < k < |tiles|
  {
    Adjacent(tiles[k - 1], tiles[k])
  }

  /** Two walks join when the second starts next to where the first ends. */
  lemma WalkConcat(a: seq<Tile>, b: seq<Tile>)
    requires IsWalk(a) && IsWalk(b)
    requires a != [] && b != [] ==> Adjacent(a[|a| - 1], b[0])
    ensures IsWalk(a + b)
  {
    forall k | 0 < k < |a + b|
      ensures IsStep(a + b, k)
    {
      if k < |a| {
        assert IsStep(a, k);
      } else if k > |a| {
        assert IsStep(b, k - |a|);
      }
    }
  }

  lemma WalkSuffix(a: seq<Tile>, i: nat)
    requires IsWalk(a) && i <= |a|
    ensures IsWalk(a[i..])
  {
    forall k | 0 < k < |a[i..]|
      ensures IsStep(a[i..], k)
    {
      assert IsStep(a, i + k);
    }
  }

  ghost predicate IsWalkBetween(tiles: seq<Tile>, from: Tile, to: Tile) {
    |tiles| > 0 && tiles[0] == from && tiles[|tiles| - 1] == to && IsWalk(tiles)
  }

  function Around(t: Tile): seq<Tile> {
    [Tile(t.x - 1, t.y), Tile(t.x + 1, t.y), Tile(t.x, t.y - 1), Tile(t.x, t.y + 1)]
  }

  /** The in-bounds members of a list of tiles, in order. */
  function Inside(b: Bounds, ts: seq<Tile>): (r: seq<Tile>)
    ensures forall t :: t in r <==> t in ts && InBounds(b, t)
  {
    if ts == [] then []
    else (if InBounds(b, ts[0]) then [ts[0]] else []) + Inside(b, ts[1..])
  }

  function GridSuccessors(b: Bounds): Tile -> seq<Tile> {
    t => Inside(b, Around(t))
  }

  lemma AroundIsAdjacent(t: Tile, u: Tile)
    ensures u in Around(t) <==> Adjacent(t, u)
  {
    if Adjacent(t, u) {
      assert u == Around(t)[0] || u == Around(t)[1] || u == Around(t)[2] || u == Around(t)[3];
    }
  }

  /** Grid edges are exactly the in-bounds 4-connected steps. */
  lemma GridEdge(b: Bounds, t: Tile, u: Tile)
    ensures u in GridSuccessors(b)(t) <==> Adjacent(t, u) && InBounds(b, u)
  {
    AroundIsAdjacent(t, u);
  }

  lemma GridPathIsWalk(b: Bounds, p: seq<Tile>, from: Tile, to: Tile)
    requires InBounds(b, from)
    ensures Search.IsPath(GridSuccessors(b), p, from, to)
      <==> WalksInside(b, from, to, p)
  {
    if Search.IsPath(GridSuccessors(b), p, from, to) {
      forall k | 0 < k < |p|
        ensures IsStep(p, k) && InBounds(b, p[k])
      {
        assert Search.IsEdge(GridSuccessors(b), p, k);
        GridEdge(b, p[k - 1], p[k]);
      }
    }
    if WalksInside(b, from, to, p) {
      forall k | 0 < k < |p|
        ensures Search.IsEdge(GridSuccessors(b), p, k)
      {
        assert IsStep(p, k);
        GridEdge(b, p[k - 1], p[k]);
      }
    }
  }

  /** No walk reaches a tile in fewer steps than its Manhattan distance. */
  lemma {:induction false} WalkIsLong(tiles: seq<Tile>, from: Tile, to: Tile)
    requires IsWalkBetween(tiles, from, to)
    ensures |tiles| >= Distance(from, to) + 1
  {
    if |tiles| > 1 {
      assert IsStep(tiles, 1);
      WalkSuffix(tiles, 1);
      WalkIsLong(tiles[1..], tiles[1], to);
    }
  }

  /** One step nearer to `to`: along the first axis, then along the second. */
  function Toward(from: Tile, to: Tile): (next: Tile)
    requires from != to
    ensures Adjacent(from, next) && Distance(next, to) == Distance(from, to) - 1
    ensures forall b: Bounds :: InBounds(b, from) && InBounds(b, to) ==> InBounds(b, next)
  {
    if from.x < to.x then Tile(from.x + 1, from.y)
    else if from.x > to.x then Tile(from.x - 1, from.y)
    else if from.y < to.y then Tile(from.x, from.y + 1)
    else Tile(from.x, from.y - 1)
  }

  function Straight(from: Tile, to: Tile): (tiles: seq<Tile>)
    ensures |tiles| == Distance(from, to) + 1 && tiles[0] == from
    decreases Distance(from, to)
  {
    if from == to then [from] else [from] + Straight(Toward(from, to), to)
  }

  /** Inside a rectangle the Manhattan distance is attained. */
  lemma {:induction false} StraightIsInside(b: Bounds, from: Tile, to: Tile)
    requires InBounds(b, from) && InBounds(b, to)
    ensures WalksInside(b, from, to, Straight(from, to))
    decreases Distance(from, to)
  {
    if from != to {
      StraightIsInside(b, Toward(from, to), to);
      WalkConcat([from], Straight(Toward(from, to), to));
    }
  }

  /** A walk that never leaves the room. */
  ghost predicate WalksInside(b: Bounds, from: Tile, to: Tile, tiles: seq<Tile>) {
    && IsWalkBetween(tiles, from, to)
    && forall j :: 0 <= j < |tiles| ==> InBounds(b, tiles[j])
  }

  /** A 4-connected walk inside the room with exactly the Manhattan length, which no walk undercuts; `None`
      exactly when an end lies outside the room. */
  method TilePath(b: Bounds, from: Tile, to: Tile) returns (r: Option<seq<Tile>>)
    ensures r.Some? <==> InBounds(b, from) && InBounds(b, to)
    ensures r.Some? ==> WalksInside(b, from, to, r.value) && |r.value| == Distance(from, to) + 1
  {
    if !InBounds(b, from) || !InBounds(b, to) {
      return None;
    }
    ghost var universe := set x, y | b.x <= x < b.x + b.w && b.y <= y < b.y + b.h :: Tile(x, y);
    var succ, h := GridSuccessors(b), (t: Tile) => Distance(t, to);
    forall u, v | v in succ(u)
      ensures v in universe && h(u) <= h(v) + 1
    {
      GridEdge(b, u, v);
    }
    r := Search.AStar(succ, h, from, to, universe);
    StraightIsInside(b, from, to);
    GridPathIsWalk(b, Straight(from, to), from, to);
    GridPathIsWalk(b, r.value, from, to);
    WalkIsLong(r.value, from, to);
  }

  // ---------------------------------------------------------------- bridging doors

  /** The tile on which a traveller stands inside the room just before or just after the door: the door tile
      itself when it is inside, otherwise an inside tile next to it. */
  function AdjacentInside(b: Bounds, door: Tile): (r: Option<Tile>)
    ensures r.Some? ==> InBounds(b, r.value) && Distance(r.value, door) <= 1
    ensures r.Some? ==> (r.value == door <==> InBounds(b, door))
  {
    if InBounds(b, door) then Some(door)
    else
      var near := Inside(b, Around(door));
      if near == [] then None
      else
        assert near[0] in near;
        AroundIsAdjacent(door, near[0]);
        Some(near[0])
  }

  /** The helper fails only for a door that no inside tile touches. */
  lemma AdjacentInsideComplete(b: Bounds, door: Tile, t: Tile)
    requires InBounds(b, t) && Distance(t, door) <= 1
    ensures AdjacentInside(b, door).Some?
  {
    if t != door {
      AroundIsAdjacent(door, t);
      assert t in Inside(b, Around(door));
    }
  }

  /** Everything besides the chain that a route needs: each room has bounds, the ends are inside theirs, and each
      door can be reached from both of its rooms. */
  ghost predicate Bridged(bounds: map<RoomId, Bounds>, from: RoomId, fromTile: Tile, wps: seq<Waypoint>, toTile: Tile) {
    && (forall k :: 0 <= k <= |wps| ==> RoomAt(from, wps, k) in bounds)
    && from in bounds && InBounds(bounds[from], fromTile)
    && InBounds(bounds[RoomAt(from, wps, |wps|)], toTile)
    && forall k :: 0 <= k < |wps| ==> DoorBridged(bounds, from, wps, k)
  }

  ghost predicate DoorBridged(bounds: map<RoomId, Bounds>, from: RoomId, wps: seq<Waypoint>, k: nat)
    requires k < |wps|
  {
    && RoomAt(from, wps, k) in bounds && RoomAt(from, wps, k + 1) in bounds
    && AdjacentInside(bounds[RoomAt(from, wps, k)], wps[k].door).Some?
    && AdjacentInside(bounds[RoomAt(from, wps, k + 1)], wps[k].door).Some?
  }

  /** The tile on which segment `k` starts. */
  ghost function EntryTile(bounds: map<RoomId, Bounds>, from: RoomId, fromTile: Tile, wps: seq<Waypoint>, k: nat): Tile
    requires k <= |wps| && (k > 0 ==> DoorBridged(bounds, from, wps, k - 1))
  {
    if k == 0 then fromTile else AdjacentInside(bounds[RoomAt(from, wps, k)], wps[k - 1].door).value
  }

  /** A walk from an inside tile to the door tile that leaves the room at most with its last step and does not
      move at all when it starts on the door. */
  ghost predicate WalksToDoor(b: Bounds, from: Tile, door: Tile, tiles: seq<Tile>) {
    && IsWalkBetween(tiles, from, door)
    && (|tiles| == 1 <==> from == door)
    && InBounds(b, from)
    && forall j :: 0 <= j < |tiles| - 1 ==> InBounds(b, tiles[j])
  }

  /** How far it is to the door by way of the tile before it. */
  function DistanceToDoor(b: Bounds, from: Tile, door: Tile): nat
    requires AdjacentInside(b, door).Some?
  {
    Distance(from, AdjacentInside(b, door).value) + Distance(AdjacentInside(b, door).value, door)
  }

  /** How many steps segment `k` takes, with the step from the door before it into its room. */
  ghost function LegLength(bounds: map<RoomId, Bounds>, from: RoomId, fromTile: Tile, wps: seq<Waypoint>, toTile: Tile,
                           k: nat): nat
    requires k <= |wps| && Bridged(bounds, from, fromTile, wps, toTile)
  {
    assert k > 0 ==> DoorBridged(bounds, from, wps, k - 1);
    assert k < |wps| ==> DoorBridged(bounds, from, wps, k);
    var entry := EntryTile(bounds, from, fromTile, wps, k);
    (if k > 0 then Distance(wps[k - 1].door, entry) else 0)
    + if k < |wps| then DistanceToDoor(bounds[RoomAt(from, wps, k)], entry, wps[k].door) else Distance(entry, toTile)
  }

  ghost predicate IsLegLength(bounds: map<RoomId, Bounds>, from: RoomId, fromTile: Tile, wps: seq<Waypoint>,
                              toTile: Tile, legs: seq<nat>, k: nat)
    requires k < |legs| == |wps| + 1 && Bridged(bounds, from, fromTile, wps, toTile)
  {
    legs[k] == LegLength(bounds, from, fromTile, wps, toTile, k)
  }

  ghost predicate AreLegs(bounds: map<RoomId, Bounds>, from: RoomId, fromTile: Tile, wps: seq<Waypoint>, toTile: Tile,
                          legs: seq<nat>)
    requires Bridged(bounds, from, fromTile, wps, toTile)
  {
    && |legs| == |wps| + 1
    && forall k: nat {:trigger IsLegLength(bounds, from, fromTile, wps, toTile, legs, k)} :: k < |legs| ==>
         IsLegLength(bounds, from, fromTile, wps, toTile, legs, k)
  }

  function Sum(ns: seq<nat>, n: nat): nat
    requires n <= |ns|
  {
    if n == 0 then 0 else Sum(ns, n - 1) + ns[n - 1]
  }

  /** The route takes `n` steps: those of all its segments. */
  ghost predicate TakesSteps(bounds: map<RoomId, Bounds>, from: RoomId, fromTile: Tile, wps: seq<Waypoint>,
                             toTile: Tile, n: nat) {
    && Bridged(bounds, from, fromTile, wps, toTile)
    && exists legs :: AreLegs(bounds, from, fromTile, wps, toTile, legs) && n == Sum(legs, |legs|)
  }

  /** That number is determined, and in one room it is the distance. */
  lemma StepsAreDetermined(bounds: map<RoomId, Bounds>, from: RoomId, fromTile: Tile, wps: seq<Waypoint>, toTile: Tile,
                           m: nat, n: nat)
    requires TakesSteps(bounds, from, fromTile, wps, toTile, m) && TakesSteps(bounds, from, fromTile, wps, toTile, n)
    ensures m == n
    ensures wps == [] ==> n == Distance(fromTile, toTile)
  {
    var a :| AreLegs(bounds, from, fromTile, wps, toTile, a) && m == Sum(a, |a|);
    var b :| AreLegs(bounds, from, fromTile, wps, toTile, b) && n == Sum(b, |b|);
    forall k: nat | k < |a|
      ensures a[k] == b[k]
    {
      assert IsLegLength(bounds, from, fromTile, wps, toTile, a, k);
      assert IsLegLength(bounds, from, fromTile, wps, toTile, b, k);
    }
    assert a == b;
    if wps == [] {
      assert IsLegLength(bounds, from, fromTile, wps, toTile, b, 0);
      assert Sum(b, 1) == Sum(b, 0) + b[0];
    }
  }

  /** The number for a route through one door, given the tiles before and after the door. */
  lemma OneDoorTakes(bounds: map<RoomId, Bounds>, from: RoomId, fromTile: Tile, w: Waypoint, toTile: Tile, exit: Tile,
                     entry: Tile)
    requires Bridged(bounds, from, fromTile, [w], toTile) && from in bounds && w.room in bounds
    requires AdjacentInside(bounds[from], w.door) == Some(exit) && AdjacentInside(bounds[w.room], w.door) == Some(entry)
    ensures TakesSteps(bounds, from, fromTile, [w], toTile, Distance(fromTile, exit) + Distance(exit, w.door)
                                                            + Distance(w.door, entry) + Distance(entry, toTile))
  {
    var legs := [Distance(fromTile, exit) + Distance(exit, w.door), Distance(w.door, entry) + Distance(entry, toTile)];
    assert DoorBridged(bounds, from, [w], 0);
    assert IsLegLength(bounds, from, fromTile, [w], toTile, legs, 0);
    assert IsLegLength(bounds, from, fromTile, [w], toTile, legs, 1);
    assert Sum(legs, 2) == Sum(legs, 1) + legs[1] && Sum(legs, 1) == Sum(legs, 0) + legs[0];
  }

  /** Segment `k` of a route: from its entry tile to its door tile or, in the last room, to the target. */
  ghost predicate IsSegment(bounds: map<RoomId, Bounds>, from: RoomId, fromTile: Tile, wps: seq<Waypoint>, toTile: Tile,
                            k: nat, s: Segment)
    requires k <= |wps| && (k > 0 ==> DoorBridged(bounds, from, wps, k - 1))
  {
    && s.room == RoomAt(from, wps, k) && s.room in bounds
    && var entry := EntryTile(bounds, from, fromTile, wps, k);
       if k < |wps| then WalksToDoor(bounds[s.room], entry, wps[k].door, s.tiles)
       else WalksInside(bounds[s.room], entry, toTile, s.tiles)
  }

  /** Segment `k` takes no more steps than it needs. */
  ghost predicate IsDirect(bounds: map<RoomId, Bounds>, from: RoomId, fromTile: Tile, wps: seq<Waypoint>, toTile: Tile,
                           k: nat, s: Segment)
  {
    && k <= |wps| && (k > 0 ==> DoorBridged(bounds, from, wps, k - 1)) && RoomAt(from, wps, k) in bounds
    && var entry := EntryTile(bounds, from, fromTile, wps, k);
       if k < |wps| then
         && AdjacentInside(bounds[RoomAt(from, wps, k)], wps[k].door).Some?
         && |s.tiles| == DistanceToDoor(bounds[RoomAt(from, wps, k)], entry, wps[k].door) + 1
       else |s.tiles| == Distance(entry, toTile) + 1
  }

  ghost predicate IsDirectRoute(bounds: map<RoomId, Bounds>, from: RoomId, fromTile: Tile, wps: seq<Waypoint>,
                                toTile: Tile, route: seq<Segment>) {
    forall k: nat {:trigger IsDirect(bounds, from, fromTile, wps, toTile, k, route[k])} :: k < |route| ==>
      IsDirect(bounds, from, fromTile, wps, toTile, k, route[k])
  }

  ghost predicate IsRoute(bounds: map<RoomId, Bounds>, from: RoomId, fromTile: Tile, wps: seq<Waypoint>, toTile: Tile,
                          route: seq<Segment>) {
    && Bridged(bounds, from, fromTile, wps, toTile)
    && |route| == |wps| + 1
    && forall k: nat {:trigger IsSegment(bounds, from, fromTile, wps, toTile, k, route[k])} :: k <= |wps| ==>
         IsSegment(bounds, from, fromTile, wps, toTile, k, route[k])
  }

  /** One transition: the segment that leaves `room` through a door, and the tile on which the next room is
      entered. */
  method CrossDoor(bounds: map<RoomId, Bounds>, room: RoomId, tile: Tile, w: Waypoint)
    returns (r: Option<(Segment, Tile)>)
    ensures r.Some? <==>
      && room in bounds && InBounds(bounds[room], tile) && AdjacentInside(bounds[room], w.door).Some?
      && w.room in bounds && AdjacentInside(bounds[w.room], w.door).Some?
    ensures r.Some? ==> r.value.0.room == room && WalksToDoor(bounds[room], tile, w.door, r.value.0.tiles)
    ensures r.Some? ==> |r.value.0.tiles| == DistanceToDoor(bounds[room], tile, w.door) + 1
    ensures r.Some? ==> r.value.1 == AdjacentInside(bounds[w.room], w.door).value
  {
    if room !in bounds {
      return None;
    }
    var exit := AdjacentInside(bounds[room], w.door);
    if exit.None? {
      return None;
    }
    var segment := TilePath(bounds[room], tile, exit.value);
    if segment.None? {
      return None;
    }
    var tiles := segment.value;
    if exit.value != w.door {
      WalkConcat(tiles, [w.door]);
      tiles := tiles + [w.door];
    }
    if w.room !in bounds {
      return None;
    }
    var entry := AdjacentInside(bounds[w.room], w.door);
    if entry.None? {
      return None;
    }
    return Some((Segment(room, tiles), entry.value));
  }

  /** A room-by-room route along some shortest chain `wps`. It fails exactly when the rooms are not connected or
      the chain found cannot be bridged. */
  method FullRoute(g: RoomGraph, bounds: map<RoomId, Bounds>, from: RoomId, fromTile: Tile, to: RoomId, toTile: Tile)
    returns (r: Option<seq<Segment>>, ghost wps: Option<seq<Waypoint>>)
    ensures wps.None? <==> forall c :: !IsChain(g, from, c, to)
    ensures wps.Some? ==> IsShortestChain(g, from, wps.value, to)
    ensures r.Some? <==> wps.Some? && Bridged(bounds, from, fromTile, wps.value, toTile)
    ensures r.Some? ==>
              && IsRoute(bounds, from, fromTile, wps.value, toTile, r.value)
              && IsDirectRoute(bounds, from, fromTile, wps.value, toTile, r.value)
    ensures r.Some? ==>
              exists c :: IsShortestChain(g, from, c, to) && IsRoute(bounds, from, fromTile, c, toTile, r.value)
    ensures r.None? ==>
      (forall c :: !IsChain(g, from, c, to))
      || exists c :: IsShortestChain(g, from, c, to) && !Bridged(bounds, from, fromTile, c, toTile)
  {
    var waypoints := Route(g, from, to);
    wps := waypoints;
    if waypoints.None? {
      return None, wps;
    }
    r := RouteAlong(bounds, from, fromTile, waypoints.value, toTile);
  }

  /** The segments before the first `|out|` doors. */
  ghost predicate IsRoutePrefix(bounds: map<RoomId, Bounds>, from: RoomId, fromTile: Tile, wps: seq<Waypoint>,
                                toTile: Tile, out: seq<Segment>) {
    && |out| <= |wps|
    && (forall k :: 0 <= k < |out| ==> DoorBridged(bounds, from, wps, k))
    && forall k: nat {:trigger IsSegment(bounds, from, fromTile, wps, toTile, k, out[k])} :: k < |out| ==>
         IsSegment(bounds, from, fromTile, wps, toTile, k, out[k])
  }

  lemma RouteGrows(bounds: map<RoomId, Bounds>, from: RoomId, fromTile: Tile, wps: seq<Waypoint>, toTile: Tile,
                   out: seq<Segment>, s: Segment)
    requires IsRoutePrefix(bounds, from, fromTile, wps, toTile, out) && |out| < |wps|
    requires IsDirectRoute(bounds, from, fromTile, wps, toTile, out)
    requires DoorBridged(bounds, from, wps, |out|) && IsSegment(bounds, from, fromTile, wps, toTile, |out|, s)
    requires IsDirect(bounds, from, fromTile, wps, toTile, |out|, s)
    ensures IsRoutePrefix(bounds, from, fromTile, wps, toTile, out + [s])
    ensures IsDirectRoute(bounds, from, fromTile, wps, toTile, out + [s])
  {
    forall k: nat | k < |out + [s]|
      ensures k > 0 ==> DoorBridged(bounds, from, wps, k - 1)
      ensures IsSegment(bounds, from, fromTile, wps, toTile, k, (out + [s])[k])
      ensures IsDirect(bounds, from, fromTile, wps, toTile, k, (out + [s])[k])
    {
      assert k < |out| ==> IsSegment(bounds, from, fromTile, wps, toTile, k, out[k]);
      assert k < |out| ==> IsDirect(bounds, from, fromTile, wps, toTile, k, out[k]);
    }
  }

  lemma CompleteRoute(bounds: map<RoomId, Bounds>, from: RoomId, fromTile: Tile, wps: seq<Waypoint>, toTile: Tile,
                      out: seq<Segment>, last: Segment)
    requires IsRoutePrefix(bounds, from, fromTile, wps, toTile, out) && |out| == |wps|
    requires IsDirectRoute(bounds, from, fromTile, wps, toTile, out)
    requires IsSegment(bounds, from, fromTile, wps, toTile, |wps|, last)
    requires IsDirect(bounds, from, fromTile, wps, toTile, |wps|, last)
    ensures IsRoute(bounds, from, fromTile, wps, toTile, out + [last])
    ensures IsDirectRoute(bounds, from, fromTile, wps, toTile, out + [last])
  {
    var route := out + [last];
    forall k: nat | k < |route|
      ensures k > 0 ==> DoorBridged(bounds, from, wps, k - 1)
      ensures IsSegment(bounds, from, fromTile, wps, toTile, k, route[k])
      ensures IsDirect(bounds, from, fromTile, wps, toTile, k, route[k])
    {
      assert k < |out| ==> route[k] == out[k] && IsSegment(bounds, from, fromTile, wps, toTile, k, out[k]);
      assert k < |out| ==> IsDirect(bounds, from, fromTile, wps, toTile, k, out[k]);
    }
    forall k | 0 <= k <= |wps|
      ensures RoomAt(from, wps, k) in bounds
    {
      assert k < |wps| ==> DoorBridged(bounds, from, wps, k);
    }
    assert 0 < |wps| ==> IsSegment(bounds, from, fromTile, wps, toTile, 0, out[0]);
  }

  /** The route along a given chain; with no waypoints it stays in one room. */
  method RouteAlong(bounds: map<RoomId, Bounds>, from: RoomId, fromTile: Tile, ws: seq<Waypoint>, toTile: Tile)
    returns (r: Option<seq<Segment>>)
    ensures r.Some? <==> Bridged(bounds, from, fromTile, ws, toTile)
    ensures r.Some? ==> IsRoute(bounds, from, fromTile, ws, toTile, r.value)
    ensures r.Some? ==> IsDirectRoute(bounds, from, fromTile, ws, toTile, r.value)
  {
    var room, tile := from, fromTile;
    var out: seq<Segment> := [];
    for k := 0 to |ws|
      invariant |out| == k && room == RoomAt(from, ws, k)
      invariant IsRoutePrefix(bounds, from, fromTile, ws, toTile, out)
      invariant IsDirectRoute(bounds, from, fromTile, ws, toTile, out)
      invariant k > 0 ==> room in bounds && InBounds(bounds[room], tile)
      invariant tile == EntryTile(bounds, from, fromTile, ws, k)
    {
      var crossed := CrossDoor(bounds, room, tile, ws[k]);
      if crossed.None? {
        assert Bridged(bounds, from, fromTile, ws, toTile) ==> DoorBridged(bounds, from, ws, k);
        return None;
      }
      assert DoorBridged(bounds, from, ws, k);
      assert IsSegment(bounds, from, fromTile, ws, toTile, k, crossed.value.0);
      assert IsDirect(bounds, from, fromTile, ws, toTile, k, crossed.value.0);
      RouteGrows(bounds, from, fromTile, ws, toTile, out, crossed.value.0);
      out := out + [crossed.value.0];
      room, tile := ws[k].room, crossed.value.1;
    }
    if room !in bounds {
      return None;
    }
    var last := TilePath(bounds[room], tile, toTile);
    if last.None? {
      return None;
    }
    assert IsDirect(bounds, from, fromTile, ws, toTile, |ws|, Segment(room, last.value));
    CompleteRoute(bounds, from, fromTile, ws, toTile, out, Segment(room, last.value));
    return Some(out + [Segment(room, last.value)]);
  }
}
