/** The movement results applied to the default town. */
module Town {
  import opened Wrappers
  import opened Path
  import opened State
  import opened Seed
  import opened MoveSys
  import opened Movement
  import opened Privacy
  import opened Arrival
  import opened Scheduler

  /** The default town under any ownership of its suites. */
  ghost predicate IsDefaultTown(layout: TownLayout) {
    layout.doors == DefaultTown().doors && layout.RoomBoundsMap() == DefaultTown().RoomBoundsMap()
  }

  /** Claiming and releasing suites keeps it the default town. */
  lemma OwnershipKeepsDefaultTown(layout: TownLayout, suite: RoomId, owner: StartupId)
    requires IsDefaultTown(layout)
    ensures IsDefaultTown(ClaimSuite(layout, suite, owner)) && IsDefaultTown(ReleaseSuites(layout, owner))
  {
    OwnershipKeepsBounds(layout, suite, owner);
  }

  /** The single door of each room other than the lobby. */
  function DoorOf(room: RoomId): Tile {
    if room == "suite_1" then Tile(7, 4)
    else if room == "suite_2" then Tile(7, 7)
    else if room == "suite_3" then Tile(33, 4)
    else if room == "suite_4" then Tile(33, 7)
    else if room == "cafe" then Tile(20, 4)
    else Tile(20, 8)
  }

  const SPOKES: set<RoomId> := {"suite_1", "suite_2", "suite_3", "suite_4", "cafe", "library"}

  lemma DefaultBounds()
    ensures DefaultTown().RoomBoundsMap() == map[
      "suite_1" := Bounds(0, 0, 7, 6), "suite_2" := Bounds(0, 6, 7, 6), "suite_3" := Bounds(33, 0, 7, 6),
      "suite_4" := Bounds(33, 6, 7, 6), "lobby" := Bounds(7, 4, 26, 4), "cafe" := Bounds(7, 0, 26, 4),
      "library" := Bounds(7, 8, 26, 4)]
  {
    var rooms := DefaultTown().rooms;
    assert rooms[..6][..5] == rooms[..5] && rooms[..5][..4] == rooms[..4] && rooms[..4][..3] == rooms[..3];
    assert rooms[..3][..2] == rooms[..2] && rooms[..2][..1] == rooms[..1] && rooms[..1][..0] == [];
    assert BoundsOf(rooms[..1]) == map["suite_1" := Bounds(0, 0, 7, 6)];
    assert BoundsOf(rooms[..2]) == BoundsOf(rooms[..1])["suite_2" := Bounds(0, 6, 7, 6)];
    assert BoundsOf(rooms[..3]) == BoundsOf(rooms[..2])["suite_3" := Bounds(33, 0, 7, 6)];
    assert BoundsOf(rooms[..4]) == BoundsOf(rooms[..3])["suite_4" := Bounds(33, 6, 7, 6)];
    assert BoundsOf(rooms[..5]) == BoundsOf(rooms[..4])["lobby" := Bounds(7, 4, 26, 4)];
    assert BoundsOf(rooms[..6]) == BoundsOf(rooms[..5])["cafe" := Bounds(7, 0, 26, 4)];
  }

  predicate IsSpokeDoor(d: Door) {
    || (d.a in SPOKES && d.b == LOBBY && d.tile == DoorOf(d.a))
    || (d.a == LOBBY && d.b in SPOKES && d.tile == DoorOf(d.b))
  }

  lemma DefaultDoorsAreSpokes(d: Door)
    requires d in DefaultTown().doors
    ensures IsSpokeDoor(d)
  {}

  lemma SpokeHasDoor(s: RoomId) returns (d: Door)
    requires s in SPOKES
    ensures d in DefaultTown().doors && Leads(d, s, Waypoint(LOBBY, DoorOf(s)))
    ensures Leads(d, LOBBY, Waypoint(s, DoorOf(s)))
  {
    var doors := DefaultTown().doors;
    var i := if s == "suite_1" then 0 else if s == "suite_2" then 1 else if s == "suite_3" then 2
             else if s == "suite_4" then 3 else if s == "cafe" then 4 else 5;
    d := doors[i];
  }

  predicate IsSpokeLink(a: RoomId, w: Waypoint) {
    || (a == LOBBY && w.room in SPOKES && w.door == DoorOf(w.room))
    || (a in SPOKES && w == Waypoint(LOBBY, DoorOf(a)))
  }

  lemma SpokeDoorLeads(d: Door, a: RoomId, w: Waypoint)
    requires IsSpokeDoor(d) && Leads(d, a, w)
    ensures IsSpokeLink(a, w)
  {}

  /** The town is a star: every link joins the lobby and a spoke through the spoke's door. */
  lemma DefaultLinks(layout: TownLayout, graph: RoomGraph, a: RoomId, w: Waypoint)
    requires layout.doors == DefaultTown().doors && IsGraphOf(layout, graph)
    ensures w in graph.Links(a) <==> IsSpokeLink(a, w)
  {
    assert LinksAreDoors(layout, graph, a);
    var doors := layout.doors;
    DoorLinksMember(doors, a, w);
    if d :| d in doors && Leads(d, a, w) {
      DefaultDoorsAreSpokes(d);
      SpokeDoorLeads(d, a, w);
    }
    if IsSpokeLink(a, w) {
      var d := SpokeHasDoor(if a == LOBBY then w.room else a);
      assert Leads(d, a, w);
    }
  }

  predicate InRoom(room: RoomId, t: Tile) {
    room in DefaultTown().RoomBoundsMap() && InBounds(DefaultTown().RoomBoundsMap()[room], t)
  }

  /** Both rooms of a spoke's door reach its tile. */
  lemma DefaultDoorsBridge(s: RoomId)
    requires s in SPOKES
    ensures var m := DefaultTown().RoomBoundsMap();
            s in m && LOBBY in m && AdjacentInside(m[s], DoorOf(s)).Some? && AdjacentInside(m[LOBBY], DoorOf(s)).Some?
  {
    DefaultBounds();
    var m := DefaultTown().RoomBoundsMap();
    var door := DoorOf(s);
    var inSpoke := if s == "suite_1" || s == "suite_2" then Tile(6, door.y)
                   else if s == "cafe" then Tile(20, 3) else door;
    var inLobby := if s == "suite_3" || s == "suite_4" then Tile(32, door.y)
                   else if s == "library" then Tile(20, 7) else door;
    AdjacentInsideComplete(m[s], door, inSpoke);
    AdjacentInsideComplete(m[LOBBY], door, inLobby);
  }

  /** Every chain of the default town can be bridged. */
  lemma DefaultChainsBridge(layout: TownLayout, graph: RoomGraph, from: RoomId, fromTile: Tile, to: RoomId,
                            toTile: Tile, wps: seq<Waypoint>)
    requires IsDefaultTown(layout) && IsGraphOf(layout, graph)
    requires InRoom(from, fromTile) && InRoom(to, toTile) && IsChain(graph, from, wps, to)
    ensures Bridged(layout.RoomBoundsMap(), from, fromTile, wps, toTile)
  {
    var m := layout.RoomBoundsMap();
    forall k | 0 <= k < |wps|
      ensures DoorBridged(m, from, wps, k)
    {
      var a := RoomAt(from, wps, k);
      assert IsLinkAt(graph, from, wps, k);
      DefaultLinks(layout, graph, a, wps[k]);
      DefaultDoorsBridge(if a == LOBBY then wps[k].room else a);
    }
    forall k | 0 <= k <= |wps|
      ensures RoomAt(from, wps, k) in m
    {
      assert k > 0 ==> DoorBridged(m, from, wps, k - 1);
    }
  }

  lemma RoomsOfTheTown(room: RoomId)
    ensures room in DefaultTown().RoomBoundsMap() <==> room == LOBBY || room in SPOKES
  {
    DefaultBounds();
  }

  /** Any two rooms of the default town are connected. */
  lemma DefaultTownIsConnected(layout: TownLayout, graph: RoomGraph, from: RoomId,
                               to: RoomId) returns (wps: seq<Waypoint>)
    requires layout.doors == DefaultTown().doors && IsGraphOf(layout, graph)
    requires from in DefaultTown().RoomBoundsMap() && to in DefaultTown().RoomBoundsMap()
    ensures IsChain(graph, from, wps, to)
  {
    RoomsOfTheTown(from);
    RoomsOfTheTown(to);
    var toLobby := if from == LOBBY then [] else [Waypoint(LOBBY, DoorOf(from))];
    var fromLobby := if to == LOBBY then [] else [Waypoint(to, DoorOf(to))];
    wps := if from == to then [] else toLobby + fromLobby;
    forall k | 0 <= k < |wps|
      ensures IsLinkAt(graph, from, wps, k)
    {
      DefaultLinks(layout, graph, RoomAt(from, wps, k), wps[k]);
    }
  }

  /** In the default town no move between in-bounds tiles is refused for want of a path, whatever shortest chain the
      search settles on. */
  lemma DefaultTownAlwaysRoutes(layout: TownLayout, graph: RoomGraph, from: RoomId, fromTile: Tile, to: RoomId,
                                toTile: Tile, wps: seq<Waypoint>)
    requires IsDefaultTown(layout) && IsGraphOf(layout, graph)
    requires InRoom(from, fromTile) && InRoom(to, toTile)
    ensures !HasNoRoute(layout, graph, from, fromTile, to, toTile, wps)
  {
    var c := DefaultTownIsConnected(layout, graph, from, to);
    if IsShortestChain(graph, from, wps, to) {
      DefaultChainsBridge(layout, graph, from, fromTile, to, toTile, wps);
    }
  }

  /** In the default town, where every room is listed once, the scheduler's request sends an agent that stands in its
      recorded room to the centre of the required one, unless that room is private to another startup. */
  lemma DefaultTownSendsAgents(layout: TownLayout, graph: RoomGraph, b: Before, a: AgentId, room: RoomId,
                               avatars: map<AgentId, Avatar>, queues: map<AgentId, seq<Step>>)
    requires IsDefaultTown(layout) && IsGraphOf(layout, graph)
    requires a in b.avatars && a !in b.queues && InRoom(b.avatars[a].room, b.avatars[a].pos)
    requires room in layout.RoomBoundsMap() && layout.Room(room).Some?
    requires layout.Room(room).value.bounds == layout.RoomBoundsMap()[room]
    requires CanEnter(layout, b.avatars[a].startup, room)
    requires WalkRequested(layout, graph, b, a, room, avatars, queues)
    ensures exists wps, queue :: PlannedFor(layout, graph, a, room, RoomCenter(layout.Room(room).value), b.avatars,
                                            b.queues, avatars, queues, wps, queue)
  {
    DefaultBounds();
    var av, center := b.avatars[a], RoomCenter(layout.Room(room).value);
    RoomCenterIsInside(layout.Room(room).value);
    forall wps
      ensures !HasNoRoute(layout, graph, av.room, av.pos, room, center, wps)
    {
      DefaultTownAlwaysRoutes(layout, graph, av.room, av.pos, room, center, wps);
    }
  }

  /** The first door on the way between two different rooms. */
  function FirstDoor(from: RoomId, to: RoomId): Tile {
    if from == LOBBY then DoorOf(to) else DoorOf(from)
  }

  lemma DefaultDoorsAreApart()
    ensures DoorsAreApart(DefaultTown().doors)
  {
    var doors := DefaultTown().doors;
    assert doors[0].tile == Tile(7, 4) && doors[1].tile == Tile(7, 7) && doors[2].tile == Tile(33, 4);
    assert doors[3].tile == Tile(33, 7) && doors[4].tile == Tile(20, 4) && doors[5].tile == Tile(20, 8);
  }

  /** In the default town a walk ends in its target room exactly when it stays in one room, crosses two doors, or
      does not start on the door it crosses. */
  lemma DefaultTownArrival(layout: TownLayout, graph: RoomGraph, from: RoomId, fromTile: Tile, to: RoomId, toTile: Tile,
                           wps: seq<Waypoint>, queue: seq<Step>)
    requires IsDefaultTown(layout) && IsGraphOf(layout, graph)
    requires IsPlan(layout, graph, from, fromTile, to, toTile, wps, queue)
    ensures RoomAfter(from, queue) == to <==>
      from == to || (from != LOBBY && to != LOBBY) || fromTile != FirstDoor(from, to)
  {
    DefaultDoorsAreApart();
    ArrivalByDoors(layout, graph, from, fromTile, to, toTile, wps, queue);
    DefaultLinks(layout, graph, from, Waypoint(to, fromTile));
    EndsAreRooms(layout, graph, from, fromTile, to, toTile, wps, queue);
  }

  lemma EndsAreRooms(layout: TownLayout, graph: RoomGraph, from: RoomId, fromTile: Tile, to: RoomId, toTile: Tile,
                     wps: seq<Waypoint>, queue: seq<Step>)
    requires IsDefaultTown(layout) && IsPlan(layout, graph, from, fromTile, to, toTile, wps, queue)
    ensures (from == LOBBY || from in SPOKES) && (to == LOBBY || to in SPOKES)
  {
    RoomsOfTheTown(from);
    RoomsOfTheTown(to);
  }

  /** Suites are dead ends: as long as the lobby stays common the default town protects private rooms. */
  lemma DefaultTownHasDeadEnds(layout: TownLayout, graph: RoomGraph)
    requires IsDefaultTown(layout) && IsGraphOf(layout, graph) && !IsPrivate(layout, LOBBY)
    ensures PrivateRoomsAreBypassed(layout, graph)
  {
    forall id, l, m | IsPrivate(layout, id) && l in graph.Links(id) && m in graph.Links(id)
      ensures l.room == m.room
    {
      DefaultLinks(layout, graph, id, l);
      DefaultLinks(layout, graph, id, m);
    }
  }

  lemma DefaultTownIsWellBuilt(layout: TownLayout, graph: RoomGraph)
    requires IsDefaultTown(layout) && IsGraphOf(layout, graph)
    ensures IsWellBuilt(layout, graph)
  {
    forall r, w | w in graph.Links(r)
      ensures IsWellBuiltDoor(layout.RoomBoundsMap(), r, w)
    {
      DefaultLinks(layout, graph, r, w);
      SpokeIsWellBuilt(r, w);
    }
  }

  lemma SpokeIsWellBuilt(r: RoomId, w: Waypoint)
    requires IsSpokeLink(r, w)
    ensures IsWellBuiltDoor(DefaultTown().RoomBoundsMap(), r, w)
  {
    DefaultDoorsBridge(if r == LOBBY then w.room else r);
    DefaultBounds();
  }

  /** In the default town, with a common cafe, checking only the target is enough exactly when the lobby is not private
      to another startup. */
  lemma DefaultTownTargetCheck(layout: TownLayout, graph: RoomGraph, startup: StartupId)
    requires IsDefaultTown(layout) && IsGraphOf(layout, graph) && !IsForeign(layout, startup, "cafe")
    ensures TargetCheckSuffices(layout, graph, startup) <==> !IsForeign(layout, startup, LOBBY)
  {
    DefaultTownIsWellBuilt(layout, graph);
    TargetCheckSufficesExactly(layout, graph, startup);
    if IsForeign(layout, startup, LOBBY) {
      CafeAndLibrary(layout, graph);
    } else {
      forall p, l, m | IsForeign(layout, startup, p) && l in graph.Links(p) && m in graph.Links(p)
        ensures l.room == m.room
      {
        DefaultLinks(layout, graph, p, l);
        DefaultLinks(layout, graph, p, m);
      }
    }
  }

  /** The library and the cafe are joined by the lobby and not by a door. */
  lemma CafeAndLibrary(layout: TownLayout, graph: RoomGraph)
    requires layout.doors == DefaultTown().doors && IsGraphOf(layout, graph)
    ensures Waypoint("library", Tile(20, 8)) in graph.Links(LOBBY)
    ensures Waypoint("cafe", Tile(20, 4)) in graph.Links(LOBBY)
    ensures !Linked(graph, "library", "cafe")
  {
    DefaultLinks(layout, graph, LOBBY, Waypoint("library", Tile(20, 8)));
    DefaultLinks(layout, graph, LOBBY, Waypoint("cafe", Tile(20, 4)));
    if w :| w in graph.Links("library") && w.room == "cafe" {
      DefaultLinks(layout, graph, "library", w);
    }
  }

  // ---------------------------------------------------------------- every run of the default town

  /** A claim that names a suite, as founding a startup makes it. */
  predicate ClaimsASuite(cmd: MoveCmd) {
    cmd.InsertAvatars? && cmd.claim.Some? ==> cmd.claim.value.0 != LOBBY
  }

  /** A run from the default town with a common lobby stays in such a town. */
  lemma {:induction false} StaysDefaultTown(graph: RoomGraph, trace: seq<MoveState>, cmds: seq<MoveCmd>, i: nat)
    requires IsMoveRun(graph, trace, cmds) && i < |trace|
    requires IsDefaultTown(trace[0].layout) && !IsPrivate(trace[0].layout, LOBBY)
    requires forall j :: 0 <= j < |cmds| ==> ClaimsASuite(cmds[j])
    ensures IsDefaultTown(trace[i].layout) && !IsPrivate(trace[i].layout, LOBBY)
  {
    if i > 0 {
      StaysDefaultTown(graph, trace, cmds, i - 1);
      assert RunStep(graph, trace, cmds, i - 1) && ClaimsASuite(cmds[i - 1]);
      OwnershipKeepsTown(graph, trace[i - 1], cmds[i - 1], trace[i]);
    }
  }

  lemma OwnershipKeepsTown(graph: RoomGraph, s: MoveState, cmd: MoveCmd, s': MoveState)
    requires MoveNext(graph, s, cmd, s') && ClaimsASuite(cmd)
    requires IsDefaultTown(s.layout) && !IsPrivate(s.layout, LOBBY)
    ensures IsDefaultTown(s'.layout) && !IsPrivate(s'.layout, LOBBY)
  {
    match cmd
    case InsertAvatars(_, claim) =>
      if claim.Some? {
        OwnershipKeepsDefaultTown(s.layout, claim.value.0, claim.value.1);
        ClaimFindsRoom(s.layout.rooms, claim.value.0, claim.value.1, LOBBY);
      }
    case ReleaseSuite(owner) =>
      OwnershipKeepsDefaultTown(s.layout, "", owner);
      ReleaseFindsRoom(s.layout.rooms, owner, LOBBY);
    case _ =>
  }

  /** Over any run of the default town, a room that an agent enters is private to another startup exactly if that one
      claimed it while the agent was already on its way, and the claim stands. */
  lemma DefaultTownForeignEntry(graph: RoomGraph, trace: seq<MoveState>, cmds: seq<MoveCmd>, i: nat, a: AgentId)
    returns (p: nat)
    requires IsMoveRun(graph, trace, cmds) && i < |cmds| && IsGraphOf(trace[0].layout, graph)
    requires IsDefaultTown(trace[0].layout) && !IsPrivate(trace[0].layout, LOBBY)
    requires forall j :: 0 <= j < |cmds| ==> ClaimsASuite(cmds[j])
    requires a in trace[i].avatars && a in trace[i + 1].avatars && a != OPERATOR_AVATAR_ID
    requires trace[i + 1].avatars[a].room != trace[i].avatars[a].room
    ensures IsLastPlan(trace, cmds, i, a, p)
    ensures IsForeign(trace[i].layout, trace[i].avatars[a].startup, trace[i + 1].avatars[a].room) <==>
              IsClaimedAgainst(cmds, p, i, trace[i + 1].avatars[a].room, trace[i].avatars[a].startup)
  {
    forall q: nat | IsLastPlan(trace, cmds, i, a, q)
      ensures IsBypassed(trace[q].layout, graph, trace[i].avatars[a].startup)
    {
      StaysDefaultTown(graph, trace, cmds, q);
      DoorsStay(graph, trace, cmds, q);
      DefaultTownHasDeadEnds(trace[q].layout, graph);
      PrivateImpliesBypassed(trace[q].layout, graph, trace[i].avatars[a].startup);
    }
    p := ForeignEntryExactly(graph, trace, cmds, i, a);
  }

  const MOVER: AgentId := "mover"

  /** A visitor in the lobby, one tile from the door of suite 1. */
  function Visitor(): Avatar {
    Avatar("visitor", Engineer, Tile(8, 4), None, LOBBY, Idle)
  }

  function IntoSuite(): seq<Step> {
    [Step(Tile(7, 4), Some("suite_1")), Step(Tile(6, 4), None)]
  }

  function ThroughSuiteDoor(): seq<Waypoint> {
    [Waypoint("suite_1", Tile(7, 4))]
  }

  lemma SuiteDoorIsShortest(graph: RoomGraph)
    requires IsGraphOf(DefaultTown(), graph)
    ensures IsShortestChain(graph, LOBBY, ThroughSuiteDoor(), "suite_1")
  {
    DefaultLinks(DefaultTown(), graph, LOBBY, ThroughSuiteDoor()[0]);
    assert IsLinkAt(graph, LOBBY, ThroughSuiteDoor(), 0);
  }

  lemma SuiteIsTwoStepsAway()
    requires Bridged(DefaultTown().RoomBoundsMap(), LOBBY, Tile(8, 4), ThroughSuiteDoor(), Tile(6, 4))
    ensures TakesSteps(DefaultTown().RoomBoundsMap(), LOBBY, Tile(8, 4), ThroughSuiteDoor(), Tile(6, 4), 2)
  {
    DefaultBounds();
    SuiteDoorTiles();
    OneDoorTakes(DefaultTown().RoomBoundsMap(), LOBBY, Tile(8, 4), ThroughSuiteDoor()[0], Tile(6, 4), Tile(7, 4),
                 Tile(6, 4));
  }

  lemma SuiteDoorTiles()
    ensures AdjacentInside(Bounds(0, 0, 7, 6), Tile(7, 4)) == Some(Tile(6, 4))
    ensures AdjacentInside(Bounds(7, 4, 26, 4), Tile(7, 4)) == Some(Tile(7, 4))
  {
    assert Around(Tile(7, 4))[0] == Tile(6, 4);
  }

  lemma IntoSuiteIsPlan(graph: RoomGraph)
    requires IsGraphOf(DefaultTown(), graph)
    ensures IsPlan(DefaultTown(), graph, LOBBY, Tile(8, 4), "suite_1", Tile(6, 4), ThroughSuiteDoor(), IntoSuite())
  {
    var bounds := DefaultTown().RoomBoundsMap();
    DefaultBounds();
    SuiteDoorIsShortest(graph);
    DefaultChainsBridge(DefaultTown(), graph, LOBBY, Tile(8, 4), "suite_1", Tile(6, 4), ThroughSuiteDoor());
    SuiteIsTwoStepsAway();
    assert IntoSuite()[..1][..0] == [];
    assert Crossings(IntoSuite()) == ["suite_1"];
    assert Survivors(bounds, LOBBY, Tile(8, 4), ThroughSuiteDoor(), 0) == [];
    assert Survivors(bounds, LOBBY, Tile(8, 4), ThroughSuiteDoor(), 1) == ["suite_1"];
    var tiles := [Tile(8, 4)] + Tiles(IntoSuite());
    assert tiles == [Tile(8, 4), Tile(7, 4), Tile(6, 4)];
    assert IsStep(tiles, 1) && IsStep(tiles, 2);
  }

  function Started(): Avatar {
    Visitor().(target := Some(Tile(6, 4)))
  }

  function Standing(layout: TownLayout): MoveState {
    MoveState(map[MOVER := Visitor()], map[], layout)
  }

  function OnTheWay(layout: TownLayout): MoveState {
    MoveState(map[MOVER := Started()], map[MOVER := IntoSuite()], layout)
  }

  function Entered(layout: TownLayout): MoveState {
    MoveState(map[MOVER := Started().(pos := Tile(7, 4), room := "suite_1")], map[MOVER := IntoSuite()[1..]], layout)
  }

  /** A run in which the visitor asks for the free suite, another startup claims it, and the visitor's next step takes
      it in. */
  function ClaimedOnTheWay(town: TownLayout): seq<MoveState> {
    var claimed := ClaimSuite(town, "suite_1", "owner");
    [Standing(town), OnTheWay(town), OnTheWay(claimed), Entered(claimed)]
  }

  function ClaimOnTheWay(): seq<MoveCmd> {
    [RequestMove(MOVER, "suite_1", Tile(6, 4)), InsertAvatars(map[], Some(("suite_1", "owner"))), MoveCmd.Tick]
  }

  lemma VisitorSetsOut(graph: RoomGraph, town: TownLayout)
    requires CanEnter(town, "visitor", "suite_1")
    requires IsPlan(town, graph, LOBBY, Tile(8, 4), "suite_1", Tile(6, 4), ThroughSuiteDoor(), IntoSuite())
    ensures MoveNext(graph, Standing(town), ClaimOnTheWay()[0], OnTheWay(town))
  {
    var s, s' := Standing(town), OnTheWay(town);
    assert s'.queues == s.queues[MOVER := IntoSuite()] && s'.avatars == s.avatars[MOVER := Started()];
    PlanIsAStep(graph, s, MOVER, "suite_1", Tile(6, 4), ThroughSuiteDoor(), IntoSuite(), s');
  }

  lemma SuiteIsFree()
    ensures CanEnter(DefaultTown(), "visitor", "suite_1")
  {}

  lemma OwnerClaims(graph: RoomGraph, town: TownLayout)
    ensures MoveNext(graph, OnTheWay(town), ClaimOnTheWay()[1], OnTheWay(ClaimSuite(town, "suite_1", "owner")))
  {
    assert OnTheWay(town).avatars + map[] == OnTheWay(town).avatars;
  }

  lemma VisitorSteps(graph: RoomGraph, town: TownLayout)
    ensures MoveNext(graph, OnTheWay(town), ClaimOnTheWay()[2], Entered(town))
  {
    var s := OnTheWay(town);
    assert AvatarsStepped(s.avatars, s.queues) == Entered(town).avatars;
    assert QueuesStepped(s.avatars, s.queues) == Entered(town).queues;
  }

  lemma ThreeStepsAreARun(graph: RoomGraph, trace: seq<MoveState>, cmds: seq<MoveCmd>)
    requires |cmds| == 3 && |trace| == 4 && MoveInit(trace[0])
    requires MoveNext(graph, trace[0], cmds[0], trace[1]) && MoveNext(graph, trace[1], cmds[1], trace[2])
    requires MoveNext(graph, trace[2], cmds[2], trace[3])
    ensures IsMoveRun(graph, trace, cmds)
  {
    forall i | 0 <= i < |cmds|
      ensures RunStep(graph, trace, cmds, i)
    {
      assert i == 0 || i == 1 || i == 2;
    }
  }

  lemma ClaimIsARun(graph: RoomGraph, town: TownLayout)
    requires CanEnter(town, "visitor", "suite_1")
    requires IsPlan(town, graph, LOBBY, Tile(8, 4), "suite_1", Tile(6, 4), ThroughSuiteDoor(), IntoSuite())
    ensures IsMoveRun(graph, ClaimedOnTheWay(town), ClaimOnTheWay())
  {
    VisitorSetsOut(graph, town);
    OwnerClaims(graph, town);
    VisitorSteps(graph, ClaimSuite(town, "suite_1", "owner"));
    ThreeStepsAreARun(graph, ClaimedOnTheWay(town), ClaimOnTheWay());
  }

  /** In this run of the default town an agent enters a room private to another startup. */
  lemma VisitorEntersClaimedSuite(graph: RoomGraph)
    requires IsGraphOf(DefaultTown(), graph)
    ensures var trace := ClaimedOnTheWay(DefaultTown());
            && IsMoveRun(graph, trace, ClaimOnTheWay())
            && trace[2].avatars[MOVER].room == LOBBY && trace[3].avatars[MOVER].room == "suite_1"
            && IsForeign(trace[2].layout, trace[2].avatars[MOVER].startup, "suite_1")
  {
    IntoSuiteIsPlan(graph);
    SuiteIsFree();
    ClaimIsARun(graph, DefaultTown());
    ClaimFindsRoom(DefaultTown().rooms, "suite_1", "owner", "suite_1");
  }

  /** Rooms of the default town do not overlap. */
  lemma RoomsAreDisjoint(a: RoomId, b: RoomId, t: Tile)
    requires InRoom(a, t) && InRoom(b, t)
    ensures a == b
  {
    DefaultBounds();
  }

  /** When a walk misses its target room in the default town the avatar is left standing outside the room it is
      recorded in, where every later request is refused. */
  lemma MissedRoomStrands(layout: TownLayout, graph: RoomGraph, agent: AgentId, room: RoomId, target: Tile,
                          avatars0: map<AgentId, Avatar>, queues0: map<AgentId, seq<Step>>,
                          avatars: map<AgentId, Avatar>, queues: map<AgentId, seq<Step>>,
                          wps: seq<Waypoint>, queue: seq<Step>)
    requires IsDefaultTown(layout) && IsGraphOf(layout, graph)
    requires PlannedFor(layout, graph, agent, room, target, avatars0, queues0, avatars, queues, wps, queue)
    requires RoomAfter(avatars0[agent].room, queue) != room
    ensures var (avatars', queues') := Ticks(avatars, queues, |queue|);
            Stranded(MoveState(avatars', queues', layout), agent)
  {
    var av := avatars0[agent];
    assert InRoom(av.room, av.pos) && InRoom(room, target);
    if queue == [] {
      RoomsAreDisjoint(av.room, room, target);
    }
    MoveTakesItsQueue(layout, graph, agent, room, target, avatars0, queues0, avatars, queues, wps, queue);
    TicksAlongQueue(avatars, queues, agent, |queue|);
    var end := Ticks(avatars, queues, |queue|).0[agent];
    if InRoom(end.room, end.pos) {
      RoomsAreDisjoint(end.room, room, target);
    }
  }

  /** Over any run of the default town: a walk that misses its target room leaves the agent, once it is over, where it
      can never be moved again. */
  lemma MissedRoomStrandsForever(graph: RoomGraph, trace: seq<MoveState>, cmds: seq<MoveCmd>, p: nat, j: nat, k: nat,
                                 a: AgentId, start: Avatar, wps: seq<Waypoint>, queue: seq<Step>)
    requires IsMoveRun(graph, trace, cmds) && p < j <= k <= |cmds|
    requires IsDefaultTown(trace[p].layout) && IsDefaultTown(trace[j].layout) && IsGraphOf(trace[p].layout, graph)
    requires AcceptedAt(graph, trace, cmds, p, a, wps, queue) && queue != []
    requires a in trace[p].avatars && start == trace[p].avatars[a] && RoomAfter(start.room, queue) != cmds[p].room
    requires IsLeftAlone(trace, cmds, a, p + 1, j) && TicksBetween(cmds, p + 1, j) >= |queue|
    requires forall m: nat :: j <= m <= k ==> IsPresent(trace, a, m)
    ensures a in trace[k].avatars && Stranded(trace[k], a)
    ensures trace[k].avatars[a].pos == cmds[p].target && trace[k].avatars[a].room == RoomAfter(start.room, queue)
  {
    MoveInAnyRun(graph, trace, cmds, p, j, a, wps, queue);
    assert IsPresent(trace, a, k);
    TargetIsInside(trace[p].layout, graph, start, cmds[p].room, cmds[p].target, wps, queue);
    if InRoom(RoomAfter(start.room, queue), cmds[p].target) {
      RoomsAreDisjoint(RoomAfter(start.room, queue), cmds[p].room, cmds[p].target);
    }
    forall m | j <= m <= k
      ensures a in trace[m].avatars
    {
      assert IsPresent(trace, a, m);
    }
    StrandedForever(graph, trace, cmds, j, k, a);
  }

  lemma TargetIsInside(layout: TownLayout, graph: RoomGraph, start: Avatar, room: RoomId, target: Tile,
                       wps: seq<Waypoint>, queue: seq<Step>)
    requires IsDefaultTown(layout) && IsPlan(layout, graph, start.room, start.pos, room, target, wps, queue)
    ensures InRoom(room, target)
  {}

  /** Concretely: an agent standing in the lobby on the door tile of suite 1 that asks to move into the suite is
      accepted, walks there, and is still recorded in the lobby. */
  lemma DoorTileMoveMissesItsRoom(layout: TownLayout, graph: RoomGraph, wps: seq<Waypoint>, queue: seq<Step>)
    requires IsDefaultTown(layout) && IsGraphOf(layout, graph)
    ensures !HasNoRoute(layout, graph, LOBBY, Tile(7, 4), "suite_1", Tile(3, 2), wps)
    ensures IsPlan(layout, graph, LOBBY, Tile(7, 4), "suite_1", Tile(3, 2), wps, queue) ==>
      RoomAfter(LOBBY, queue) != "suite_1"
  {
    DefaultBounds();
    DefaultTownAlwaysRoutes(layout, graph, LOBBY, Tile(7, 4), "suite_1", Tile(3, 2), wps);
    if IsPlan(layout, graph, LOBBY, Tile(7, 4), "suite_1", Tile(3, 2), wps, queue) {
      DefaultTownArrival(layout, graph, LOBBY, Tile(7, 4), "suite_1", Tile(3, 2), wps, queue);
    }
  }
}
