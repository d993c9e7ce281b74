# A verified model of Cliptown's world

Cliptown runs startups staffed by command-line agents in a small town. A world server, written in Rust, keeps a relational
state (startups, agents, tasks, skills) and an in-memory one (avatars, walks, worker channels) behind one serialized command
loop; TypeScript adapters and a browser console sit around it. This project models the parts of that system that hold state
machines, searches, protocols and parsers, and proves what they promise.

SQL tables are maps, a SQL statement is one atomic step that succeeds, clocks, freshly minted ids and the outcome of calls
into the operating system are parameters, and `f64` is `real`. Code that changes things step by step is a method on a class
with the fields it changes; the results over whole runs are lemmas about the functions and step relations that the methods
are proved against.

| files | what they model |
|---|---|
| `search.dfy`, `path.dfy`, `seed.dfy`, `state.dfy`, `move_sys.dfy`, `movement.dfy`, `arrival.dfy`, `privacy.dfy`, `corridor.dfy`, `town.dfy` | room and tile search, routes across doors, queues of steps, every run of moves and ticks, where moves end, private rooms, two small towns in which moves go wrong, the default town |
| `task_sm.dfy`, `db.dfy`, `lifecycle.dfy`, `mcp_dispatch.dfy`, `cmd_console.dfy`, `deadlines.dfy`, `scheduler.dfy`, `tick_rules.dfy`, `tick_run.dfy` | the task state machine, everything that changes a task row, overdue deadlines, the scheduler tick, what it does in the columns' own terms, and its place in the runs of tasks and of movement |
| `utf8.dfy`, `view.dfy`, `ws.dfy` | chunked snapshots cut at UTF-8 boundaries (RFC 3629) and reassembled in any order |
| `framing.dfy`, `sse_client.dfy`, `codex_parser.dfy`, `event_mapper.dfy` | streams that arrive in pieces: server-sent events (section 9.2.6 of the WHATWG HTML standard), JSON lines, opencode events |
| `skills.dfy`, `store.dfy`, `replica.dfy` | skills tables, the frames they broadcast, and the console's copy of them |
| `agent_supervisor.dfy`, `worker_supervisor.dfy` | watch loops interleaved with dissolving a startup; the respawn loop inside a worker |
| `budget.dfy` | costs, spending, thresholds and the scheduler's gate |

## Where the code differs from what it says

- A move is documented to end in its target room. `start_move` drops the first step together with the room transition it
  carries (crates/world/src/move_sys.rs:133-135), and a transition is also dropped when two consecutive doors share a tile.
  `Movement.ArrivalRoom` says for any layout and any chain of doors when the target room is reached. Where doors have
  different tiles and no two join the same rooms, it is missed if and only if the agent starts on the tile of a door from
  its room to the target (`Arrival.ArrivalByDoors`; `Town.DefaultTownArrival` for the default town).
  `Town.DoorTileMoveMissesItsRoom` and `Corridor.SharedTileMissesItsRoom` are inputs for the two causes, and
  `Town.MissedRoomStrandsForever` shows what follows in any run: the agent stands outside the room it is recorded in and
  every later move of it is refused.
- A move to the room and tile where the agent already is is said to lead to no event (crates/world/src/move_sys.rs:138-142).
  During a walk it only clears the target: the older walk goes on and reports its completion (`Movement.RequestForOwnTile`;
  `Movement.MoveInAnyRun` holds across such requests).
- Only the target room of a move is checked against private rooms, so a walk may pass through another startup's suite:
  `Corridor.VisitorEntersPrivateRoom` is a town and a move that does. The check is enough if and only if, wherever such a
  suite lies between two rooms of which the second may be entered, these two are linked directly
  (`Privacy.TargetCheckSufficesExactly`, a condition on the layout); in the default town that is so as long as the lobby is
  not private (`Town.DefaultTownTargetCheck`). Ownership is checked when a walk is planned and not again when a room is
  entered: a room that an agent enters is private to another startup if and only if that one claimed it after the walk was
  planned and the claim stands (`Privacy.ForeignEntryExactly`). `Town.VisitorEntersClaimedSuite` is such a run.
- A tombstone is said to be cleared by the watch loop it concerns. It is left behind if and only if it was set when that
  loop had no check ahead of it and none has followed (`AgentSupervisor.LeftOverExactly`); `AgentSupervisor.LeakIsReachable`
  gives a run. Startups mint fresh ids, and then it stays for ever (`AgentSupervisor.LeftOverForever`). Only the scheduler's
  per-task mode spawns an id again (crates/world/src/scheduler.rs:304); a loop that meets the leftover there gets no retry
  (`AgentSupervisor.RetriesUnlessStale`, `AgentSupervisor.StaleIsReachable`).
- The console's skill list is meant to follow the tables, but its reducer ignores the frames of reverts, of the operator's
  upserts and of the global flag. `Replica.ReplicaAgreesExactly` says for every run when the console agrees nevertheless:
  what the last frame that set a row showed of length, flag and time must be what the last ignored operation on each of them
  left. `Replica.RevertIsMissed` and `Replica.InsertionIsMissed` are runs after which they disagree.
- Auto-recovery accepts any tolerance from 1 on (crates/world/src/cmd_console.rs:678-682), but a row escalates when changes
  are asked for after its third round, so a startup that tolerates more than three rounds never has a row recovered
  (`TickRun.MoreThanThreeNeverRecover`; `TickRun.RecoveredByRequests` is the exact condition).
- The worker's supervisor is said to give up after three consecutive failures; it gives up after one failure more than it
  has backoff entries (`WorkerSupervisor.DeadExactly`), so not after three with the default three entries
  (`WorkerSupervisor.ThreeFailuresAreNotDead`).
- The codex parser is written to skip lines it cannot use, but a line holding the JSON value `null` raises an exception that
  nothing catches, and the hooks of the lines before it in the same chunk are lost. `CodexParser.SessionIsDetermined` says
  that a session comes to its end if and only if it has no such line, and `CodexParser.RaisedHandsOut` which hooks were
  handed out before; `CodexParser.NullLosesHooks` is an output that loses a hook in one piece and keeps it in two. The
  opencode mapper raises on `null` as well, but there the adapter turns it into one last error hook
  (`EventMapper.StreamIsDetermined`).

## Model

| member | source | states |
|---|---|---|
| `Search.AStar` | crates/world/src/path.rs:50-63 | a best-first search with a consistent heuristic returns a path with the fewest nodes, and none exactly when there is none |
| `Search.PathMeetsFrontier` | crates/world/src/path.rs:97-112 | every path to an unexpanded node crosses the frontier at a node already reached as cheaply |
| `Search.Expand` | crates/world/src/path.rs:97-112 | relaxing the edges of the first frontier node keeps the search invariant; expanded nodes are final |
| `Path.FromDoors` | crates/world/src/path.rs:29-42 | the links of every room are those its doors give it, in door order |
| `Path.DoorLinksMember` | crates/world/src/path.rs:31-40 | a link exists if and only if a door joins the two rooms at that tile, usable from both sides |
| `Path.Route` | crates/world/src/path.rs:46-80 | a chain of doors through the fewest rooms, each room entered by its first listed door; none if and only if the rooms are not connected |
| `Path.NoEarlierDoor` | crates/world/src/path.rs:66-80 | among the links of the room a chain leaves, no earlier one leads to the same next room |
| `Path.ShortestChainIsSimple` | crates/world/src/path.rs:46-80 | a shortest chain visits no room twice |
| `Path.TilePath` | crates/world/src/path.rs:86-114 | a result if and only if both ends are in bounds, and then a 4-connected walk inside the room with Manhattan distance plus one tiles |
| `Path.WalkIsLong` | crates/world/src/path.rs:110-110 | no 4-connected walk at all is shorter than that |
| `Path.AdjacentInsideComplete` | crates/world/src/path.rs:120-135 | the bridging tile is found whenever some inside tile is on or next to the door |
| `Path.CrossDoor` | crates/world/src/path.rs:162-182 | one segment ends with the door tile, exactly once, and is as short as possible, and the next room is entered at its bridging tile; it fails exactly when bounds or bridging tiles are missing or the traveller is outside |
| `Path.FullRoute` | crates/world/src/path.rs:143-189 | a route exists if and only if the rooms are connected and the chain found can be bridged, and then it is a direct walk segment by segment along a shortest chain |
| `Path.StepsAreDetermined` | crates/world/src/path.rs:143-189 | the number of steps that a walk along a chain of doors takes is determined by layout, chain and end tiles; in one room it is the Manhattan distance |
| `Seed.ReleaseFindsRoom` | crates/world/src/loop_.rs:274-279 | releasing a startup's suites changes the owner of exactly its rooms |
| `Seed.ClaimFindsRoom` | crates/world/src/loop_.rs:265-271 | claiming a suite changes the owner of exactly the room of that name |
| `Seed.BoundedIffFound` | crates/world/src/seed.rs:64-70 | the rooms with bounds are the rooms that can be looked up |
| `Seed.OwnershipKeepsBounds` | crates/world/src/loop_.rs:261-279 | claiming and releasing suites never changes a room's bounds |
| `MoveSys.GraphFromLayout` | crates/world/src/move_sys.rs:46-58 | the graph has exactly the layout's doors as links |
| `MoveSys.AppendSegment` | crates/world/src/move_sys.rs:117-130 | one segment is appended without a repeated tile and only its last tile carries the transition |
| `MoveSys.BuildSteps` | crates/world/src/move_sys.rs:107-135 | the queue is the segments one after the other, without a tile twice in a row and without the avatar's own, each segment's last tile carrying the transition |
| `MoveSys.QueueIsPlan` | crates/world/src/move_sys.rs:107-135 | for a route along a shortest chain that queue is a 4-connected walk from the avatar to the target, of exactly the number of steps the chain takes, that enters, in order, exactly the rooms whose transition is not lost |
| `MoveSys.PlanExists` | crates/world/src/move_sys.rs:107-135 | every shortest chain that can be bridged has a walk that the planning may return |
| `MoveSys.StartMove` | crates/world/src/move_sys.rs:76-145 | the result for every branch, the stored walk and target of an accepted move, and that a refused one changes nothing |
| `MoveSys.StepAll` | crates/world/src/move_sys.rs:151-190 | whatever the iteration order, every walking avatar makes its own next step; one completion for each walk that ends and no other |
| `Movement.ArrivalRoom` | crates/world/src/move_sys.rs:107-135 | a walk ends in its target room if and only if it crosses no door or the transition of its last door is not lost |
| `Arrival.ArrivalByDoors` | crates/world/src/move_sys.rs:107-135 | in any layout whose doors have different tiles and join different pairs of rooms: a walk ends in its target room if and only if it stays in one room or does not start on the tile of a door from its room to the target |
| `Movement.TicksAlongQueue` | crates/world/src/move_sys.rs:151-190 | after k ticks an agent has made the first k steps of its queue |
| `Movement.ArrivesOnce` | crates/world/src/move_sys.rs:176-183 | completion is reported by the tick of the last step and no other, with the room reached |
| `Movement.MoveTakesItsQueue` | crates/world/src/move_sys.rs:76-190 | in consecutive ticks an accepted move of n steps moves one 4-connected tile per tick, completes once, and ends on the target tile without a target |
| `Movement.MoveInAnyRun` | crates/world/src/loop_.rs:177-287 | in any run, whatever other agents, startups and the scheduler do in between: an accepted move of n steps completes at exactly the n-th tick after it, and until a request of its own stores another walk the agent then stands on the target tile without a target, in the target room exactly when its last transition was not lost; requests that are refused, or accepted without a walk, do not change that |
| `Movement.RequestForOwnTile` | crates/world/src/move_sys.rs:136-144 | a request for the room and the tile an agent stands on, inside a room it may enter, is accepted and changes nothing but its target, which goes: a walk under way is kept |
| `Movement.ReachableWalksAreBacked` | crates/world/src/loop_.rs:177-287 | in every reachable state an agent's target is backed by a stored non-empty walk from where it stands to that target |
| `Movement.WalksBackedPreserved` | crates/world/src/loop_.rs:177-287 | every command keeps that: ticks, requested moves, inserted and dissolved startups, changes of status |
| `Movement.StrandedForever` | crates/world/src/move_sys.rs:97-105 | an agent that stands outside its recorded room without a walk never moves again |
| `Privacy.InteriorIsCommon` | crates/world/src/move_sys.rs:62-93 | an interior room of a shortest chain is not private where the neighbours of private rooms are linked directly |
| `Privacy.ChainKeepsOut` | crates/world/src/move_sys.rs:62-93 | where other startups' suites are bypassed, no room of a shortest chain to an allowed target is one of them |
| `Privacy.BypassedExactly` | crates/world/src/move_sys.rs:62-93 | no shortest chain to an allowed room passes through another startup's suite if and only if, wherever such a suite lies between two rooms of which the second may be entered, these are linked directly |
| `Privacy.PrivateBypassedExactly` | crates/world/src/move_sys.rs:62-93 | no shortest chain at all passes through a private room if and only if any two different neighbours of a private room are linked directly |
| `Privacy.WalkAllowedExactly` | crates/world/src/move_sys.rs:91-131 | in any town, for one chain found: the walk enters only rooms open to the startup if and only if every room on the chain whose transition fires is open |
| `Privacy.PlannedEntriesAllowed` | crates/world/src/move_sys.rs:62-93 | where that condition on the layout holds, the check of the target suffices for the whole walk |
| `Privacy.TargetCheckSufficesExactly` | crates/world/src/move_sys.rs:91-93 | in a town whose doors can be bridged and whose rooms have more than one tile: checking only the target keeps every possible walk out of other startups' suites if and only if these are bypassed |
| `Privacy.OwnerAfter` | crates/world/src/loop_.rs:261-279 | the owner after any stretch of commands is the one whose claim stands, and otherwise the owner before or nobody |
| `Privacy.ForeignExactly` | crates/world/src/loop_.rs:261-279 | over any stretch of a run, a room open to a startup becomes private to another one if and only if that one claims it, with no later claim of the room and no release of the claimant |
| `Privacy.ForeignEntryExactly` | crates/world/src/move_sys.rs:151-174 | in any run, with claims and releases: an agent enters a room on the walk it stored last, and if other startups' rooms were bypassed when that was planned, the room is private to another startup if and only if that one claimed it after the planning and the claim stands |
| `Privacy.NoForeignEntry` | crates/world/src/move_sys.rs:151-174 | so no run without new claims moves an agent into a room private to another startup |
| `Corridor.VisitorEntersPrivateRoom` | crates/world/src/move_sys.rs:91-93 | a town and a move that passes the check of its target, is not refused, and whose every walk enters a room private to another startup |
| `Corridor.SharedTileMissesItsRoom` | crates/world/src/move_sys.rs:117-130 | a town whose two doors share a tile and a move in it that is allowed, not refused, and whose every walk ends outside the target room |
| `Town.DefaultLinks` | crates/world/src/seed.rs:42-61 | the links of the default town join the lobby with each other room by that room's door, and nothing else |
| `Town.DefaultTownIsConnected` | crates/world/src/seed.rs:42-61 | any two rooms are connected |
| `Town.DefaultTownAlwaysRoutes` | crates/world/src/seed.rs:42-61 | no move between in-bounds tiles lacks a route, whatever shortest chain is found |
| `Town.DefaultTownSendsAgents` | crates/world/src/scheduler.rs:672-681 | the scheduler's request for a required room the startup may enter is planned, not refused, for an agent that stands in its recorded room |
| `Town.DefaultTownArrival` | crates/world/src/move_sys.rs:133-135 | a walk misses its target room exactly when it crosses one door and starts on that door's tile |
| `Town.DefaultTownHasDeadEnds` | crates/world/src/seed.rs:43-59 | while the lobby is common, private rooms of the default town are bypassed |
| `Town.DefaultTownTargetCheck` | crates/world/src/move_sys.rs:91-93 | in the default town with a common cafe the check of the target suffices if and only if the lobby is not private to another startup |
| `Town.StaysDefaultTown` | crates/world/src/loop_.rs:261-279 | claims of suites and releases keep every reachable layout the default town with a common lobby |
| `Town.DefaultTownForeignEntry` | crates/world/src/move_sys.rs:151-174 | over every run of the default town a room that an agent enters is private to another startup if and only if that one claimed it after the walk was planned and the claim stands |
| `Town.VisitorEntersClaimedSuite` | crates/world/src/move_sys.rs:151-174 | a run of the default town: a request for a free suite, a claim of it by another startup, two ticks, and the agent enters it |
| `Town.MissedRoomStrands` | crates/world/src/move_sys.rs:133-135 | a missed target room leaves the agent outside its recorded room |
| `Town.MissedRoomStrandsForever` | crates/world/src/move_sys.rs:97-135 | over any run: once a walk that misses its target room is over, the agent never moves again |
| `Town.DoorTileMoveMissesItsRoom` | crates/world/src/move_sys.rs:133-135 | a concrete move that is accepted and misses its room |
| `Lifecycle.ReachableRowsOk` | crates/world/src/mcp_dispatch.rs:591-646 | in every reachable state: rounds at most 3, 0 before review, exactly 3 when escalated; the canonical artifact once submitted; assignees of the own startup; proposals unassigned |
| `Lifecycle.AllRowsOkPreserved` | crates/world/src/mcp_dispatch.rs:963-1026 | every event on a row and every insertion keeps that |
| `Lifecycle.RankFalls` | crates/world/src/task_sm.rs:62-88 | a rank falls with every change of status except a recovery, which raises it by at most 7 |
| `Lifecycle.BoundedStatusChanges` | crates/world/src/task_sm.rs:62-88 | a row changes status at most 11 times plus 8 times per recovery |
| `Lifecycle.NoShortcuts` | crates/world/src/task_sm.rs:62-88 | no row is in progress, in review, sent back, done or escalated without having been queued and handed out before, and none of the last four without having been submitted after that |
| `Lifecycle.RoundsAreRequests` | crates/world/src/mcp_dispatch.rs:963-1026 | the round of a row is the number of times that changes were asked for since the row was last in the queue |
| `Lifecycle.TerminalStays` | crates/world/src/task_sm.rs:62-88 | done, failed and escalated are never left, except from escalated to failed |
| `Lifecycle.DispatchedBlockerStaysTerminal` | crates/world/src/scheduler.rs:124-159 | a task that a row waits for at any time before its dispatch, with no setting of its blocker in between, is terminal in every state from the dispatch on, also when the scheduler cleared the blocker on an earlier tick |
| `Lifecycle.AssigneeKeepsRole` | crates/world/src/scheduler.rs:476-506 | once assigned, a row always has an assignee of its startup with the same role, through manual steal, auto-steal and recovery |
| `Lifecycle.RowsStepAll` | crates/world/src/scheduler.rs:104-359 | rows that each make one step, none of them coming to rest, can make their steps one after the other |
| `TaskSm.FinalExactly` | crates/world/src/task_sm.rs:62-88 | a status admits no transition but the creation of another task if and only if it is done or failed |
| `Db.ArtifactPathsDiffer` | crates/world/src/mcp_dispatch.rs:591-646 | no two tasks share a canonical artifact path, if startup ids hold no slash |
| `McpDispatch.TaskDone` | crates/world/src/mcp_dispatch.rs:567-689 | accepted exactly when caller, path, checks and status allow; then one submission with the canonical artifact and an idle caller; refused without a change |
| `McpDispatch.TaskFailed` | crates/world/src/mcp_dispatch.rs:691-732 | accepted exactly for the assignee and a status not done or failed; one step to failed |
| `McpDispatch.CreateSubtask` | crates/world/src/mcp_dispatch.rs:734-843 | one new row, queued with the chosen assignee for the parent's assignee, a proposal for anyone else; otherwise the error of the first check that fails |
| `McpDispatch.AcceptTask` | crates/world/src/mcp_dispatch.rs:845-907 | accepted exactly from awaiting review in the caller's startup, for a subtask by the assignee of its parent, for a root task by its assignee's recorded manager; the row is then done and nothing else changes |
| `McpDispatch.CreatorMayAccept` | crates/world/src/mcp_dispatch.rs:260-292 | over any run, whoever is the assignee of a subtask's parent, as its creator was, can accept it in every state in which it awaits review |
| `McpDispatch.AskForChanges` | crates/world/src/mcp_dispatch.rs:909-1058 | accepted for the same caller or for a flagged peer who is not the assignee; the round is incremented, or the row escalates from round 3 on; otherwise the error of the first check that fails |
| `McpDispatch.AcceptProposed` | crates/world/src/mcp_dispatch.rs:1060-1124 | the parent's assignee turns a proposal into a queued row assigned within the startup |
| `McpDispatch.RejectProposed` | crates/world/src/mcp_dispatch.rs:1126-1163 | the parent's assignee rejects a proposal |
| `McpDispatch.SetBlocking` | crates/world/src/mcp_dispatch.rs:1770-1876 | the parent's assignee or, for a root task, the assignee's manager, and the assignee itself, set or clear the blocker, never to the row itself, and the deadline, whose report is then forgotten; otherwise the error of the first check that fails |
| `McpDispatch.StealTask` | crates/world/src/mcp_dispatch.rs:1894-2000 | accepted exactly for an idle caller of the assignee's role; only the assignee changes |
| `McpDispatch.RowChangedIsStep` | crates/world/src/mcp_dispatch.rs:567-2000 | a handler that changes one row makes one step of the lifecycle |
| `McpDispatch.RowInsertedIsStep` | crates/world/src/mcp_dispatch.rs:734-843 | and so does one that inserts a row |
| `CmdConsole.ApplyStatusOnly` | crates/world/src/cmd_console.rs:795-826 | one transition of the state machine, or no change |
| `CmdConsole.OperatorAcceptProposal` | crates/world/src/cmd_console.rs:200-262 | an operator's acceptance of a proposal, and which refusal each failing check gives |
| `CmdConsole.OperatorRejectProposal` | crates/world/src/cmd_console.rs:264-285 | an operator's rejection |
| `CmdConsole.OperatorAcceptReview` | crates/world/src/cmd_console.rs:287-332 | a forced acceptance, only from awaiting review and without a foreign lock |
| `CmdConsole.OperatorFailTask` | crates/world/src/cmd_console.rs:334-380 | a forced failure from any status but done and failed |
| `CmdConsole.CreateTask` | crates/world/src/api_tasks.rs:50-173 | the administrative insertion: queued with an assignee of the startup, a proposal without |
| `Scheduler.HandOver` | crates/world/src/scheduler.rs:233-358 | row, avatar and channel change together when the frame is sent, and not at all when it is not |
| `Scheduler.DispatchOne` | crates/world/src/scheduler.rs:105-359 | one row against all gates in order, with its exact effect on all four tables: the agent in the wrong room is sent by one requested move, the one that passes gets the task |
| `Scheduler.RowIsMove` | crates/world/src/scheduler.rs:161-191 | what one row does to avatars and walks is one requested move, one change of status, or nothing |
| `Scheduler.GatesAreStable` | crates/world/src/scheduler.rs:105-231 | when a row is reached the gates read as they did when the tick began, except that agents given a task are no longer idle |
| `Scheduler.RowStepped` | crates/world/src/scheduler.rs:105-359 | handling one row extends the loop's invariant to it |
| `Scheduler.DispatchLoop` | crates/world/src/scheduler.rs:104-359 | the state after the loop, in terms of the state before it, the count of rows won, and that avatars and walks were changed by requested moves and status changes only |
| `Scheduler.DispatchConserves` | crates/world/src/scheduler.rs:104-359 | the returned count, the rows turned in progress, the agents turned working and the channels written to are equally many |
| `Scheduler.FramesMatchTasks` | crates/world/src/scheduler.rs:315-332 | each such channel gained exactly the frame of the row its agent started |
| `Scheduler.DispatchIsWorkConserving` | crates/world/src/scheduler.rs:104-359 | a row is dispatched if and only if it is the first eligible one of an agent whose channel has room, and every such agent gets one |
| `Scheduler.LosersStayQueued` | crates/world/src/scheduler.rs:340-357 | a row that fails a gate or a send stays queued, and an agent that cannot be sent to keeps its status |
| `TickRules.DispatchedExactly` | crates/world/src/scheduler.rs:104-359 | without the model's own gates: a queued row goes in progress if and only if no earlier row of its agent does, the agent is idle and in the required room, the blocker is absent, gone, done, failed or escalated, less than 95% of the cap is spent, and the channel is open with room; when the blocker's column is cleared; nothing else changes |
| `TickRules.BlockedRowStays` | crates/world/src/scheduler.rs:124-159 | while the blocker has one of the other five statuses the row does not change at all |
| `TickRules.OtherRowsStay` | crates/world/src/scheduler.rs:65-103 | neither does a row that is not queued or has no assignee and startup that can be found |
| `TickRules.WrongRoomSendsWalking` | crates/world/src/scheduler.rs:161-191 | a row of an idle, unblocked agent in another room requests a move to the centre of the required room, unless the agent walks already or the room does not exist; no other row touches walks |
| `TickRules.WalksAreKept` | crates/world/src/scheduler.rs:161-191 | the dispatch loop changes no walk in flight |
| `TickRules.NewWalksLeadToTasks` | crates/world/src/scheduler.rs:161-191 | every walk that is new after the dispatch loop is planned for an idle agent from where it stands to the centre of another room, which a queued task of its own requires |
| `Scheduler.DispatchIsLifecycle` | crates/world/src/scheduler.rs:118-250 | what the loop does to each row is one event of the lifecycle |
| `Scheduler.AutoStealPass` | crates/world/src/scheduler.rs:440-551 | exactly the stale queued rows of opted-in startups whose assignee is not idle and has an idle peer move to such a peer |
| `TickRules.StolenExactly` | crates/world/src/scheduler.rs:440-551 | a row is stolen if and only if it is queued, stale, of an opted-in startup, its assignee known and not idle, and somebody else of the startup with that role idle; it then waits for one such agent |
| `Scheduler.AutoRecoveryPass` | crates/world/src/scheduler.rs:562-670 | exactly the rows past the tolerated rounds with an idle peer go back to the queue of one, with round 0 |
| `TickRules.RecoveredExactly` | crates/world/src/scheduler.rs:562-670 | a row is recovered if and only if changes are requested, its startup has opted in and its round is at least the startup's tolerance, its assignee is known, and somebody else of the startup with that role is idle; it is then queued for one such agent at round 0 |
| `Scheduler.HandOverIsLifecycle` | crates/world/src/scheduler.rs:476-506 | either pass makes a steal or recovery between peers of one startup and role |
| `Scheduler.Tick` | crates/world/src/scheduler.rs:65-430 | the dispatch loop, then the deadline scan, stealing and recovery, each on the state the one before left; for movement the whole is a stretch of requested moves and status changes |
| `Deadlines.DeadlineTable.Scan` | crates/world/src/scheduler.rs:361-399 | every overdue open row that was not reported for its deadline is reported once and stamped, and no other |
| `Deadlines.ScanExactly` | crates/world/src/scheduler.rs:361-399 | a task is reported if and only if it is neither done nor failed nor escalated and its deadline has passed without having been reported since it was set; each once, and just these are stamped |
| `Deadlines.ReportedExactlyOnce` | crates/world/src/scheduler.rs:361-399 | from the setting of a deadline to the next, whatever the clock does, exactly the first scan that finds the open task overdue reports it |
| `TickRun.TickIsTaskRun` | crates/world/src/scheduler.rs:65-430 | while avatars mirror agents, a whole tick is a stretch of lifecycle events |
| `TickRun.TickContinuesTaskRun` | crates/world/src/scheduler.rs:65-430 | so a run of the lifecycle goes on across a tick |
| `TickRun.RecoveredByRequests` | crates/world/src/scheduler.rs:562-670 | after any run a tick recovers a row with requested changes if and only if the startup has opted in, changes were asked for at least as often as it tolerates since the row was last in the queue, and after dispatch another agent with the role is idle |
| `TickRun.MoreThanThreeNeverRecover` | crates/world/src/scheduler.rs:562-670 | a startup that tolerates more than three rounds never has a row recovered |
| `TickRun.ReachableMirrors` | crates/world/src/loop_.rs:177-287 | whatever commands and actions follow each other, avatars stay in agreement with the startup and role of their agents |
| `TickRun.TickKeepsTargetsBacked` | crates/world/src/loop_.rs:177-205 | after the scheduler's half of a tick targets are backed by stored walks as before |
| `TickRun.TickContinuesRun` | crates/world/src/loop_.rs:177-205 | both halves of a tick continue a run of movement |
| `Utf8.CutAtBoundary` | crates/world/src/view.rs:113-122 | cutting well-formed text before a non-continuation byte leaves two well-formed texts |
| `Utf8.BoundaryNearby` | crates/world/src/view.rs:116-121 | a boundary lies at most three bytes before any position |
| `Utf8.DecodeEncoded` | crates/world/src/view.rs:105-122 | decoding an encoded sequence of characters gives it back (RFC 3629, section 3) |
| `Utf8.EncodeDecoded` | crates/world/src/view.rs:105-122 | encoding a decoded text gives it back, so the well-formed texts are exactly the encodings |
| `View.WindowEnd` | crates/world/src/view.rs:115-121 | a window always advances, never exceeds the limit, and loses at most three bytes unless it is the last |
| `View.ChunkSnapshot` | crates/world/src/view.rs:93-136 | numbered frames with the right total whose payloads concatenate to the text, each well-formed and within the limit |
| `View.ReassembleChunking` | crates/world/src/view.rs:147-161 | reassembling gives the text back |
| `View.DecodedPayloads` | crates/world/src/view.rs:105-122 | the characters of the text are those of the payloads decoded one by one |
| `Ws.ConsoleClient.HandleChunk` | packages/frontend/src/ws.ts:165-202 | the buffers after a frame and what it delivers, for any frame; buffers stay within bounds |
| `Ws.Pigeonhole` | packages/frontend/src/ws.ts:184-188 | as many distinct in-range indices as the total are all of them, so the default for a missing part is never used |
| `Ws.DeliveredWithLastMissingPart` | packages/frontend/src/ws.ts:165-202 | in any order, interleaving and repetition, exactly the frame with the last missing index delivers, and it delivers the parts in index order |
| `Ws.RunsKeepBuffersOk` | packages/frontend/src/ws.ts:172-189 | no run of frames, well-behaved or not, leaves a full or out-of-range buffer |
| `Ws.TransportDelivers` | packages/frontend/src/ws.ts:165-202 | sender and client together: the client gets exactly the characters of the snapshot |
| `Framing.CutResumes` | packages/adapters/opencode/src/sse_client.ts:47-52 | cutting at a delimiter can be resumed from the remainder, even when the delimiter itself is split |
| `Framing.FedIsCut` | packages/adapters/opencode/src/sse_client.ts:47-52 | however a text arrives in pieces, the same parts are cut off and the same remainder is kept |
| `Framing.CutLosesNothing` | packages/adapters/opencode/src/sse_client.ts:50-52 | parts and remainder make up the text, and no delimiter is left in the remainder |
| `Framing.CutGlued` | packages/adapters/opencode/src/sse_client.ts:50-52 | frames glued with delimiters are cut back into themselves |
| `SseClient.ExtractDataPayload` | packages/adapters/opencode/src/sse_client.ts:68-79 | the values of the data lines joined by newlines, or nothing without a data line |
| `SseClient.FrameIsRead` | packages/adapters/opencode/src/sse_client.ts:68-79 | a frame written with data fields, with or without a space after the colon, between any other lines has as its payload the values of the data fields, one per line, and none without such a field |
| `SseClient.Subscription.Receive` | packages/adapters/opencode/src/sse_client.ts:47-60 | one read yields the parsed payloads of the frames it completes, in order, and keeps the remainder |
| `SseClient.YieldIgnoresChunking` | packages/adapters/opencode/src/sse_client.ts:47-60 | what is yielded and kept depends only on the concatenated text |
| `SseClient.PayloadRoundTrip` | packages/adapters/opencode/src/sse_client.ts:68-79 | the payload of an encoded frame is the payload it was made from, newlines included |
| `SseClient.StreamRoundTrip` | packages/adapters/opencode/src/sse_client.ts:47-79 | a stream of encoded payloads, cut anywhere, yields exactly the payloads that parse and leaves nothing over |
| `CodexParser.Parser.ParseLine` | packages/adapters/codex/src/event_parser.ts:96-133 | the hook and usage of one line, or the exception that a `null` line raises |
| `CodexParser.Parser.ParseChunk` | packages/adapters/codex/src/event_parser.ts:38-48 | the state after the completed lines, the kept partial line and the hooks handed out; when a line raises, the hooks before it are numbered but lost |
| `CodexParser.Parser.Finalize` | packages/adapters/codex/src/event_parser.ts:60-79 | the unfinished line, then one session hook with the next number, unless that line raises |
| `CodexParser.RunIgnoresChunking` | packages/adapters/codex/src/event_parser.ts:38-48 | whether a stream raises depends only on the concatenated output, and so do hooks, usage and carry of one that does not |
| `CodexParser.RaisedHandsOut` | packages/adapters/codex/src/event_parser.ts:38-48 | a stream that raises has handed out the hooks of exactly the lines that were complete before the chunk that raises |
| `CodexParser.LogIsOfLines` | packages/adapters/codex/src/event_parser.ts:96-133 | the log holds one hook for each line that starts or ends a command or a tool call and for no other, in order and numbered 1, 2, ...: a pre hook for a start, a post hook for an end, with the payload and the tool; the usage is the sum over all completed turns |
| `CodexParser.SessionIsDetermined` | packages/adapters/codex/src/event_parser.ts:38-79 | however the stream is cut: the session comes to its end if and only if no line is `null`, and then has these hooks of its lines, one more that tells how the process exited, and the summed usage |
| `CodexParser.NullLosesHooks` | packages/adapters/codex/src/event_parser.ts:38-48 | a line with a hook and a `null` line: both ways of cutting the output raise, at once without the hook, line by line with it |
| `EventMapper.Mapper.MapEvent` | packages/adapters/opencode/src/event_mapper.ts:77-171 | the state after one event and the hooks it hands out; it raises exactly on `null` |
| `EventMapper.Mapper.Consume` | packages/adapters/opencode/src/index.ts:160-185 | the events up to the first `null` are mapped, which ends the stream with one error hook; the hooks handed out are those in the log |
| `EventMapper.StepKeepsCallOk` | packages/adapters/opencode/src/event_mapper.ts:121-170 | every event keeps each call in order and its tracker in agreement with the hooks handed out |
| `EventMapper.CallsAreInOrder` | packages/adapters/opencode/src/event_mapper.ts:77-171 | each call gets at most one pre and one post hook, the post after the pre, and gets them if and only if some event reported it running or ended, or ended |
| `EventMapper.HooksReportFirstDue` | packages/adapters/opencode/src/event_mapper.ts:130-168 | each hook carries the tool and the input or outcome of the first event that made it due |
| `EventMapper.NumberedAndSummed` | packages/adapters/opencode/src/event_mapper.ts:81-112 | hooks are numbered without gaps and the usage is the sum over the step-finish parts with tokens, cache and reasoning tokens included |
| `EventMapper.StopsAreIdles` | packages/adapters/opencode/src/event_mapper.ts:81-90 | a session is reported as stopped once for each time that it is found idle |
| `EventMapper.StreamIsDetermined` | packages/adapters/opencode/src/index.ts:160-185 | hooks are numbered without gaps and the usage is that of the events up to the first `null`; there is an error hook if and only if there is a `null`, exactly one, and it comes last |
| `EventMapper.StreamKeepsCallsInOrder` | packages/adapters/opencode/src/index.ts:160-185 | whether or not the stream breaks off, each call has its hooks in order, exactly those that the events up to then make due |
| `Skills.SkillStore.UpsertWithAuthor` | crates/world/src/skills.rs:94-152 | a name that is not 1 to 64 letters, digits, hyphens and underscores, or content over 65536 bytes, is refused in that order; otherwise the startup's skill with that name is updated or one is inserted |
| `Skills.SkillStore.HandleUpsert` | crates/world/src/mcp_dispatch.rs:1314-1368 | the upsert and the frame with the listing row after it |
| `Skills.SkillStore.HandleAttach` | crates/world/src/skills.rs:321-361 | skill and agent must exist in the caller's startup; the pair is added |
| `Skills.SkillStore.HandleDetach` | crates/world/src/skills.rs:363-399 | the same checks; the pair is removed |
| `Skills.SkillStore.HandleDelete` | crates/world/src/skills.rs:401-423 | an owned skill goes with all its attachments |
| `Skills.SkillStore.HandleRevert` | crates/world/src/mcp_dispatch.rs:1722-1762 | an owned skill gets a stored revision's content; the frame carries no row |
| `Skills.SkillStore.HandleOperatorUpsert` | crates/world/src/cmd_console.rs:429-452 | the upsert by an operator who is a manager, whose frame carries no row; anyone else is refused |
| `Skills.SkillStore.HandleSetGlobal` | crates/world/src/cmd_console.rs:457-485 | an administrator sets the global flag of an existing skill, whose frame carries no row; otherwise not found or forbidden |
| `Skills.SkillStore.ListAllWithAttachments` | crates/world/src/skills.rs:605-650 | exactly the skills of each startup, with their attachments |
| `Skills.CharsAreCounted` | crates/world/src/skills.rs:605-650 | the length in a listing is the number of characters of the content |
| `Skills.StepKeepsTablesOk` | crates/world/src/skills.rs:94-423 | every operation keeps the invariant behind `Replica.ReachableTables` |
| `Replica.ReachableTables` | crates/world/src/skills.rs:94-423 | in every state of every run: names are words of at most 64 characters and unique within a startup, contents have at most 65536 bytes, and skills are attached only to agents of their startup |
| `Store.ChangeIsLocal` | packages/frontend/src/store.ts:791-816 | a frame changes the row it names and no other |
| `Store.ByIdFinds` | packages/frontend/src/store.ts:774-790 | the snapshot case files each row under its id |
| `Replica.StepTracks` | packages/frontend/src/store.ts:774-827 | one more frame keeps the console's row in step with the tables where frames have set it and with the snapshot elsewhere, but for length, flag and time, which are those of the last frame that set it |
| `Replica.Frozen` | crates/world/src/mcp_dispatch.rs:1331-1349 | what no frame sets is the same in the tables from the snapshot on, but for content, flag and time |
| `Replica.ReplicaConverges` | packages/frontend/src/store.ts:774-827 | a snapshot taken after any prefix of any run, followed by all frames of the run, ends with exactly the skills of the tables after the last frame that set the row (or of the snapshot), with their present attachments, each once; length, flag and time are those of that moment |
| `Replica.FieldIsOfLastTouch` | crates/world/src/mcp_dispatch.rs:1722-1762 | while no frame sets a row, the content, flag and time of a skill are each what the last operation behind an ignored frame left, or unchanged without one |
| `Replica.PresentByTouch` | crates/world/src/cmd_console.rs:429-452 | and a skill that was absent is there exactly if such a frame has named it |
| `Replica.ReplicaAgreesExactly` | packages/frontend/src/store.ts:791-816 | after any run, operator operations included, the console agrees with the tables about a skill if and only if, since the last frame that set its row (or the snapshot), the last ignored operation on each of length, flag and time left what the row shows or there was none; a skill without a row must not have been named by one |
| `Replica.RevertIsMissed` | packages/frontend/src/store.ts:791-816 | a run after which the console disagrees |
| `Replica.InsertionIsMissed` | crates/world/src/cmd_console.rs:429-452 | a run after which the console lacks a skill the operator inserted |
| `AgentSupervisor.Supervisor.AfterExit` | crates/world/src/agent_supervisor.rs:193-235 | the loop after its child has exited: tombstone, clean exit, alert or backoff |
| `AgentSupervisor.Supervisor.AfterSleep` | crates/world/src/agent_supervisor.rs:237-242 | the loop after its backoff |
| `AgentSupervisor.Supervisor.CollectTargets` | crates/world/src/agent_supervisor.rs:278-287 | dissolving collects exactly the agents that the map holds under the startup |
| `AgentSupervisor.StepKeepsSysOk` | crates/world/src/agent_supervisor.rs:128-317 | every step of every loop and of dissolving keeps the invariant of all loops |
| `AgentSupervisor.LoopsAreBounded` | crates/world/src/agent_supervisor.rs:191-260 | at most one child more than retries; the alert at most once, exactly on the failure after the last retry; after its tombstone is set no further child, or one if it was set between the last check and the start; an agent in the map if and only if its loop is alive |
| `AgentSupervisor.UntouchedLoopsUseAllRetries` | crates/world/src/agent_supervisor.rs:191-260 | a loop that no tombstone concerns ends with a clean exit or with the alert |
| `AgentSupervisor.LoopsTerminate` | crates/world/src/agent_supervisor.rs:191-260 | between two spawns a loop makes a bounded number of steps under any interleaving |
| `AgentSupervisor.LoopsProgress` | crates/world/src/agent_supervisor.rs:191-260 | a live loop can always go on once its child exits |
| `AgentSupervisor.MarkedWasDissolved` | crates/world/src/agent_supervisor.rs:278-291 | in every run an agent is marked only if the startup under which the map held it was dissolved before |
| `AgentSupervisor.OthersAreSafe` | crates/world/src/agent_supervisor.rs:278-291 | so a loop whose startup is never dissolved, under an id spawned for no other startup, is never marked and never ends as dissolved |
| `AgentSupervisor.DissolvedIsMarked` | crates/world/src/agent_supervisor.rs:278-291 | every agent that the map holds under a startup when this is dissolved stays due to be marked until it is marked |
| `AgentSupervisor.MarkedOncePerDissolution` | crates/world/src/agent_supervisor.rs:278-291 | in every run an agent is marked at most once for each time that the startup holding it is dissolved, and what is missing is still due |
| `AgentSupervisor.LeftOverExactly` | crates/world/src/agent_supervisor.rs:191-317 | in every run a tombstone is left over if and only if it was set when its loop had no check ahead and no check has followed since |
| `AgentSupervisor.LeftOverForever` | crates/world/src/api_startups.rs:180-277 | if the id is never spawned again it stays for ever |
| `AgentSupervisor.LeakIsReachable` | crates/world/src/agent_supervisor.rs:278-291 | a leftover tombstone is reachable |
| `AgentSupervisor.RetriesUnlessStale` | crates/world/src/agent_supervisor.rs:193-235 | an unmarked loop retries after a failure if and only if it met no leftover tombstone |
| `AgentSupervisor.StaleIsReachable` | crates/world/src/scheduler.rs:281-304 | if the id is spawned again, as per-task workers are, a loop that meets a leftover tombstone is reachable |
| `WorkerSupervisor.Supervisor.Start` | packages/worker/src/supervisor.ts:58-96 | the loop ends with the first clean or stopped attempt, or gives up |
| `WorkerSupervisor.LoopIsDetermined` | packages/worker/src/supervisor.ts:58-96 | the first attempt that is stopped, exits with 0 and no signal, is followed by a stop, or has no retry left decides the ending, the number of attempts and the error reported |
| `WorkerSupervisor.DeadExactly` | packages/worker/src/supervisor.ts:78-88 | it gives up if and only if one attempt more than there are retries has failed unstopped, and reports the last error |
| `WorkerSupervisor.ThreeFailuresAreNotDead` | packages/worker/src/supervisor.ts:16-17 | with three backoff entries, three failures and a clean fourth attempt end well |
| `Budget.CostIsAdditive` | crates/world/src/budget.rs:37-71 | reporting tokens in two parts costs as much as at once, and a million tokens in or out cost the model's price in the table, an unknown model nothing |
| `Budget.CrossingIsClimbing` | crates/world/src/budget.rs:84-100 | a threshold is reported if and only if spending climbs to a higher rung, and it is that rung's |
| `Budget.Ledger.ApplyReport` | crates/world/src/budget.rs:109-167 | spending, event row and threshold of one report; the worker's own figure counts if it is finite and not negative, otherwise its tokens; an unknown startup changes nothing |
| `Budget.SpendIsConserved` | crates/world/src/budget.rs:109-167 | spending equals its start plus the cost of all reports, and the event rows add up to the same |
| `Budget.ThresholdsRise` | crates/world/src/budget.rs:84-100 | over any reports the thresholds rise strictly, each at most once, a jump reporting only the highest |
| `Budget.GateFollowsThresholds` | crates/world/src/scheduler.rs:193-209 | the scheduler's gate is closed if and only if spending began at 95% or Warn95 or Pause100 was reported |
| `Budget.NoCapNoThreshold` | crates/world/src/budget.rs:84-87 | without a positive cap nothing is reported and the gate stays open |

## Left out

- SQL failures, transactions, audit trails, system events, messages and time columns: every statement succeeds, and the
  staleness that auto-steal reads from `updated_at` is a parameter.
- Per-task workers (`CLIPTOWN_PER_TASK_WORKERS`): the tick is modelled with long-running workers and their channels, and the
  supervisor with one watch loop per agent at a time; an id may be spawned again once its loop is done.
- MoveSys.StepAll: the order in which agents and events are visited is arbitrary, as the hash map's is.
- Path.Route: which of several shortest chains is taken is left open, because the search library is not part of this model;
  the results hold for all of them.
- Path.FullRoute: the case of one room is the loop over no doors. Coordinates are unbounded integers.
- Movement.StrandedForever: being refused is for the movement requests of workers and the scheduler; nothing else moves an
  agent.
- Scheduler.Tick: the order of the queued rows and of the overdue ones is the query's, whatever it is; frames to a worker
  are reduced to the row they announce.
- View.ChunkSnapshot: `u32` counters do not wrap, and the serializer is outside the model, so its output is taken to be
  well-formed UTF-8. The console connection does not send chunks yet.
- Ws.ConsoleClient.HandleChunk: texts are sequences of characters, indices are integers, and JSON parsing of the delivered
  text is outside; reconnecting is left out.
- SseClient.Subscription.Receive: network bytes are already decoded to characters; aborting is left out.
- CodexParser.Parser.ParseLine: JSON parsing is an abstract function of the line; timestamps are left out, and so is what
  becomes of a worker process after the exception.
- EventMapper.Mapper.MapEvent: trackers are values in a map that is reassigned.
- EventMapper.Mapper.Consume: aborting a session, errors of the connection and finishing it are left out.
- Replica.ReplicaConverges: the tables of revisions and files are left out, with the revision found as a parameter, and so
  are malformed frames; `len` is the number of characters, and the operations are serialized.
- AgentSupervisor.LoopsTerminate: signals and processes are outside; that a child exits is an assumption, and backoff and
  grace are only the order of steps.
- Budget.Ledger.ApplyReport: rounding of `f64` is out; the frames that warn or pause workers are left out.
- Members that would add nothing hard: self review, peer directives, proximity, health, presence, backups, metrics,
  authentication, the sandbox, and the user interface.
