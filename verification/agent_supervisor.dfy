/** The world-side supervisor of worker processes: one watch loop per agent, each a task of its own, interleaved with
    the tombstones that dissolving a startup sets. */
module AgentSupervisor {
  import opened Wrappers

  type AgentId = string
  type StartupId = string

  datatype AgentEntry = AgentEntry(pid: nat, startup: StartupId)

  /** Where a watch loop stands. `Waiting(true)` waits on a child whose exit was already seen, after a
      respawn failed. */
  datatype Pc = Waiting(reaped: bool) | Exited(success: bool) | Sleeping | Respawning | Registering | Leaving | Done

  datatype Ending = Dissolved | Clean | Dead

  /** A watch loop: its own variables, and the history that the properties speak of: the children started, the
      `worker_dead` alerts raised, whether a tombstone was there before it, where the loop stood when one was first set
      during its life, and the children started since then. */
  datatype Loop = Loop(startup: StartupId, pc: Pc, child: nat, failures: nat,
                       started: nat, alerts: seq<nat>, ending: Option<Ending>,
                       stale: bool, marked: Option<Pc>, startedSince: nat)

  /** The shared map and set, the watch loops, and the targets that a running dissolve has still to mark. */
  datatype Sys = Sys(agents: map<AgentId, AgentEntry>, tombstones: set<AgentId>, loops: map<AgentId, Loop>,
                     targets: multiset<AgentId>)

  datatype Event =
    | Spawn(id: AgentId, startup: StartupId, pid: nat)
    | ChildExits(id: AgentId, success: bool)
    | Judge(id: AgentId)
    | Wake(id: AgentId)
    | Respawned(id: AgentId, pid: nat)
    | RespawnFailed(id: AgentId)
    | Register(id: AgentId)
    | Leave(id: AgentId)
    | DissolveStartup(startup: StartupId)
    | SetTombstone(id: AgentId)

  predicate At(s: Sys, id: AgentId, pc: Pc) {
    id in s.loops && s.loops[id].pc == pc
  }

  predicate Alive(s: Sys, id: AgentId) {
    id in s.loops && s.loops[id].pc != Done
  }

  /** The event can happen. An agent is spawned only while no loop watches it; a child that was already reaped yields
      its failure again. */
  predicate Enabled(s: Sys, e: Event) {
    match e
    case Spawn(id, _, _) => !Alive(s, id)
    case ChildExits(id, success) => At(s, id, Waiting(false)) || (At(s, id, Waiting(true)) && !success)
    case Judge(id) => At(s, id, Exited(true)) || At(s, id, Exited(false))
    case Wake(id) => At(s, id, Sleeping)
    case Respawned(id, _) => At(s, id, Respawning)
    case RespawnFailed(id) => At(s, id, Respawning)
    case Register(id) => At(s, id, Registering)
    case Leave(id) => At(s, id, Leaving)
    case DissolveStartup(_) => true
    case SetTombstone(id) => id in s.targets
  }

  function With(s: Sys, id: AgentId, loop: Loop): Sys {
    s.(loops := s.loops[id := loop])
  }

  /** The loop has seen its child exit and no tombstone: it stops, raises the alert, or sleeps. */
  function Judged(loop: Loop, retries: nat): Loop
    requires loop.pc.Exited?
  {
    if loop.pc.success then loop.(pc := Leaving, ending := Some(Clean))
    else if loop.failures + 1 > retries then
      loop.(pc := Leaving, failures := loop.failures + 1, ending := Some(Dead),
            alerts := loop.alerts + [loop.failures + 1])
    else loop.(pc := Sleeping, failures := loop.failures + 1)
  }

  /** The tombstone is there: the loop takes it and stops. */
  function TakenBy(s: Sys, id: AgentId): Sys
    requires id in s.loops
  {
    With(s, id, s.loops[id].(pc := Leaving, ending := Some(Dissolved))).(tombstones := s.tombstones - {id})
  }

  function Started(loop: Loop, pid: nat): Loop {
    loop.(pc := Registering, child := pid, started := loop.started + 1,
          startedSince := if loop.marked.Some? then loop.startedSince + 1 else 0)
  }

  function Marked(loop: Loop): Loop {
    if loop.marked.Some? then loop else loop.(marked := Some(loop.pc))
  }

  ghost function Targets(s: Sys, startup: StartupId): set<AgentId> {
    set id | id in s.agents && s.agents[id].startup == startup
  }

  /** One atomic step, with `retries` entries in the backoff schedule. */
  ghost function Next(s: Sys, e: Event, retries: nat): Sys
    requires Enabled(s, e)
  {
    match e
    case Spawn(id, startup, pid) =>
      With(s, id, Loop(startup, Waiting(false), pid, 0, 1, [], None, id in s.tombstones, None, 0))
        .(agents := s.agents[id := AgentEntry(pid, startup)])
    case ChildExits(id, success) => With(s, id, s.loops[id].(pc := Exited(success)))
    case Judge(id) => if id in s.tombstones then TakenBy(s, id) else With(s, id, Judged(s.loops[id], retries))
    case Wake(id) => if id in s.tombstones then TakenBy(s, id) else With(s, id, s.loops[id].(pc := Respawning))
    case Respawned(id, pid) => With(s, id, Started(s.loops[id], pid))
    case RespawnFailed(id) => With(s, id, s.loops[id].(pc := Waiting(true)))
    case Register(id) =>
      var loop := s.loops[id];
      var t := With(s, id, loop.(pc := Waiting(false)));
      if id in s.agents then t.(agents := s.agents[id := s.agents[id].(pid := loop.child)]) else t
    case Leave(id) => With(s, id, s.loops[id].(pc := Done)).(agents := s.agents - {id})
    case DissolveStartup(startup) => s.(targets := s.targets + multiset(Targets(s, startup)))
    case SetTombstone(id) =>
      var t := s.(tombstones := s.tombstones + {id}, targets := s.targets - multiset{id});
      if Alive(s, id) then With(t, id, Marked(s.loops[id])) else t
  }

  // ---------------------------------------------------------------- the code, one method per atomic step

  class Supervisor {
    const backoff: seq<nat>
    var agents: map<AgentId, AgentEntry>
    var tombstones: set<AgentId>
    /** The watch tasks. */
    var loops: map<AgentId, Loop>
    ghost var targets: multiset<AgentId>

    constructor (backoff: seq<nat>)
      ensures this.backoff == backoff && State() == Sys(map[], {}, map[], multiset{})
    {
      this.backoff := backoff;
      agents, tombstones, loops, targets := map[], {}, map[], multiset{};
    }

    ghost function State(): Sys
      reads this
    {
      Sys(agents, tombstones, loops, targets)
    }

    /** A child was started: records it and hands it to a new watch task. */
    method SpawnAgent(id: AgentId, startup: StartupId, pid: nat)
      requires Enabled(State(), Spawn(id, startup, pid))
      modifies this
      ensures State() == Next(old(State()), Spawn(id, startup, pid), |backoff|)
    {
      agents := agents[id := AgentEntry(pid, startup)];
      loops := loops[id := Loop(startup, Waiting(false), pid, 0, 1, [], None, id in tombstones, None, 0)];
    }

    method TakeTombstone(id: AgentId) returns (taken: bool)
      modifies this`tombstones
      ensures taken == (id in old(tombstones)) && tombstones == old(tombstones) - {id}
    {
      taken := id in tombstones;
      tombstones := tombstones - {id};
    }

    /** The watch task goes on after its child has exited. */
    method AfterExit(id: AgentId)
      requires Enabled(State(), Judge(id))
      modifies this
      ensures State() == Next(old(State()), Judge(id), |backoff|)
    {
      var loop := loops[id];
      var taken := TakeTombstone(id);
      if taken {
        loops := loops[id := loop.(pc := Leaving, ending := Some(Dissolved))];
        return;
      }
      assert tombstones == old(tombstones);
      if loop.pc.success {
        loops := loops[id := loop.(pc := Leaving, ending := Some(Clean))];
        return;
      }
      loop := loop.(failures := loop.failures + 1);
      if loop.failures > |backoff| {
        loops := loops[id := loop.(pc := Leaving, ending := Some(Dead), alerts := loop.alerts + [loop.failures])];
        return;
      }
      loops := loops[id := loop.(pc := Sleeping)];
    }

    /** The watch task goes on after its backoff. */
    method AfterSleep(id: AgentId)
      requires Enabled(State(), Wake(id))
      modifies this
      ensures State() == Next(old(State()), Wake(id), |backoff|)
    {
      var loop := loops[id];
      var taken := TakeTombstone(id);
      if taken {
        loops := loops[id := loop.(pc := Leaving, ending := Some(Dissolved))];
      } else {
        assert tombstones == old(tombstones);
        loops := loops[id := loop.(pc := Respawning)];
      }
    }

    /** The process of the new child is recorded. */
    method UpdatePid(id: AgentId)
      requires Enabled(State(), Register(id))
      modifies this
      ensures State() == Next(old(State()), Register(id), |backoff|)
    {
      if id in agents {
        agents := agents[id := agents[id].(pid := loops[id].child)];
      }
      loops := loops[id := loops[id].(pc := Waiting(false))];
    }

    method RemoveAgent(id: AgentId)
      requires Enabled(State(), Leave(id))
      modifies this
      ensures State() == Next(old(State()), Leave(id), |backoff|)
    {
      agents := agents - {id};
      loops := loops[id := loops[id].(pc := Done)];
    }

    /** Dissolving a startup begins by collecting its agents. */
    method CollectTargets(startup: StartupId) returns (ids: set<AgentId>)
      modifies this`targets
      ensures forall id :: id in ids <==> id in old(agents) && old(agents)[id].startup == startup
      ensures State() == Next(old(State()), DissolveStartup(startup), |backoff|)
    {
      ids := set id | id in agents && agents[id].startup == startup;
      targets := targets + multiset(ids);
    }

    /** Then it marks them one by one. */
    method MarkTarget(id: AgentId)
      requires Enabled(State(), Event.SetTombstone(id))
      modifies this
      ensures State() == Next(old(State()), Event.SetTombstone(id), |backoff|)
    {
      tombstones := tombstones + {id};
      targets := targets - multiset{id};
      if id in loops && loops[id].pc != Done {
        loops := loops[id := Marked(loops[id])];
      }
    }
  }

  // ---------------------------------------------------------------- what every step keeps

  /** Children and failures keep step; the alert is raised once, on the failure after the last retry, and ends the
      loop. */
  ghost predicate CountsOk(loop: Loop, retries: nat) {
    && 1 <= loop.started <= loop.failures + 1 && loop.failures <= retries + 1
    && (loop.pc == Sleeping || loop.pc == Respawning || loop.failures == retries + 1 ==> loop.started <= loop.failures)
    && loop.alerts == (if loop.failures == retries + 1 then [retries + 1] else [])
    && (loop.failures == retries + 1 <==> loop.ending == Some(Dead))
    && (loop.ending.Some? <==> loop.pc == Leaving || loop.pc == Done)
  }

  /** A tombstone stays until the loop ends; it ends the loop at its next check, so before a second start; and a loop
      that met a leftover one never got beyond its first child. */
  ghost predicate TombstoneOk(loop: Loop, present: bool) {
    && (loop.ending.None? ==> (present <==> loop.marked.Some? || loop.stale))
    && (loop.ending == Some(Dissolved) ==> loop.marked.Some? || loop.stale)
    && loop.startedSince <= (if loop.marked == Some(Respawning) then 1 else 0)
    && (loop.pc == Respawning && loop.marked.Some? ==> loop.marked == Some(Respawning))
    && (loop.startedSince == 1 ==> loop.pc != Sleeping && loop.pc != Respawning)
    && (loop.stale ==> loop.failures == 0)
    && (loop.ending.Some? <==> loop.pc == Leaving || loop.pc == Done)
    && (loop.pc == Sleeping || loop.pc == Respawning ==> loop.failures > 0)
  }

  /** A live loop's agent is in the map, with the process of the child that the loop waits for. */
  ghost predicate MapOk(s: Sys, id: AgentId)
    requires id in s.loops
  {
    var loop := s.loops[id];
    && (loop.pc != Done ==> id in s.agents && s.agents[id].startup == loop.startup)
    && (loop.pc == Waiting(false) ==> s.agents[id].pid == loop.child)
  }

  /** What holds of every watch loop at all times. */
  ghost predicate LoopOk(s: Sys, id: AgentId, retries: nat)
    requires id in s.loops
  {
    CountsOk(s.loops[id], retries) && TombstoneOk(s.loops[id], id in s.tombstones) && MapOk(s, id)
  }

  ghost predicate SysOk(s: Sys, retries: nat) {
    && (forall id :: id in s.loops ==> LoopOk(s, id, retries))
    && forall id :: id in s.agents ==> Alive(s, id)
  }

  /** The agent whose watch loop the event belongs to. */
  ghost function Subject(e: Event): Option<AgentId> {
    match e
    case DissolveStartup(_) => None
    case SetTombstone(_) => None
    case _ => Some(e.id)
  }

  lemma OthersUntouched(s: Sys, e: Event, retries: nat, id: AgentId)
    requires Enabled(s, e) && (e.DissolveStartup? || id != e.id)
    ensures var t := Next(s, e, retries);
            && (id in t.loops <==> id in s.loops) && (id in s.loops ==> t.loops[id] == s.loops[id])
            && (id in t.agents <==> id in s.agents) && (id in s.agents ==> t.agents[id] == s.agents[id])
            && (id in t.tombstones <==> id in s.tombstones)
  {}

  lemma StepKeepsCounts(s: Sys, e: Event, retries: nat)
    requires Enabled(s, e) && Subject(e).Some? && (!e.Spawn? ==> CountsOk(s.loops[e.id], retries))
    ensures CountsOk(Next(s, e, retries).loops[e.id], retries)
  {}

  lemma StepKeepsTombstone(s: Sys, e: Event, retries: nat)
    requires Enabled(s, e) && !e.DissolveStartup? && e.id in s.loops
    requires !e.Spawn? ==> TombstoneOk(s.loops[e.id], e.id in s.tombstones)
    ensures TombstoneOk(Next(s, e, retries).loops[e.id], e.id in Next(s, e, retries).tombstones)
  {}

  lemma StepKeepsMap(s: Sys, e: Event, retries: nat)
    requires Enabled(s, e) && !e.DissolveStartup? && e.id in s.loops && (!e.Spawn? ==> MapOk(s, e.id))
    ensures MapOk(Next(s, e, retries), e.id)
  {}

  lemma StepKeepsLoopOk(s: Sys, e: Event, retries: nat, id: AgentId)
    requires SysOk(s, retries) && Enabled(s, e) && id in Next(s, e, retries).loops
    ensures LoopOk(Next(s, e, retries), id, retries)
  {
    if e.DissolveStartup? || id != e.id {
      OthersUntouched(s, e, retries, id);
      assert LoopOk(s, id, retries);
    } else if id in s.loops {
      assert LoopOk(s, id, retries);
      if Subject(e).Some? {
        StepKeepsCounts(s, e, retries);
      }
      StepKeepsTombstone(s, e, retries);
      StepKeepsMap(s, e, retries);
    }
  }

  lemma StepKeepsSysOk(s: Sys, e: Event, retries: nat)
    requires SysOk(s, retries) && Enabled(s, e)
    ensures SysOk(Next(s, e, retries), retries)
  {
    var t := Next(s, e, retries);
    forall id | id in t.loops
      ensures LoopOk(t, id, retries)
    {
      StepKeepsLoopOk(s, e, retries, id);
    }
    forall id | id in t.agents
      ensures Alive(t, id)
    {
      if e.DissolveStartup? || id != e.id {
        OthersUntouched(s, e, retries, id);
      }
    }
  }

  /** A run: the states before and after each event. */
  ghost predicate IsRun(states: seq<Sys>, events: seq<Event>, retries: nat) {
    && |states| == |events| + 1
    && states[0] == Sys(map[], {}, map[], multiset{})
    && forall i :: 0 <= i < |events| ==> IsStepOf(states, events, retries, i)
  }

  ghost predicate IsStepOf(states: seq<Sys>, events: seq<Event>, retries: nat, i: nat)
    requires |states| == |events| + 1 && i < |events|
  {
    Enabled(states[i], events[i]) && states[i + 1] == Next(states[i], events[i], retries)
  }

  lemma {:induction false} ReachableIsOk(states: seq<Sys>, events: seq<Event>, retries: nat, i: nat)
    requires IsRun(states, events, retries) && i <= |events|
    ensures SysOk(states[i], retries)
  {
    if i > 0 {
      ReachableIsOk(states, events, retries, i - 1);
      assert IsStepOf(states, events, retries, i - 1);
      StepKeepsSysOk(states[i - 1], events[i - 1], retries);
    }
  }

  /** In every interleaving: a loop starts at most one child more than there are retries; it raises the alert at most
      once, on the failure after the last retry; once its tombstone is set it starts no more child, or one if it was
      about to start it; and an agent is in the map exactly while its loop is alive, with the process of the child the
      loop waits for. */
  lemma LoopsAreBounded(states: seq<Sys>, events: seq<Event>, retries: nat, i: nat, id: AgentId)
    requires IsRun(states, events, retries) && i <= |events|
    ensures var s := states[i];
            && (id in s.agents <==> Alive(s, id))
            && (id in s.loops ==>
                  var loop := s.loops[id];
                  && 1 <= loop.started <= 1 + retries
                  && |loop.alerts| <= 1 && (loop.alerts == [retries + 1] <==> loop.ending == Some(Dead))
                  && (loop.failures == retries + 1 <==> loop.ending == Some(Dead))
                  && loop.startedSince <= (if loop.marked == Some(Respawning) then 1 else 0)
                  && (loop.pc == Waiting(false) ==> s.agents[id].pid == loop.child))
  {
    ReachableIsOk(states, events, retries, i);
    if id in states[i].loops {
      assert LoopOk(states[i], id, retries);
    }
  }

  /** A loop that no tombstone concerns gives up only after all retries: it ends with a clean exit or with the alert. */
  lemma UntouchedLoopsUseAllRetries(states: seq<Sys>, events: seq<Event>, retries: nat, i: nat, id: AgentId)
    requires IsRun(states, events, retries) && i <= |events|
    requires id in states[i].loops && states[i].loops[id].pc == Done
    requires states[i].loops[id].marked.None? && !states[i].loops[id].stale
    ensures states[i].loops[id].ending == Some(Clean) ||
            (states[i].loops[id].ending == Some(Dead) && states[i].loops[id].failures == retries + 1)
  {
    ReachableIsOk(states, events, retries, i);
    assert LoopOk(states[i], id, retries);
    match states[i].loops[id].ending.value {
      case Dissolved =>
      case Clean =>
      case Dead =>
    }
  }

  // ---------------------------------------------------------------- termination

  function PcRank(pc: Pc): nat {
    match pc
    case Sleeping => 6
    case Respawning => 5
    case Registering => 4
    case Waiting(_) => 3
    case Exited(_) => 2
    case Leaving => 1
    case Done => 0
  }

  /** A bound on the steps that a loop has left; none once it is done. */
  ghost function Rank(s: Sys, id: AgentId, retries: nat): int {
    if id in s.loops then 7 * (retries + 1 - s.loops[id].failures) + PcRank(s.loops[id].pc) else 0
  }

  ghost predicate IsOwnStep(e: Event, id: AgentId) {
    Subject(e) == Some(id) && !e.Spawn?
  }

  lemma OwnStepUsesRank(s: Sys, e: Event, retries: nat)
    requires Enabled(s, e) && !e.DissolveStartup? && IsOwnStep(e, e.id) && CountsOk(s.loops[e.id], retries)
    ensures Rank(Next(s, e, retries), e.id, retries) < Rank(s, e.id, retries)
  {}

  lemma MarkKeepsRank(s: Sys, id: AgentId, retries: nat)
    requires Enabled(s, SetTombstone(id))
    ensures Rank(Next(s, SetTombstone(id), retries), id, retries) == Rank(s, id, retries)
  {}

  /** A step of the loop itself uses up rank; nothing else gives it any, except a new spawn. */
  lemma RankFalls(s: Sys, e: Event, retries: nat, id: AgentId)
    requires SysOk(s, retries) && Enabled(s, e) && !(e.Spawn? && e.id == id)
    ensures Rank(Next(s, e, retries), id, retries) <= Rank(s, id, retries) - (if IsOwnStep(e, id) then 1 else 0)
  {
    if e.DissolveStartup? || id != e.id {
      OthersUntouched(s, e, retries, id);
    } else if e.SetTombstone? {
      MarkKeepsRank(s, id, retries);
    } else {
      assert LoopOk(s, id, retries);
      OwnStepUsesRank(s, e, retries);
    }
  }

  /** How many steps the loop makes from state `i` to state `j`. */
  ghost function OwnSteps(events: seq<Event>, id: AgentId, i: nat, j: nat): nat
    requires i <= j <= |events|
  {
    if i == j then 0 else OwnSteps(events, id, i, j - 1) + (if IsOwnStep(events[j - 1], id) then 1 else 0)
  }

  /** Between two spawns of an agent its loop makes a bounded number of steps, however they interleave with anything
      else. */
  lemma {:induction false} LoopsTerminate(states: seq<Sys>, events: seq<Event>, retries: nat, i: nat, j: nat,
                                          id: AgentId)
    requires IsRun(states, events, retries) && i <= j <= |events|
    requires forall k :: i <= k < j ==> !(events[k].Spawn? && events[k].id == id)
    ensures OwnSteps(events, id, i, j) + Rank(states[j], id, retries) <= Rank(states[i], id, retries)
    ensures OwnSteps(events, id, i, j) <= 7 * (retries + 1) + 6
    decreases j
  {
    RankIsBounded(states, events, retries, i, id);
    RankIsBounded(states, events, retries, j, id);
    if i < j {
      LoopsTerminate(states, events, retries, i, j - 1, id);
      ReachableIsOk(states, events, retries, j - 1);
      assert IsStepOf(states, events, retries, j - 1);
      RankFalls(states[j - 1], events[j - 1], retries, id);
    }
  }

  lemma RankIsBounded(states: seq<Sys>, events: seq<Event>, retries: nat, i: nat, id: AgentId)
    requires IsRun(states, events, retries) && i <= |events|
    ensures 0 <= Rank(states[i], id, retries) <= 7 * (retries + 1) + 6
  {
    ReachableIsOk(states, events, retries, i);
    if id in states[i].loops {
      assert LoopOk(states[i], id, retries);
    }
  }

  /** A loop that is not done can always go on, if its child exits. */
  lemma LoopsProgress(s: Sys, id: AgentId)
    requires Alive(s, id)
    ensures exists e :: IsOwnStep(e, id) && Enabled(s, e)
  {
    var e := match s.loops[id].pc
      case Waiting(_) => ChildExits(id, false)
      case Exited(_) => Judge(id)
      case Sleeping => Wake(id)
      case Respawning => RespawnFailed(id)
      case Registering => Register(id)
      case Leaving => Leave(id)
      case Done => Leave(id);
    assert IsOwnStep(e, id) && Enabled(s, e);
  }

  // ---------------------------------------------------------------- who is marked

  /** Event `d` dissolves the startup under which the map holds the agent. */
  ghost predicate IsDissolvedAt(states: seq<Sys>, events: seq<Event>, id: AgentId, d: nat)
    requires |states| == |events| + 1 && d < |events|
  {
    && events[d].DissolveStartup? && id in states[d].agents
    && states[d].agents[id].startup == events[d].startup
  }

  /** Only agents of a startup that was dissolved while the map held them under it are due to be marked. */
  lemma {:induction false} TargetWasDissolved(states: seq<Sys>, events: seq<Event>, retries: nat, i: nat, id: AgentId)
    returns (d: nat)
    requires IsRun(states, events, retries) && i <= |events| && id in states[i].targets
    ensures d < i && IsDissolvedAt(states, events, id, d)
  {
    assert i > 0;
    assert IsStepOf(states, events, retries, i - 1);
    if id in states[i - 1].targets {
      d := TargetWasDissolved(states, events, retries, i - 1, id);
    } else {
      d := i - 1;
    }
  }

  /** In every run an agent is marked only if the startup under which the map held it was dissolved before. */
  lemma MarkedWasDissolved(states: seq<Sys>, events: seq<Event>, retries: nat, j: nat, id: AgentId) returns (d: nat)
    requires IsRun(states, events, retries) && j < |events| && events[j] == SetTombstone(id)
    ensures d < j && IsDissolvedAt(states, events, id, d)
  {
    assert IsStepOf(states, events, retries, j);
    d := TargetWasDissolved(states, events, retries, j, id);
  }

  /** Before state `i` the id is spawned for this startup only, and the startup is not dissolved. */
  ghost predicate IsSafeIn(events: seq<Event>, id: AgentId, startup: StartupId, i: nat) {
    forall k :: 0 <= k < i && k < |events| ==>
      events[k] != DissolveStartup(startup) && (events[k].Spawn? && events[k].id == id ==> events[k].startup == startup)
  }

  lemma {:induction false} HeldUnder(states: seq<Sys>, events: seq<Event>, retries: nat, i: nat, id: AgentId,
                                     startup: StartupId)
    requires IsRun(states, events, retries) && i <= |events| && IsSafeIn(events, id, startup, i)
    ensures id in states[i].agents ==> states[i].agents[id].startup == startup
  {
    if i > 0 {
      HeldUnder(states, events, retries, i - 1, id, startup);
      assert IsStepOf(states, events, retries, i - 1);
    }
  }

  lemma NotMarked(states: seq<Sys>, events: seq<Event>, retries: nat, j: nat, id: AgentId, startup: StartupId)
    requires IsRun(states, events, retries) && j < |events| && IsSafeIn(events, id, startup, j)
    ensures events[j] != SetTombstone(id)
  {
    if events[j] == SetTombstone(id) {
      var d := MarkedWasDissolved(states, events, retries, j, id);
      HeldUnder(states, events, retries, d, id, startup);
    }
  }

  lemma StaysUnmarked(s: Sys, e: Event, retries: nat, id: AgentId)
    requires Enabled(s, e) && e != SetTombstone(id) && id !in s.tombstones
    requires id in s.loops ==> s.loops[id].marked.None? && !s.loops[id].stale && s.loops[id].ending != Some(Dissolved)
    ensures var t := Next(s, e, retries);
            && id !in t.tombstones
            && (id in t.loops ==>
                  t.loops[id].marked.None? && !t.loops[id].stale && t.loops[id].ending != Some(Dissolved))
  {
    if e.DissolveStartup? || id != e.id {
      OthersUntouched(s, e, retries, id);
    }
  }

  /** So a loop whose startup is never dissolved, under an id that is spawned for no other startup, is not marked, meets
      no tombstone, and does not end as dissolved. */
  lemma {:induction false} OthersAreSafe(states: seq<Sys>, events: seq<Event>, retries: nat, i: nat, id: AgentId,
                                         startup: StartupId)
    requires IsRun(states, events, retries) && i <= |events| && IsSafeIn(events, id, startup, i)
    ensures id !in states[i].tombstones
    ensures id in states[i].loops ==>
              var loop := states[i].loops[id];
              loop.marked.None? && !loop.stale && loop.ending != Some(Dissolved)
  {
    if i > 0 {
      OthersAreSafe(states, events, retries, i - 1, id, startup);
      NotMarked(states, events, retries, i - 1, id, startup);
      assert IsStepOf(states, events, retries, i - 1);
      StaysUnmarked(states[i - 1], events[i - 1], retries, id);
    }
  }

  /** Conversely, every agent that the map holds under a startup when this is dissolved is due to be marked until it is
      marked. */
  lemma {:induction false} DissolvedIsMarked(states: seq<Sys>, events: seq<Event>, retries: nat, d: nat, i: nat,
                                             id: AgentId)
    requires IsRun(states, events, retries) && d < i <= |events| && IsDissolvedAt(states, events, id, d)
    ensures id in states[i].targets || exists j :: d < j < i && events[j] == SetTombstone(id)
  {
    assert IsStepOf(states, events, retries, i - 1);
    if d < i - 1 {
      DissolvedIsMarked(states, events, retries, d, i - 1, id);
    }
  }

  /** How often the agent is marked before state `i`, and how often the startup that holds it is dissolved. */
  ghost function Marks(events: seq<Event>, id: AgentId, i: nat): nat
    requires i <= |events|
  {
    if i == 0 then 0 else Marks(events, id, i - 1) + (if events[i - 1] == SetTombstone(id) then 1 else 0)
  }

  ghost function Dissolutions(states: seq<Sys>, events: seq<Event>, id: AgentId, i: nat): nat
    requires |states| == |events| + 1 && i <= |events|
  {
    if i == 0 then 0
    else Dissolutions(states, events, id, i - 1) + (if IsDissolvedAt(states, events, id, i - 1) then 1 else 0)
  }

  /** Each dissolution marks each agent once: what is not yet done is due. */
  lemma {:induction false} MarkedOncePerDissolution(states: seq<Sys>, events: seq<Event>, retries: nat, i: nat,
                                                    id: AgentId)
    requires IsRun(states, events, retries) && i <= |events|
    ensures Marks(events, id, i) + states[i].targets[id] == Dissolutions(states, events, id, i)
  {
    if i > 0 {
      MarkedOncePerDissolution(states, events, retries, i - 1, id);
      assert IsStepOf(states, events, retries, i - 1);
    }
  }

  // ---------------------------------------------------------------- leftover tombstones

  /** The loop still has to look for a tombstone: it is alive and not on its way out. */
  predicate HasCheckAhead(s: Sys, id: AgentId) {
    id in s.loops && s.loops[id].pc != Leaving && s.loops[id].pc != Done
  }

  /** The tombstone is there although the loop it was set for will not take it: that loop is past its last check, or it
      has been replaced by one that found the tombstone when it was spawned. */
  ghost predicate IsLeftOver(s: Sys, id: AgentId) {
    id in s.tombstones && (HasCheckAhead(s, id) ==> s.loops[id].stale)
  }

  /** The agent's loop looks for a tombstone and takes it if it is there. */
  predicate IsCheck(e: Event, id: AgentId) {
    e == Judge(id) || e == Wake(id)
  }

  /** Event `j` sets the tombstone when no check is ahead, and no check follows before event `i`. */
  ghost predicate IsSetTooLate(states: seq<Sys>, events: seq<Event>, id: AgentId, i: nat, j: nat)
    requires |states| == |events| + 1 && i <= |events|
  {
    && j < i && events[j] == SetTombstone(id) && !HasCheckAhead(states[j], id)
    && forall m :: j < m < i ==> !IsCheck(events[m], id)
  }

  lemma CheckTakesIt(s: Sys, e: Event, retries: nat, id: AgentId)
    requires Enabled(s, e) && IsCheck(e, id)
    ensures id !in Next(s, e, retries).tombstones
  {}

  lemma MarkLeavesOver(s: Sys, retries: nat, id: AgentId)
    requires Enabled(s, SetTombstone(id)) && (id in s.loops ==> TombstoneOk(s.loops[id], id in s.tombstones))
    ensures IsLeftOver(Next(s, SetTombstone(id), retries), id) <==> IsLeftOver(s, id) || !HasCheckAhead(s, id)
  {}

  lemma OwnStepLeavesOver(s: Sys, e: Event, retries: nat, id: AgentId)
    requires Enabled(s, e) && Subject(e) == Some(id) && !IsCheck(e, id)
    ensures IsLeftOver(Next(s, e, retries), id) <==> IsLeftOver(s, id)
  {}

  lemma NewLeftOver(s: Sys, e: Event, retries: nat, id: AgentId)
    requires SysOk(s, retries) && Enabled(s, e)
    ensures IsLeftOver(Next(s, e, retries), id) <==>
              !IsCheck(e, id) && (IsLeftOver(s, id) || (e == SetTombstone(id) && !HasCheckAhead(s, id)))
  {
    if e.DissolveStartup? || id != e.id {
      OthersUntouched(s, e, retries, id);
    } else if IsCheck(e, id) {
      CheckTakesIt(s, e, retries, id);
    } else if e.SetTombstone? {
      assert id in s.loops ==> LoopOk(s, id, retries);
      MarkLeavesOver(s, retries, id);
    } else {
      OwnStepLeavesOver(s, e, retries, id);
    }
  }

  lemma LeftOverStep(states: seq<Sys>, events: seq<Event>, retries: nat, k: nat, id: AgentId)
    requires IsRun(states, events, retries) && k < |events|
    ensures IsLeftOver(states[k + 1], id) <==>
              !IsCheck(events[k], id)
              && (IsLeftOver(states[k], id) || (events[k] == SetTombstone(id) && !HasCheckAhead(states[k], id)))
  {
    ReachableIsOk(states, events, retries, k);
    assert IsStepOf(states, events, retries, k);
    NewLeftOver(states[k], events[k], retries, id);
  }

  /** In every run a tombstone is left over exactly if it was set when its loop had no check ahead and no check has
      followed since. */
  lemma {:induction false} LeftOverExactly(states: seq<Sys>, events: seq<Event>, retries: nat, i: nat, id: AgentId)
    requires IsRun(states, events, retries) && i <= |events|
    ensures IsLeftOver(states[i], id) <==> exists j: nat :: IsSetTooLate(states, events, id, i, j)
  {
    if i > 0 {
      LeftOverExactly(states, events, retries, i - 1, id);
      LeftOverStep(states, events, retries, i - 1, id);
      SetTooLateLater(states, events, id, i - 1, i);
    }
  }

  lemma SetTooLateLater(states: seq<Sys>, events: seq<Event>, id: AgentId, k: nat, i: nat)
    requires |states| == |events| + 1 && k < |events| && i == k + 1
    ensures (exists j: nat :: IsSetTooLate(states, events, id, i, j)) <==>
              || (events[k] == SetTombstone(id) && !HasCheckAhead(states[k], id))
              || (!IsCheck(events[k], id) && exists j: nat :: IsSetTooLate(states, events, id, k, j))
  {
    if events[k] == SetTombstone(id) && !HasCheckAhead(states[k], id) {
      assert IsSetTooLate(states, events, id, i, k);
    }
    if j: nat :| IsSetTooLate(states, events, id, k, j) {
      assert !IsCheck(events[k], id) ==> IsSetTooLate(states, events, id, i, j);
    }
    if j: nat :| IsSetTooLate(states, events, id, i, j) {
      assert j < k ==> !IsCheck(events[k], id) && IsSetTooLate(states, events, id, k, j);
    }
  }

  /** If the agent is never spawned again - ids are minted afresh for every startup - the tombstone stays for ever. */
  lemma {:induction false} LeftOverForever(states: seq<Sys>, events: seq<Event>, retries: nat, i: nat, j: nat,
                                           id: AgentId)
    requires IsRun(states, events, retries) && i <= j <= |events|
    requires IsLeftOver(states[i], id) && !HasCheckAhead(states[i], id)
    requires forall m :: i <= m < j ==> !(events[m].Spawn? && events[m].id == id)
    ensures IsLeftOver(states[j], id) && !HasCheckAhead(states[j], id)
    decreases j
  {
    if i < j {
      LeftOverForever(states, events, retries, i, j - 1, id);
      assert IsStepOf(states, events, retries, j - 1);
      StaysPastItsChecks(states[j - 1], events[j - 1], retries, id);
    }
  }

  lemma StaysPastItsChecks(s: Sys, e: Event, retries: nat, id: AgentId)
    requires Enabled(s, e) && !HasCheckAhead(s, id) && id in s.tombstones && !(e.Spawn? && e.id == id)
    ensures !HasCheckAhead(Next(s, e, retries), id) && id in Next(s, e, retries).tombstones
  {
    if e.DissolveStartup? || id != e.id {
      OthersUntouched(s, e, retries, id);
    }
  }

  /** A loop spawned where a tombstone was left over ends, exactly then, without a single retry however its first child
      exits. */
  lemma RetriesUnlessStale(states: seq<Sys>, events: seq<Event>, retries: nat, i: nat, id: AgentId)
    requires IsRun(states, events, retries) && i < |events|
    requires events[i] == Judge(id) && At(states[i], id, Exited(false))
    requires states[i].loops[id].marked.None? && states[i].loops[id].failures < retries
    ensures At(states[i + 1], id, if states[i].loops[id].stale then Leaving else Sleeping)
  {
    ReachableIsOk(states, events, retries, i);
    assert IsStepOf(states, events, retries, i);
    assert LoopOk(states[i], id, retries);
  }

  ghost predicate Reachable(s: Sys, retries: nat) {
    exists states: seq<Sys>, events: seq<Event> :: IsRun(states, events, retries) && states[|events|] == s
  }

  lemma ReachableStep(s: Sys, e: Event, retries: nat)
    requires Reachable(s, retries) && Enabled(s, e)
    ensures Reachable(Next(s, e, retries), retries)
  {
    var states: seq<Sys>, events: seq<Event> :| IsRun(states, events, retries) && states[|events|] == s;
    var states', events' := states + [Next(s, e, retries)], events + [e];
    forall i: nat | i < |events'|
      ensures IsStepOf(states', events', retries, i)
    {
      assert i < |events| ==> IsStepOf(states, events, retries, i);
    }
    assert IsRun(states', events', retries) && states'[|events'|] == Next(s, e, retries);
  }

  lemma CollectedLoop(id: AgentId, startup: StartupId, pid: nat, retries: nat) returns (s: Sys)
    ensures Reachable(s, retries) && id in s.targets && At(s, id, Waiting(false)) && s.tombstones == {}
  {
    var s0 := Sys(map[], {}, map[], multiset{});
    assert IsRun([s0], [], retries) && [s0][0] == s0;
    ReachableStep(s0, Spawn(id, startup, pid), retries);
    var s1 := Next(s0, Spawn(id, startup, pid), retries);
    assert id in Targets(s1, startup);
    ReachableStep(s1, DissolveStartup(startup), retries);
    s := Next(s1, DissolveStartup(startup), retries);
  }

  lemma EndsCleanly(s: Sys, id: AgentId, retries: nat) returns (t: Sys)
    requires Reachable(s, retries) && id in s.targets && At(s, id, Waiting(false)) && s.tombstones == {}
    ensures Reachable(t, retries) && id in t.targets && At(t, id, Done)
  {
    ReachableStep(s, ChildExits(id, true), retries);
    var s1 := Next(s, ChildExits(id, true), retries);
    ReachableStep(s1, Judge(id), retries);
    var s2 := Next(s1, Judge(id), retries);
    ReachableStep(s2, Leave(id), retries);
    t := Next(s2, Leave(id), retries);
  }

  /** A leak is reachable: the startup is dissolved while the agent's child exits by itself. */
  lemma LeakIsReachable(id: AgentId, startup: StartupId, pid: nat, retries: nat)
    ensures exists s :: Reachable(s, retries) && IsLeftOver(s, id) && !HasCheckAhead(s, id)
  {
    var collected := CollectedLoop(id, startup, pid, retries);
    var ended := EndsCleanly(collected, id, retries);
    ReachableStep(ended, SetTombstone(id), retries);
    assert IsLeftOver(Next(ended, SetTombstone(id), retries), id);
  }

  /** Where an id is spawned again, as for per-task workers, so is a loop that meets the leak. */
  lemma StaleIsReachable(id: AgentId, startup: StartupId, pid: nat, retries: nat)
    ensures exists s :: Reachable(s, retries) && At(s, id, Waiting(false)) && s.loops[id].stale
  {
    var collected := CollectedLoop(id, startup, pid, retries);
    var ended := EndsCleanly(collected, id, retries);
    ReachableStep(ended, SetTombstone(id), retries);
    var marked := Next(ended, SetTombstone(id), retries);
    ReachableStep(marked, Spawn(id, startup, pid), retries);
    assert At(Next(marked, Spawn(id, startup, pid), retries), id, Waiting(false));
  }
}
