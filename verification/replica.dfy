/** The console's copy of the skills converges to the tables although frames are replayed that the snapshot already
    contains. */
module Replica {
  import opened Wrappers
  import opened Skills
  import opened Store
  import Utf8

  /** A run of operations: the tables before and after each one, and the frames broadcast. */
  ghost predicate IsRun(agents: map<AgentId, StartupId>, states: seq<Tables>, ops: seq<Op>,
                        frames: seq<Option<SkillChanged>>) {
    && |states| == |ops| + 1 && |frames| == |ops|
    && forall i :: 0 <= i < |ops| ==> IsStepOf(agents, states, ops, frames, i)
  }

  ghost predicate IsStepOf(agents: map<AgentId, StartupId>, states: seq<Tables>, ops: seq<Op>,
                           frames: seq<Option<SkillChanged>>, i: nat)
    requires |states| == |ops| + 1 && |frames| == |ops| && i < |ops|
  {
    InputsOk(states[i], ops[i]) && Step(agents, states[i], ops[i], states[i + 1], frames[i])
  }

  ghost predicate Present(t: Tables, sid: StartupId, id: SkillId) {
    id in t.skills && t.skills[id].startup == sid
  }

  /** The console's row of a skill is the table's, with the attachments in any order; a skill that the startup does not
      have is not shown. */
  ghost predicate Agrees(row: Option<SkillRow>, t: Tables, sid: StartupId, id: SkillId) {
    if Present(t, sid, id) then row.Some? && IsRow(row.value, t, id) else row.None?
  }

  /** The frame sets the whole row of the skill. */
  ghost predicate SetsRow(e: Option<SkillChanged>, sid: StartupId, id: SkillId) {
    && e.Some? && e.value.startup == sid && e.value.skill == id
    && (e.value.kind == Delete || (e.value.kind == Upsert && e.value.row.Some?))
  }

  /** The frame attaches the skill to the agent or detaches it. */
  ghost predicate SetsAgent(e: Option<SkillChanged>, sid: StartupId, id: SkillId, a: AgentId) {
    && e.Some? && e.value.startup == sid && e.value.skill == id
    && (e.value.kind == Attach || e.value.kind == Detach) && e.value.agent == Some(a)
  }

  datatype Field = Content | Flag | Time

  /** The frame reports that the field may have changed, and the reducer ignores it: a revert, an operator's upsert, or
      a change of the global flag. */
  ghost predicate Touches(e: Option<SkillChanged>, sid: StartupId, id: SkillId, f: Field) {
    && e.Some? && e.value.startup == sid && e.value.skill == id
    && match f
       case Content => TouchesContent(e.value)
       case Flag => e.value.kind == GlobalChange
       case Time => TouchesContent(e.value) || e.value.kind == GlobalChange
  }

  predicate TouchesContent(e: SkillChanged) {
    e.kind == Revert || (e.kind == Upsert && e.row.None?)
  }

  /** The content that a revert or an upsert leaves. */
  function NewContent(op: Op): Utf8.bytes {
    if op.UpsertOp? then op.content
    else if op.RevertOp? && op.revision.Some? then op.revision.value
    else []
  }

  /** The operation behind a frame that touches the field. */
  predicate IsTouchOp(op: Op, f: Field) {
    match f
    case Content => op.UpsertOp? || op.RevertOp?
    case Flag => op.SetGlobalOp?
    case Time => op.UpsertOp? || op.RevertOp? || op.SetGlobalOp?
  }

  ghost predicate RowSet(es: seq<Option<SkillChanged>>, sid: StartupId, id: SkillId) {
    exists i :: 0 <= i < |es| && SetsRow(es[i], sid, id)
  }

  ghost predicate AgentSet(es: seq<Option<SkillChanged>>, sid: StartupId, id: SkillId, a: AgentId) {
    exists i :: 0 <= i < |es| && SetsAgent(es[i], sid, id, a)
  }

  lemma SetAppended(es: seq<Option<SkillChanged>>, e: Option<SkillChanged>, sid: StartupId, id: SkillId)
    ensures RowSet(es + [e], sid, id) <==> RowSet(es, sid, id) || SetsRow(e, sid, id)
    ensures forall a :: AgentSet(es + [e], sid, id, a) <==> AgentSet(es, sid, id, a) || SetsAgent(e, sid, id, a)
  {
    var all := es + [e];
    assert all[|es|] == e;
    assert forall i :: 0 <= i < |es| ==> all[i] == es[i];
  }

  /** The field `f` of the row is that of the skill. */
  ghost predicate SameField(was: Skill, now: Skill, f: Field) {
    match f
    case Content => now.content == was.content
    case Flag => now.isGlobal == was.isGlobal
    case Time => now.updatedAt == was.updatedAt
  }

  /** The field is the one that the operation leaves. */
  ghost predicate LeftBy(now: Skill, op: Op, f: Field)
    requires IsTouchOp(op, f)
  {
    match f
    case Content => now.content == NewContent(op)
    case Flag => now.isGlobal == op.isGlobal
    case Time => now.updatedAt == op.now
  }

  ghost predicate SameIdentity(was: Skill, now: Skill) {
    now.startup == was.startup && now.name == was.name
  }

  /** The console lists the skill as it was in the tables `base`, with the attachments of the tables `t`. */
  ghost predicate AgreesBut(row: Option<SkillRow>, t: Tables, base: Tables, sid: StartupId, id: SkillId) {
    if Present(base, sid, id) then
      && Present(t, sid, id) && row.Some? && row.value.id == id && SameListing(row.value, base.skills[id])
      && EachOnce(row.value.attachments) && SameIdentity(base.skills[id], t.skills[id])
      && forall a :: a in row.value.attachments <==> (a, id) in t.attached
    else row.None?
  }

  /** A frame that does not set the row of a skill reports an operation that keeps the skill and changes at most the
      fields it touches, to what the operation leaves; an attachment it does not mention stays as it is. */
  lemma StepFrame(agents: map<AgentId, StartupId>, t: Tables, op: Op, t': Tables, e: Option<SkillChanged>,
                  sid: StartupId, id: SkillId)
    requires InputsOk(t, op) && Step(agents, t, op, t', e) && !SetsRow(e, sid, id)
    ensures Present(t, sid, id) ==> Present(t', sid, id) && SameIdentity(t.skills[id], t'.skills[id])
    ensures Present(t', sid, id) <==> Present(t, sid, id) || Touches(e, sid, id, Time)
    ensures Present(t, sid, id) ==>
              forall a :: !SetsAgent(e, sid, id, a) ==> ((a, id) in t'.attached <==> (a, id) in t.attached)
    ensures forall a :: SetsAgent(e, sid, id, a) ==>
              Present(t, sid, id) && ((a, id) in t'.attached <==> e.value.kind == Attach)
  {}

  lemma StepField(agents: map<AgentId, StartupId>, t: Tables, op: Op, t': Tables, e: Option<SkillChanged>,
                  sid: StartupId, id: SkillId, f: Field)
    requires InputsOk(t, op) && Step(agents, t, op, t', e) && !SetsRow(e, sid, id)
    ensures Touches(e, sid, id, f) ==> IsTouchOp(op, f) && Present(t', sid, id) && LeftBy(t'.skills[id], op, f)
    ensures !Touches(e, sid, id, f) && Present(t, sid, id) ==>
              Present(t', sid, id) && SameField(t.skills[id], t'.skills[id], f)
  {}

  /** A frame that sets the row of a skill sets it to what the tables now hold. */
  lemma StepSets(agents: map<AgentId, StartupId>, t: Tables, op: Op, t': Tables, e: Option<SkillChanged>,
                 sid: StartupId, id: SkillId, row: Option<SkillRow>)
    requires Step(agents, t, op, t', e) && SetsRow(e, sid, id)
    ensures AgreesBut(ChangeRow(row, e.value), t', t', sid, id)
  {}

  /** The console's row, where frames have set it: that of `base`, with the attachments of now. Elsewhere: that of the
      snapshot, with the attachments that frames have set. */
  ghost predicate Tracks(row: Option<SkillRow>, es: seq<Option<SkillChanged>>, now: Tables, snap: Tables, base: Tables,
                         sid: StartupId, id: SkillId)
  {
    if RowSet(es, sid, id) then AgreesBut(row, now, base, sid, id)
    else
      && base == snap
      && (row.Some? <==> Present(snap, sid, id))
      && (row.Some? ==>
            row.value.id == id && SameListing(row.value, snap.skills[id]) && EachOnce(row.value.attachments))
      && forall a :: TracksAgent(row, es, now, snap, sid, id, a)
  }

  ghost predicate TracksAgent(row: Option<SkillRow>, es: seq<Option<SkillChanged>>, now: Tables, snap: Tables,
                              sid: StartupId, id: SkillId, a: AgentId)
  {
    && (AgentSet(es, sid, id, a) ==> Present(now, sid, id))
    && (row.Some? ==> (a in row.value.attachments <==>
                       if AgentSet(es, sid, id, a) then (a, id) in now.attached else (a, id) in snap.attached))
  }

  lemma SnapshotTracks(listing: map<StartupId, seq<SkillRow>>, snap: Tables, now: Tables, sid: StartupId, id: SkillId)
    requires IsListing(listing, snap) && "" !in snap.skills
    ensures Agrees(Lookup(OnSnapshot(listing), sid, id), snap, sid, id)
    ensures Tracks(Lookup(OnSnapshot(listing), sid, id), [], now, snap, snap, sid, id)
  {
    if sid in listing {
      ByIdFinds(listing[sid], id);
    }
    if Present(snap, sid, id) {
      assert IsListed(listing, sid, id);
    }
  }

  /** The row after the console has seen one more step. */
  function Next(row: Option<SkillRow>, e: Option<SkillChanged>, sid: StartupId, id: SkillId): Option<SkillRow> {
    if e.Some? && e.value.startup == sid && e.value.skill == id then ChangeRow(row, e.value) else row
  }

  lemma StepTracks(agents: map<AgentId, StartupId>, t: Tables, op: Op, t': Tables, e: Option<SkillChanged>,
                   snap: Tables, base: Tables, sid: StartupId, id: SkillId, row: Option<SkillRow>,
                   es: seq<Option<SkillChanged>>)
    requires "" !in agents && InputsOk(t, op) && Step(agents, t, op, t', e)
    requires Tracks(row, es, t, snap, base, sid, id)
    ensures Tracks(Next(row, e, sid, id), es + [e], t', snap, if SetsRow(e, sid, id) then t' else base, sid, id)
  {
    SetAppended(es, e, sid, id);
    if SetsRow(e, sid, id) {
      StepSets(agents, t, op, t', e, sid, id, row);
    } else if RowSet(es, sid, id) {
      StepAgrees(agents, t, op, t', e, base, sid, id, row);
    } else {
      NextKeepsListing(row, e, sid, id);
      forall a
        ensures TracksAgent(Next(row, e, sid, id), es + [e], t', snap, sid, id, a)
      {
        StepTracksAgent(agents, t, op, t', e, snap, sid, id, row, es, a);
      }
    }
  }

  lemma NextKeepsListing(row: Option<SkillRow>, e: Option<SkillChanged>, sid: StartupId, id: SkillId)
    requires !SetsRow(e, sid, id)
    ensures var next := Next(row, e, sid, id);
            && (next.Some? <==> row.Some?)
            && (row.Some? ==> next.value == row.value.(attachments := next.value.attachments))
            && (row.Some? && EachOnce(row.value.attachments) ==> EachOnce(next.value.attachments))
  {
    if row.Some? && e.Some? && e.value.agent.Some? && EachOnce(row.value.attachments) {
      WithoutKeepsOnce(row.value.attachments, e.value.agent.value);
    }
  }

  /** A frame adds or removes the agent it names and no other. */
  lemma NextAttachments(row: SkillRow, e: Option<SkillChanged>, sid: StartupId, id: SkillId)
    requires !SetsRow(e, sid, id)
    requires e.Some? && (e.value.kind == Attach || e.value.kind == Detach) ==>
              e.value.agent.Some? && e.value.agent.value != ""
    ensures var next := Next(Some(row), e, sid, id);
            && next.Some? && next.value == row.(attachments := next.value.attachments)
            && (EachOnce(row.attachments) ==> EachOnce(next.value.attachments))
            && forall a :: a in next.value.attachments <==>
                 if SetsAgent(e, sid, id, a) then e.value.kind == Attach else a in row.attachments
  {
    NextKeepsListing(Some(row), e, sid, id);
  }

  lemma AgentIsNamed(agents: map<AgentId, StartupId>, t: Tables, op: Op, t': Tables, e: Option<SkillChanged>)
    requires "" !in agents && Step(agents, t, op, t', e)
    ensures e.Some? && (e.value.kind == Attach || e.value.kind == Detach) ==>
              e.value.agent.Some? && e.value.agent.value != ""
  {}

  lemma StepAgrees(agents: map<AgentId, StartupId>, t: Tables, op: Op, t': Tables, e: Option<SkillChanged>,
                   base: Tables, sid: StartupId, id: SkillId, row: Option<SkillRow>)
    requires "" !in agents && InputsOk(t, op) && Step(agents, t, op, t', e) && !SetsRow(e, sid, id)
    requires AgreesBut(row, t, base, sid, id)
    ensures AgreesBut(Next(row, e, sid, id), t', base, sid, id)
  {
    StepFrame(agents, t, op, t', e, sid, id);
    AgentIsNamed(agents, t, op, t', e);
    if row.Some? {
      NextAttachments(row.value, e, sid, id);
    }
  }

  lemma StepTracksAgent(agents: map<AgentId, StartupId>, t: Tables, op: Op, t': Tables, e: Option<SkillChanged>,
                        snap: Tables, sid: StartupId, id: SkillId, row: Option<SkillRow>, es: seq<Option<SkillChanged>>,
                        a: AgentId)
    requires "" !in agents && InputsOk(t, op) && Step(agents, t, op, t', e) && !SetsRow(e, sid, id)
    requires TracksAgent(row, es, t, snap, sid, id, a)
    ensures TracksAgent(Next(row, e, sid, id), es + [e], t', snap, sid, id, a)
  {
    SetAppended(es, e, sid, id);
    StepFrame(agents, t, op, t', e, sid, id);
    AgentIsNamed(agents, t, op, t', e);
    if row.Some? {
      NextAttachments(row.value, e, sid, id);
    }
  }

  // ---------------------------------------------------------------- whole runs

  /** In every state of a run from empty tables: names are words of at most 64 characters and unique within a startup,
      contents have at most 65536 bytes, and a skill is attached to agents of its own startup only. */
  lemma {:induction false} ReachableTables(agents: map<AgentId, StartupId>, states: seq<Tables>, ops: seq<Op>,
                                           frames: seq<Option<SkillChanged>>, i: nat)
    requires IsRun(agents, states, ops, frames) && i <= |ops| && states[0] == Tables(map[], {})
    ensures TablesOk(agents, states[i])
    ensures forall id :: id in states[i].skills ==>
              var Skill(_, name, content, _, _) := states[i].skills[id];
              && id != "" && |content| <= 65536 && 1 <= |name| <= 64
              && forall k :: 0 <= k < |name| ==> IsLetterOrDigit(name[k])
    ensures forall id, other :: id in states[i].skills && other in states[i].skills && id != other ==>
              states[i].skills[id].startup != states[i].skills[other].startup
              || states[i].skills[id].name != states[i].skills[other].name
    ensures forall a, id :: (a, id) in states[i].attached ==>
              id in states[i].skills && a in agents && agents[a] == states[i].skills[id].startup
  {
    if i > 0 {
      ReachableTables(agents, states, ops, frames, i - 1);
      assert IsStepOf(agents, states, ops, frames, i - 1);
      StepKeepsTablesOk(agents, states[i - 1], ops[i - 1], states[i], frames[i - 1]);
    }
    OkMeans(agents, states[i]);
  }

  lemma OkMeans(agents: map<AgentId, StartupId>, t: Tables)
    requires TablesOk(agents, t)
    ensures forall id :: id in t.skills ==>
              var Skill(_, name, content, _, _) := t.skills[id];
              && id != "" && |content| <= 65536 && 1 <= |name| <= 64
              && forall k :: 0 <= k < |name| ==> IsLetterOrDigit(name[k])
    ensures forall id, other :: id in t.skills && other in t.skills && id != other ==>
              t.skills[id].startup != t.skills[other].startup || t.skills[id].name != t.skills[other].name
    ensures forall a, id :: (a, id) in t.attached ==> id in t.skills && a in agents && agents[a] == t.skills[id].startup
  {
    forall id | id in t.skills
      ensures SkillOk(id, t.skills[id])
      ensures 1 <= |t.skills[id].name| <= 64
              && forall k :: 0 <= k < |t.skills[id].name| ==> IsLetterOrDigit(t.skills[id].name[k])
    {
      NamesAreWords(t.skills[id].name);
    }
    forall id, other | id in t.skills && other in t.skills && SameName(t, id, other)
      ensures id == other
    {}
    forall a, id | (a, id) in t.attached
      ensures AttachmentOk(agents, t, (a, id))
    {}
  }

  /** The state whose listing of the skill the console shows: the one right after the last frame that sets the row or,
      if no frame sets it, that of the snapshot, state `k`. */
  ghost function BaseAt(es: seq<Option<SkillChanged>>, k: nat, sid: StartupId, id: SkillId): nat {
    if es == [] then k
    else if SetsRow(es[|es| - 1], sid, id) then |es|
    else BaseAt(es[..|es| - 1], k, sid, id)
  }

  lemma {:induction false} BaseIsAState(es: seq<Option<SkillChanged>>, k: nat, n: nat, sid: StartupId, id: SkillId)
    requires |es| <= n && k <= n
    ensures BaseAt(es, k, sid, id) <= n
  {
    if es != [] && !SetsRow(es[|es| - 1], sid, id) {
      BaseIsAState(es[..|es| - 1], k, n, sid, id);
    }
  }

  /** After its base no frame sets the row; without any such frame the base is the snapshot. */
  lemma {:induction false} BaseIsLast(es: seq<Option<SkillChanged>>, k: nat, sid: StartupId, id: SkillId)
    ensures forall i :: BaseAt(es, k, sid, id) <= i < |es| ==> !SetsRow(es[i], sid, id)
    ensures !RowSet(es, sid, id) ==> BaseAt(es, k, sid, id) == k
    ensures RowSet(es, sid, id) ==>
              0 < BaseAt(es, k, sid, id) <= |es| && SetsRow(es[BaseAt(es, k, sid, id) - 1], sid, id)
  {
    if es != [] && !SetsRow(es[|es| - 1], sid, id) {
      var front := es[..|es| - 1];
      BaseIsLast(front, k, sid, id);
      assert es == front + [es[|es| - 1]];
      SetAppended(front, es[|es| - 1], sid, id);
    }
  }

  /** The console's row of every skill keeps track, whichever prefix of the run the snapshot already contains. */
  lemma {:induction false} ReplayTracks(agents: map<AgentId, StartupId>, states: seq<Tables>, ops: seq<Op>,
      frames: seq<Option<SkillChanged>>, k: nat, listing: map<StartupId, seq<SkillRow>>, sid: StartupId, id: SkillId,
      i: nat)
    requires IsRun(agents, states, ops, frames) && "" !in agents && i <= |ops| && k <= |ops|
    requires IsListing(listing, states[k]) && "" !in states[k].skills
    ensures BaseAt(frames[..i], k, sid, id) <= |ops|
    ensures Tracks(Lookup(Replay(OnSnapshot(listing), frames[..i]), sid, id), frames[..i], states[i], states[k],
                   states[BaseAt(frames[..i], k, sid, id)], sid, id)
  {
    BaseIsAState(frames[..i], k, |ops|, sid, id);
    if i == 0 {
      SnapshotTracks(listing, states[k], states[0], sid, id);
      assert frames[..0] == [];
    } else {
      ReplayTracks(agents, states, ops, frames, k, listing, sid, id, i - 1);
      assert IsStepOf(agents, states, ops, frames, i - 1);
      var before, e := frames[..i - 1], frames[i - 1];
      assert frames[..i] == before + [e] && (before + [e])[..|before|] == before;
      var vm := Replay(OnSnapshot(listing), before);
      if e.Some? {
        ChangeIsLocal(vm, e.value, sid, id);
      }
      StepTracks(agents, states[i - 1], ops[i - 1], states[i], e, states[k], states[BaseAt(before, k, sid, id)], sid,
                 id, Lookup(vm, sid, id), before);
    }
  }

  /** A skill whose row no frame sets stays from state `k` on, and so do attachments that no frame sets. */
  lemma {:induction false} Frozen(agents: map<AgentId, StartupId>, states: seq<Tables>, ops: seq<Op>,
      frames: seq<Option<SkillChanged>>, k: nat, n: nat, sid: StartupId, id: SkillId)
    requires IsRun(agents, states, ops, frames) && k <= n <= |ops|
    requires forall i :: k <= i < n ==> !SetsRow(frames[i], sid, id)
    requires Present(states[k], sid, id)
    ensures Present(states[n], sid, id) && SameIdentity(states[k].skills[id], states[n].skills[id])
    ensures forall a :: !AgentSet(frames, sid, id, a) ==>
              ((a, id) in states[n].attached <==> (a, id) in states[k].attached)
    decreases n
  {
    if k < n {
      Frozen(agents, states, ops, frames, k, n - 1, sid, id);
      assert IsStepOf(agents, states, ops, frames, n - 1) && !SetsRow(frames[n - 1], sid, id);
      StepFrame(agents, states[n - 1], ops[n - 1], states[n], frames[n - 1], sid, id);
      forall a | !AgentSet(frames, sid, id, a)
        ensures !SetsAgent(frames[n - 1], sid, id, a)
      {}
    }
  }

  lemma {:induction false} IdsStayNonEmpty(agents: map<AgentId, StartupId>, states: seq<Tables>, ops: seq<Op>,
      frames: seq<Option<SkillChanged>>, k: nat)
    requires IsRun(agents, states, ops, frames) && "" !in states[0].skills && k <= |ops|
    ensures "" !in states[k].skills
  {
    if k > 0 {
      IdsStayNonEmpty(agents, states, ops, frames, k - 1);
      assert IsStepOf(agents, states, ops, frames, k - 1);
    }
  }

  /** A console: it subscribes, some operations run, it takes its snapshot of state `k`, more operations run, and it
      applies all frames since it subscribed, those before the snapshot again. */
  ghost predicate IsConsole(agents: map<AgentId, StartupId>, states: seq<Tables>, ops: seq<Op>,
                            frames: seq<Option<SkillChanged>>, k: nat, listing: map<StartupId, seq<SkillRow>>) {
    && IsRun(agents, states, ops, frames) && "" !in agents && "" !in states[0].skills
    && k <= |ops| && IsListing(listing, states[k])
  }

  /** After any run the console lists the skills of their base states, each as it was then, and with the attachments it
      has now. */
  lemma ReplicaConverges(agents: map<AgentId, StartupId>, states: seq<Tables>, ops: seq<Op>,
      frames: seq<Option<SkillChanged>>, k: nat, listing: map<StartupId, seq<SkillRow>>, sid: StartupId, id: SkillId)
    returns (base: nat)
    requires IsConsole(agents, states, ops, frames, k, listing)
    ensures base == BaseAt(frames, k, sid, id) <= |ops|
    ensures AgreesBut(Lookup(Replay(OnSnapshot(listing), frames), sid, id), states[|ops|], states[base], sid, id)
  {
    var n := |ops|;
    base := BaseAt(frames, k, sid, id);
    IdsStayNonEmpty(agents, states, ops, frames, k);
    ReplayTracks(agents, states, ops, frames, k, listing, sid, id, n);
    assert frames[..n] == frames;
    var row := Lookup(Replay(OnSnapshot(listing), frames), sid, id);
    if !RowSet(frames, sid, id) {
      if row.Some? {
        BaseIsLast(frames, k, sid, id);
        Frozen(agents, states, ops, frames, k, n, sid, id);
        forall a
          ensures a in row.value.attachments <==> (a, id) in states[n].attached
        {
          assert TracksAgent(row, frames, states[n], states[k], sid, id, a);
        }
      }
    }
  }

  /** The last operation from `i` up to `n` whose frame touches the field. */
  ghost function LastTouch(frames: seq<Option<SkillChanged>>, i: nat, n: nat, sid: StartupId, id: SkillId,
                           f: Field): (r: Option<nat>)
    requires n <= |frames|
    ensures r.Some? ==> i <= r.value < n && Touches(frames[r.value], sid, id, f)
    ensures forall m :: i <= m < n && Touches(frames[m], sid, id, f) ==> r.Some? && m <= r.value
  {
    if n <= i then None
    else if Touches(frames[n - 1], sid, id, f) then Some(n - 1)
    else LastTouch(frames, i, n - 1, sid, id, f)
  }

  /** While no frame sets its row, a skill's field is the one that its last touch left. */
  lemma {:induction false} FieldIsOfLastTouch(agents: map<AgentId, StartupId>, states: seq<Tables>, ops: seq<Op>,
      frames: seq<Option<SkillChanged>>, i: nat, n: nat, sid: StartupId, id: SkillId, f: Field)
    requires IsRun(agents, states, ops, frames) && i <= n <= |ops|
    requires forall m :: i <= m < n ==> !SetsRow(frames[m], sid, id)
    requires Present(states[i], sid, id)
    ensures Present(states[n], sid, id)
    ensures match LastTouch(frames, i, n, sid, id, f)
            case None => SameField(states[i].skills[id], states[n].skills[id], f)
            case Some(r) => IsTouchOp(ops[r], f) && LeftBy(states[n].skills[id], ops[r], f)
    decreases n
  {
    if i < n {
      FieldIsOfLastTouch(agents, states, ops, frames, i, n - 1, sid, id, f);
      assert IsStepOf(agents, states, ops, frames, n - 1) && !SetsRow(frames[n - 1], sid, id);
      StepField(agents, states[n - 1], ops[n - 1], states[n], frames[n - 1], sid, id, f);
    }
  }

  /** A skill that is not there comes to be there, without a frame that sets its row, exactly by a touch: an operator's
      upsert that inserts it. */
  lemma {:induction false} PresentByTouch(agents: map<AgentId, StartupId>, states: seq<Tables>, ops: seq<Op>,
      frames: seq<Option<SkillChanged>>, i: nat, n: nat, sid: StartupId, id: SkillId)
    requires IsRun(agents, states, ops, frames) && i <= n <= |ops|
    requires forall m :: i <= m < n ==> !SetsRow(frames[m], sid, id)
    requires !Present(states[i], sid, id)
    ensures Present(states[n], sid, id) <==> LastTouch(frames, i, n, sid, id, Time).Some?
    decreases n
  {
    if i < n {
      PresentByTouch(agents, states, ops, frames, i, n - 1, sid, id);
      assert IsStepOf(agents, states, ops, frames, n - 1) && !SetsRow(frames[n - 1], sid, id);
      StepFrame(agents, states[n - 1], ops[n - 1], states[n], frames[n - 1], sid, id);
    }
  }

  /** The last touch of the field since the base state, if any, left what was listed then. */
  ghost predicate IsCurrent(ops: seq<Op>, frames: seq<Option<SkillChanged>>, base: nat, was: Skill, sid: StartupId,
                            id: SkillId, f: Field)
    requires |frames| == |ops|
  {
    match LastTouch(frames, base, |frames|, sid, id, f)
    case None => true
    case Some(r) =>
      match f
      case Content => CharCount(NewContent(ops[r])) == CharCount(was.content)
      case Flag => ops[r].SetGlobalOp? && ops[r].isGlobal == was.isGlobal
      case Time => IsTouchOp(ops[r], Time) && ops[r].now == was.updatedAt
  }

  ghost predicate ListingIsCurrent(ops: seq<Op>, frames: seq<Option<SkillChanged>>, base: nat, was: Skill,
                                   sid: StartupId, id: SkillId)
    requires |frames| == |ops|
  {
    && IsCurrent(ops, frames, base, was, sid, id, Content) && IsCurrent(ops, frames, base, was, sid, id, Flag)
    && IsCurrent(ops, frames, base, was, sid, id, Time)
  }

  /** After any run the console agrees with the tables about a skill if and only if, since the last frame that sets its
      row - since the snapshot, if there is none -, nothing has touched it or, where it was there then, the last touches
      of content, flag and time brought back the length, the flag and the time of then. */
  lemma ReplicaAgreesExactly(agents: map<AgentId, StartupId>, states: seq<Tables>, ops: seq<Op>,
      frames: seq<Option<SkillChanged>>, k: nat, listing: map<StartupId, seq<SkillRow>>, sid: StartupId, id: SkillId)
    returns (base: nat)
    requires IsConsole(agents, states, ops, frames, k, listing)
    ensures base == BaseAt(frames, k, sid, id) <= |ops|
    ensures Agrees(Lookup(Replay(OnSnapshot(listing), frames), sid, id), states[|ops|], sid, id) <==>
              if Present(states[base], sid, id) then
                ListingIsCurrent(ops, frames, base, states[base].skills[id], sid, id)
              else LastTouch(frames, base, |frames|, sid, id, Time).None?
  {
    base := ReplicaConverges(agents, states, ops, frames, k, listing, sid, id);
    BaseIsLast(frames, k, sid, id);
    if Present(states[base], sid, id) {
      FieldIsOfLastTouch(agents, states, ops, frames, base, |ops|, sid, id, Content);
      FieldIsOfLastTouch(agents, states, ops, frames, base, |ops|, sid, id, Flag);
      FieldIsOfLastTouch(agents, states, ops, frames, base, |ops|, sid, id, Time);
    } else {
      PresentByTouch(agents, states, ops, frames, base, |ops|, sid, id);
    }
  }

  // ---------------------------------------------------------------- a run after which the console disagrees

  /** A skill without text, reverted to a text of one character. */
  function Unreverted(): Tables {
    Tables(map["x" := Skill("s", "notes", [], 0, false)], {})
  }

  function Reverted(): Tables {
    Tables(map["x" := Skill("s", "notes", [0x41], 1, false)], {})
  }

  function RevertIt(): Op {
    RevertOp("s", "x", Some([0x41]), 1)
  }

  function RevertFrame(): Option<SkillChanged> {
    Some(SkillChanged("s", Revert, "x", None, None))
  }

  function ListingBefore(): map<StartupId, seq<SkillRow>> {
    map["s" := [SkillRow("x", "notes", 0, 0, [], false)]]
  }

  lemma ListingIsRight()
    ensures IsListing(ListingBefore(), Unreverted())
  {
    assert SkillRow("x", "notes", 0, 0, [], false) in ListingBefore()["s"];
  }

  lemma RevertIsARun()
    ensures IsConsole(map[], [Unreverted(), Reverted()], [RevertIt()], [RevertFrame()], 0, ListingBefore())
  {
    ListingIsRight();
    assert Step(map[], Unreverted(), RevertIt(), Reverted(), RevertFrame());
    assert IsStepOf(map[], [Unreverted(), Reverted()], [RevertIt()], [RevertFrame()], 0);
  }

  /** Reverting the skill after the snapshot: the console goes on showing length 0 and time 0. */
  lemma RevertIsMissed()
    ensures IsConsole(map[], [Unreverted(), Reverted()], [RevertIt()], [RevertFrame()], 0, ListingBefore())
    ensures !Agrees(Lookup(Replay(OnSnapshot(ListingBefore()), [RevertFrame()]), "s", "x"), Reverted(), "s", "x")
  {
    var states, ops, frames := [Unreverted(), Reverted()], [RevertIt()], [RevertFrame()];
    RevertIsARun();
    var base := ReplicaAgreesExactly(map[], states, ops, frames, 0, ListingBefore(), "s", "x");
    assert frames[..0] == [] && BaseAt(frames, 0, "s", "x") == 0;
    assert LastTouch(frames, 0, 1, "s", "x", Content) == Some(0);
    assert !IsCurrent(ops, frames, 0, Unreverted().skills["x"], "s", "x", Content);
  }

  /** An operator's first upsert of a skill after the snapshot: the console never shows it. */
  lemma InsertionIsMissed()
    ensures var states := [Tables(map[], {}), Reverted()];
            var ops := [UpsertOp("s", "notes", [0x41], "x", 1, true)];
            var frames := [Some(SkillChanged("s", Upsert, "x", None, None))];
            && IsConsole(map[], states, ops, frames, 0, map[])
            && !Agrees(Lookup(Replay(OnSnapshot(map[]), frames), "s", "x"), Reverted(), "s", "x")
  {
    var states := [Tables(map[], {}), Reverted()];
    var ops := [UpsertOp("s", "notes", [0x41], "x", 1, true)];
    var frames := [Some(SkillChanged("s", Upsert, "x", None, None))];
    assert Upserted(states[0], ops[0], states[1], "x");
    assert Step(map[], states[0], ops[0], states[1], frames[0]);
    assert IsStepOf(map[], states, ops, frames, 0);
    var base := ReplicaAgreesExactly(map[], states, ops, frames, 0, map[], "s", "x");
    assert frames[..0] == [] && BaseAt(frames, 0, "s", "x") == 0;
  }
}
