/** The skills of each startup and the agents they are attached to: the tables, the operations on them, and the frames
    that they broadcast to the consoles. */
module Skills {
  import opened Wrappers
  import Utf8

  type StartupId = string
  type AgentId = string
  type SkillId = string

  datatype Skill = Skill(startup: StartupId, name: string, content: Utf8.bytes, updatedAt: int, isGlobal: bool)

  /** The `skills` table and the `agent_skills` table. */
  datatype Tables = Tables(skills: map<SkillId, Skill>, attached: set<(AgentId, SkillId)>)

  /** A listed skill: what the console is told about it. */
  datatype SkillRow =
    SkillRow(id: SkillId, name: string, len: nat, updatedAt: int, attachments: seq<AgentId>, isGlobal: bool)

  datatype ChangeKind = Upsert | Attach | Detach | Delete | Revert | GlobalChange | FileChange
  datatype SkillChanged =
    SkillChanged(startup: StartupId, kind: ChangeKind, skill: SkillId, agent: Option<AgentId>, row: Option<SkillRow>)

  datatype SkillError = BadName | OversizeContent | NotFound | CrossStartup | Forbidden
  datatype UpsertResult = Ok(id: SkillId, isNew: bool) | Err(error: SkillError)

  const MAX_CONTENT_LEN := 64 * 1024
  const MAX_NAME_LEN := 64

  predicate IsNameChar(c: char) {
    'a' <= c <= 'z' || 'A' <= c <= 'Z' || '0' <= c <= '9' || c == '_' || c == '-'
  }

  /** A letter, a digit, an underscore or a hyphen, by its ASCII code. */
  predicate IsLetterOrDigit(c: char) {
    var code := c as int;
    code in {45, 95} || 48 <= code <= 57 || 65 <= code <= 90 || 97 <= code <= 122
  }

  lemma NamesAreWords(name: string)
    ensures NameIsValid(name) <==> 1 <= |name| <= 64 && forall i :: 0 <= i < |name| ==> IsLetterOrDigit(name[i])
  {
    forall i | 0 <= i < |name|
      ensures IsNameChar(name[i]) <==> IsLetterOrDigit(name[i])
    {}
  }

  predicate NameIsValid(name: string) {
    1 <= |name| <= MAX_NAME_LEN && forall i :: 0 <= i < |name| ==> IsNameChar(name[i])
  }

  /** The number of characters of a text: its bytes that continue no character. */
  function CharCount(content: Utf8.bytes): nat {
    if content == [] then 0 else CharCount(content[1..]) + (if Utf8.IsTail(content[0]) then 0 else 1)
  }

  predicate IsSkillNamed(skills: map<SkillId, Skill>, id: SkillId, startup: StartupId, name: string) {
    id in skills && skills[id].startup == startup && skills[id].name == name
  }

  /** Text is counted in characters. */
  lemma {:induction false} CharsAreCounted(content: Utf8.bytes)
    requires Utf8.WellFormed(content)
    ensures CharCount(content) == |Utf8.Decode(content)|
    decreases |content|
  {
    if content != [] {
      var c, rest := Utf8.Uncons(content);
      CharsAreCounted(rest);
      forall k | 0 <= k < |c|
        ensures Utf8.IsTail(c[k]) <==> k > 0
      {
        Utf8.CharShape(c, k);
      }
      CountAfterHead(c[1..], rest);
      assert content[1..] == c[1..] + rest;
    }
  }

  lemma {:induction false} CountAfterHead(tail: Utf8.bytes, rest: Utf8.bytes)
    requires forall k :: 0 <= k < |tail| ==> Utf8.IsTail(tail[k])
    ensures CharCount(tail + rest) == CharCount(rest)
  {
    if tail == [] {
      assert tail + rest == rest;
    } else {
      CountAfterHead(tail[1..], rest);
      assert (tail + rest)[1..] == tail[1..] + rest;
    }
  }

  ghost predicate EachOnce(agentIds: seq<AgentId>) {
    forall i, j :: 0 <= i < j < |agentIds| ==> agentIds[i] != agentIds[j]
  }

  /** The row lists the skill and, in some order, each of the agents it is attached to once. */
  ghost predicate IsRow(row: SkillRow, t: Tables, id: SkillId) {
    && id in t.skills && row.id == id && SameListing(row, t.skills[id]) && EachOnce(row.attachments)
    && forall a :: a in row.attachments <==> (a, id) in t.attached
  }

  ghost predicate SameListing(row: SkillRow, skill: Skill) {
    && row.name == skill.name && row.len == CharCount(skill.content)
    && row.updatedAt == skill.updatedAt && row.isGlobal == skill.isGlobal
  }

  // ---------------------------------------------------------------- operations

  datatype Op =
    | UpsertOp(startup: StartupId, name: string, content: Utf8.bytes, newId: SkillId, now: int, byOperator: bool)
    | AttachOp(startup: StartupId, agent: AgentId, skill: SkillId)
    | DetachOp(startup: StartupId, agent: AgentId, skill: SkillId)
    | DeleteOp(startup: StartupId, skill: SkillId)
    | RevertOp(startup: StartupId, skill: SkillId, revision: Option<Utf8.bytes>, now: int)
    | SetGlobalOp(skill: SkillId, isGlobal: bool, now: int)
    | FileOp(startup: StartupId, skill: SkillId, refusal: Option<SkillError>)

  /** Why an operation of `startup` on a skill is refused. */
  function SkillRefusal(t: Tables, startup: StartupId, skill: SkillId): Option<SkillError> {
    if skill !in t.skills then Some(NotFound)
    else if t.skills[skill].startup != startup then Some(CrossStartup)
    else None
  }

  /** Why an operation of `startup` on a skill and an agent is refused. */
  function AttachRefusal(agents: map<AgentId, StartupId>, t: Tables, startup: StartupId, agent: AgentId, skill: SkillId)
    : Option<SkillError>
  {
    if SkillRefusal(t, startup, skill).Some? then SkillRefusal(t, startup, skill)
    else if agent !in agents then Some(NotFound)
    else if agents[agent] != startup then Some(CrossStartup)
    else None
  }

  function UpsertRefusal(name: string, content: Utf8.bytes): Option<SkillError> {
    if !NameIsValid(name) then Some(BadName)
    else if |content| > MAX_CONTENT_LEN then Some(OversizeContent)
    else None
  }

  /** `revision` is the stored revision asked for, if there is one. */
  function RevertRefusal(t: Tables, startup: StartupId, skill: SkillId, revision: Option<Utf8.bytes>):
    Option<SkillError>
  {
    if SkillRefusal(t, startup, skill).Some? then SkillRefusal(t, startup, skill)
    else if revision.None? then Some(NotFound)
    else None
  }

  function Refusal(agents: map<AgentId, StartupId>, t: Tables, op: Op): Option<SkillError> {
    match op
    case UpsertOp(_, name, content, _, _, _) => UpsertRefusal(name, content)
    case AttachOp(startup, agent, skill) => AttachRefusal(agents, t, startup, agent, skill)
    case DetachOp(startup, agent, skill) => AttachRefusal(agents, t, startup, agent, skill)
    case DeleteOp(startup, skill) => SkillRefusal(t, startup, skill)
    case RevertOp(startup, skill, revision, _) => RevertRefusal(t, startup, skill, revision)
    case SetGlobalOp(skill, _, _) => if skill in t.skills then None else Some(NotFound)
    case FileOp(_, _, refusal) => refusal
  }

  /** The startup that the frame of an operation names. */
  function StartupOf(t: Tables, op: Op): StartupId {
    if !op.SetGlobalOp? then op.startup
    else if op.skill in t.skills then t.skills[op.skill].startup
    else ""
  }

  /** The row of skill `id` after an upsert: a new one, or the old one with new content. */
  ghost predicate Upserted(t: Tables, op: Op, t': Tables, id: SkillId)
    requires op.UpsertOp?
  {
    && t'.attached == t.attached
    && if IsSkillNamed(t.skills, id, op.startup, op.name) then
         t'.skills == t.skills[id := t.skills[id].(content := op.content, updatedAt := op.now)]
       else
         && id == op.newId && (forall other :: !IsSkillNamed(t.skills, other, op.startup, op.name))
         && t'.skills == t.skills[id := Skill(op.startup, op.name, op.content, op.now, false)]
  }

  /** One operation: a refused one changes and broadcasts nothing. */
  ghost predicate Step(agents: map<AgentId, StartupId>, t: Tables, op: Op, t': Tables, e: Option<SkillChanged>) {
    if Refusal(agents, t, op).Some? then t' == t && e.None?
    else
      && e.Some? && e.value.startup == StartupOf(t, op)
      && match op
         case UpsertOp(_, _, _, _, _, byOperator) =>
           && e.value.kind == Upsert && Upserted(t, op, t', e.value.skill)
           && (if byOperator then e.value.row.None?
               else e.value.row.Some? && IsRow(e.value.row.value, t', e.value.skill))
         case AttachOp(_, agent, skill) =>
           && e.value.kind == Attach && e.value.skill == skill && e.value.agent == Some(agent)
           && t' == t.(attached := t.attached + {(agent, skill)})
         case DetachOp(_, agent, skill) =>
           && e.value.kind == Detach && e.value.skill == skill && e.value.agent == Some(agent)
           && t' == t.(attached := t.attached - {(agent, skill)})
         case DeleteOp(_, skill) =>
           && e.value.kind == Delete && e.value.skill == skill
           && t' == Tables(t.skills - {skill}, set p | p in t.attached && p.1 != skill)
         case RevertOp(_, skill, revision, now) =>
           && e.value.kind == Revert && e.value.skill == skill
           && t' == t.(skills := t.skills[skill := t.skills[skill].(content := revision.value, updatedAt := now)])
         case SetGlobalOp(skill, isGlobal, now) =>
           && e.value.kind == GlobalChange && e.value.skill == skill
           && t' == t.(skills := t.skills[skill := t.skills[skill].(isGlobal := isGlobal, updatedAt := now)])
         case FileOp(_, skill, _) =>
           e.value.kind == FileChange && e.value.skill == skill && t' == t
  }

  /** A new id is not empty and not in use, and a stored revision was once accepted as a content. */
  predicate InputsOk(t: Tables, op: Op) {
    && (op.UpsertOp? ==> op.newId != "" && op.newId !in t.skills)
    && (op.RevertOp? && op.revision.Some? ==> |op.revision.value| <= MAX_CONTENT_LEN)
  }

  class SkillStore {
    /** The startup of each agent. */
    const agents: map<AgentId, StartupId>
    var skills: map<SkillId, Skill>
    var attached: set<(AgentId, SkillId)>

    constructor (agents: map<AgentId, StartupId>)
      ensures this.agents == agents && Contents() == Tables(map[], {})
    {
      this.agents := agents;
      skills, attached := map[], {};
    }

    function Contents(): Tables
      reads this
    {
      Tables(skills, attached)
    }

    /** The agents that a skill is attached to. */
    method Attachments(id: SkillId) returns (agentIds: seq<AgentId>)
      ensures forall a :: a in agentIds <==> (a, id) in attached
      ensures EachOnce(agentIds)
    {
      agentIds := [];
      var rest := attached;
      while rest != {}
        invariant rest <= attached
        invariant forall a :: a in agentIds <==> (a, id) in attached - rest
        invariant EachOnce(agentIds)
        decreases rest
      {
        var p :| p in rest;
        rest := rest - {p};
        if p.1 == id {
          agentIds := agentIds + [p.0];
        }
      }
    }

    method RowOf(id: SkillId) returns (row: SkillRow)
      requires id in skills
      ensures IsRow(row, Contents(), id)
    {
      var agentIds := Attachments(id);
      var s := skills[id];
      row := SkillRow(id, s.name, CharCount(s.content), s.updatedAt, agentIds, s.isGlobal);
    }

    /** Finds the skill by its name, then updates or inserts it. */
    method UpsertWithAuthor(startup: StartupId, name: string, content: Utf8.bytes, newId: SkillId, now: int)
      returns (r: UpsertResult)
      modifies this
      ensures r == Err(BadName) <==> !(1 <= |name| <= 64 && forall i :: 0 <= i < |name| ==> IsLetterOrDigit(name[i]))
      ensures r == Err(OversizeContent) <==> r != Err(BadName) && |content| > 65536
      ensures r.Err? ==> r.error in {BadName, OversizeContent} && Contents() == old(Contents())
      ensures r.Ok? ==> Upserted(old(Contents()), UpsertOp(startup, name, content, newId, now, false), Contents(), r.id)
      ensures r.Ok? ==> attached == old(attached)
      ensures r.Ok? && !r.isNew ==>
                && r.id in old(skills) && old(skills)[r.id].startup == startup && old(skills)[r.id].name == name
                && skills == old(skills)[r.id := old(skills)[r.id].(content := content, updatedAt := now)]
      ensures r.Ok? && r.isNew ==>
                && r.id == newId && skills == old(skills)[newId := Skill(startup, name, content, now, false)]
                && forall id :: id in old(skills) ==> old(skills)[id].startup != startup || old(skills)[id].name != name
    {
      NamesAreWords(name);
      if !NameIsValid(name) {
        return Err(BadName);
      }
      if |content| > MAX_CONTENT_LEN {
        return Err(OversizeContent);
      }
      if id :| id in skills && skills[id].startup == startup && skills[id].name == name {
        skills := skills[id := skills[id].(content := content, updatedAt := now)];
        return Ok(id, false);
      }
      assert forall other :: !IsSkillNamed(skills, other, startup, name);
      skills := skills[newId := Skill(startup, name, content, now, false)];
      return Ok(newId, true);
    }

    /** Checks the skill, then the agent. */
    method CheckPair(startup: StartupId, agent: AgentId, skill: SkillId) returns (refusal: Option<SkillError>)
      ensures refusal == AttachRefusal(agents, Contents(), startup, agent, skill)
    {
      if skill !in skills {
        return Some(NotFound);
      }
      if skills[skill].startup != startup {
        return Some(CrossStartup);
      }
      if agent !in agents {
        return Some(NotFound);
      }
      refusal := if agents[agent] != startup then Some(CrossStartup) else None;
    }

    /** An agent of `startup` upserts a skill; the listing row goes out to the consoles. */
    method HandleUpsert(startup: StartupId, name: string, content: Utf8.bytes, newId: SkillId, now: int)
      returns (r: UpsertResult, frame: Option<SkillChanged>)
      modifies this
      ensures Step(agents, old(Contents()), UpsertOp(startup, name, content, newId, now, false), Contents(), frame)
      ensures r.Err? <==> frame.None?
      ensures r.Err? ==> Some(r.error) == UpsertRefusal(name, content)
      ensures r.Ok? ==> frame.value.skill == r.id
    {
      r := UpsertWithAuthor(startup, name, content, newId, now);
      if r.Err? {
        return r, None;
      }
      var row := RowOf(r.id);
      frame := Some(SkillChanged(startup, Upsert, r.id, None, Some(row)));
    }

    /** An operator who is a manager upserts a skill; the frame carries no row. */
    method HandleOperatorUpsert(isManager: bool, startup: StartupId, name: string, content: Utf8.bytes, newId: SkillId,
                                now: int)
      returns (r: UpsertResult, frame: Option<SkillChanged>)
      modifies this
      ensures !isManager ==> r == Err(Forbidden) && frame.None? && Contents() == old(Contents())
      ensures isManager ==>
                && Step(agents, old(Contents()), UpsertOp(startup, name, content, newId, now, true), Contents(), frame)
                && (r.Err? <==> frame.None?) && (r.Err? ==> Some(r.error) == UpsertRefusal(name, content))
                && (r.Ok? ==> frame.value.skill == r.id)
    {
      if !isManager {
        return Err(Forbidden), None;
      }
      r := UpsertWithAuthor(startup, name, content, newId, now);
      if r.Err? {
        return r, None;
      }
      frame := Some(SkillChanged(startup, Upsert, r.id, None, None));
    }

    /** An operator who is an administrator makes a skill global or takes that back, whichever startup owns it. */
    method HandleSetGlobal(isAdmin: bool, skill: SkillId, isGlobal: bool, now: int)
      returns (refusal: Option<SkillError>, frame: Option<SkillChanged>)
      modifies this`skills
      ensures !isAdmin ==> refusal == Some(Forbidden) && frame.None? && skills == old(skills)
      ensures isAdmin ==>
                && Step(agents, old(Contents()), SetGlobalOp(skill, isGlobal, now), Contents(), frame)
                && (refusal == if skill in old(skills) then None else Some(NotFound))
                && (refusal.None? ==>
                      && skills == old(skills)[skill := old(skills)[skill].(isGlobal := isGlobal, updatedAt := now)]
                      && frame == Some(SkillChanged(old(skills)[skill].startup, GlobalChange, skill, None, None)))
    {
      if !isAdmin {
        return Some(Forbidden), None;
      }
      if skill !in skills {
        return Some(NotFound), None;
      }
      skills := skills[skill := skills[skill].(isGlobal := isGlobal, updatedAt := now)];
      return None, Some(SkillChanged(skills[skill].startup, GlobalChange, skill, None, None));
    }

    method HandleAttach(startup: StartupId, agent: AgentId, skill: SkillId)
      returns (refusal: Option<SkillError>, frame: Option<SkillChanged>)
      modifies this`attached
      ensures Step(agents, old(Contents()), AttachOp(startup, agent, skill), Contents(), frame)
      ensures refusal == if skill !in old(skills) then Some(NotFound)
                         else if old(skills)[skill].startup != startup then Some(CrossStartup)
                         else if agent !in agents then Some(NotFound)
                         else if agents[agent] != startup then Some(CrossStartup)
                         else None
      ensures attached == if refusal.Some? then old(attached) else old(attached) + {(agent, skill)}
      ensures frame == if refusal.Some? then None else Some(SkillChanged(startup, Attach, skill, Some(agent), None))
    {
      refusal := CheckPair(startup, agent, skill);
      if refusal.Some? {
        return refusal, None;
      }
      attached := attached + {(agent, skill)};
      frame := Some(SkillChanged(startup, Attach, skill, Some(agent), None));
    }

    method HandleDetach(startup: StartupId, agent: AgentId, skill: SkillId)
      returns (refusal: Option<SkillError>, frame: Option<SkillChanged>)
      modifies this`attached
      ensures Step(agents, old(Contents()), DetachOp(startup, agent, skill), Contents(), frame)
      ensures refusal == if skill !in old(skills) then Some(NotFound)
                         else if old(skills)[skill].startup != startup then Some(CrossStartup)
                         else if agent !in agents then Some(NotFound)
                         else if agents[agent] != startup then Some(CrossStartup)
                         else None
      ensures attached == if refusal.Some? then old(attached) else old(attached) - {(agent, skill)}
      ensures frame == if refusal.Some? then None else Some(SkillChanged(startup, Detach, skill, Some(agent), None))
    {
      refusal := CheckPair(startup, agent, skill);
      if refusal.Some? {
        return refusal, None;
      }
      attached := attached - {(agent, skill)};
      frame := Some(SkillChanged(startup, Detach, skill, Some(agent), None));
    }

    /** Deleting a skill also deletes its attachments. */
    method HandleDelete(startup: StartupId, skill: SkillId)
      returns (refusal: Option<SkillError>, frame: Option<SkillChanged>)
      modifies this
      ensures Step(agents, old(Contents()), DeleteOp(startup, skill), Contents(), frame)
      ensures refusal == if skill !in old(skills) then Some(NotFound)
                         else if old(skills)[skill].startup != startup then Some(CrossStartup)
                         else None
      ensures skills == if refusal.Some? then old(skills) else old(skills) - {skill}
      ensures forall p :: p in attached <==> p in old(attached) && (refusal.Some? || p.1 != skill)
      ensures frame == if refusal.Some? then None else Some(SkillChanged(startup, Delete, skill, None, None))
    {
      if skill !in skills {
        return Some(NotFound), None;
      }
      if skills[skill].startup != startup {
        return Some(CrossStartup), None;
      }
      skills := skills - {skill};
      attached := set p | p in attached && p.1 != skill;
      return None, Some(SkillChanged(startup, Delete, skill, None, None));
    }

    /** Makes a stored revision the content again. */
    method HandleRevert(startup: StartupId, skill: SkillId, revision: Option<Utf8.bytes>, now: int)
      returns (refusal: Option<SkillError>, frame: Option<SkillChanged>)
      modifies this`skills
      ensures Step(agents, old(Contents()), RevertOp(startup, skill, revision, now), Contents(), frame)
      ensures refusal == if skill !in old(skills) then Some(NotFound)
                         else if old(skills)[skill].startup != startup then Some(CrossStartup)
                         else if revision.None? then Some(NotFound)
                         else None
      ensures skills == if refusal.Some? then old(skills)
                        else old(skills)[skill := old(skills)[skill].(content := revision.value, updatedAt := now)]
      ensures frame == if refusal.Some? then None else Some(SkillChanged(startup, Revert, skill, None, None))
    {
      if skill !in skills {
        return Some(NotFound), None;
      }
      if skills[skill].startup != startup {
        return Some(CrossStartup), None;
      }
      if revision.None? {
        return Some(NotFound), None;
      }
      skills := skills[skill := skills[skill].(content := revision.value, updatedAt := now)];
      return None, Some(SkillChanged(startup, Revert, skill, None, None));
    }

    /** All skills of all startups that have one, by startup. */
    method ListAllWithAttachments() returns (listing: map<StartupId, seq<SkillRow>>)
      ensures IsListing(listing, Contents())
      ensures forall sid, row :: sid in listing && row in listing[sid] ==>
                && row.id in skills && skills[row.id].startup == sid
                && var Skill(_, name, content, updatedAt, isGlobal) := skills[row.id];
                   row == SkillRow(row.id, name, CharCount(content), updatedAt, row.attachments, isGlobal)
    {
      listing := map[];
      var rest := skills.Keys;
      while rest != {}
        invariant rest <= skills.Keys
        invariant forall sid, row :: sid in listing && row in listing[sid] ==>
                    row.id !in rest && IsRow(row, Contents(), row.id) && skills[row.id].startup == sid
        invariant forall id :: id in skills.Keys - rest ==> IsListed(listing, skills[id].startup, id)
        decreases rest
      {
        var id :| id in rest;
        rest := rest - {id};
        var row := RowOf(id);
        var sid := skills[id].startup;
        var rows := if sid in listing then listing[sid] else [];
        ghost var was := listing;
        listing := listing[sid := rows + [row]];
        ListedStays(was, listing, sid, rows, row);
      }
    }
  }

  ghost predicate IsListed(listing: map<StartupId, seq<SkillRow>>, sid: StartupId, id: SkillId) {
    sid in listing && exists row :: row in listing[sid] && row.id == id
  }

  /** The listing shows, in some order, exactly the skills of the tables under their startups. */
  ghost predicate IsListing(listing: map<StartupId, seq<SkillRow>>, t: Tables) {
    && (forall sid, row :: sid in listing && row in listing[sid] ==>
          IsRow(row, t, row.id) && t.skills[row.id].startup == sid)
    && forall id :: id in t.skills ==> IsListed(listing, t.skills[id].startup, id)
  }

  lemma ListedStays(was: map<StartupId, seq<SkillRow>>, listing: map<StartupId, seq<SkillRow>>, sid: StartupId,
                    rows: seq<SkillRow>, row: SkillRow)
    requires rows == if sid in was then was[sid] else []
    requires listing == was[sid := rows + [row]]
    ensures IsListed(listing, sid, row.id)
    ensures forall s, id :: IsListed(was, s, id) ==> IsListed(listing, s, id)
  {
    assert row in listing[sid];
    forall s, id | IsListed(was, s, id)
      ensures IsListed(listing, s, id)
    {
      var r :| r in was[s] && r.id == id;
      assert r in listing[s];
    }
  }

  // ---------------------------------------------------------------- what the operations keep

  /** Names are valid and unique within a startup, contents fit, and a skill is attached only to agents
      of its startup. */
  ghost predicate TablesOk(agents: map<AgentId, StartupId>, t: Tables) {
    && (forall id :: id in t.skills ==> SkillOk(id, t.skills[id]))
    && (forall id, other :: id in t.skills && other in t.skills && SameName(t, id, other) ==> id == other)
    && forall p :: p in t.attached ==> AttachmentOk(agents, t, p)
  }

  ghost predicate SkillOk(id: SkillId, s: Skill) {
    id != "" && NameIsValid(s.name) && |s.content| <= MAX_CONTENT_LEN
  }

  ghost predicate SameName(t: Tables, id: SkillId, other: SkillId)
    requires id in t.skills && other in t.skills
  {
    t.skills[id].startup == t.skills[other].startup && t.skills[id].name == t.skills[other].name
  }

  ghost predicate AttachmentOk(agents: map<AgentId, StartupId>, t: Tables, p: (AgentId, SkillId)) {
    p.1 in t.skills && p.0 in agents && agents[p.0] == t.skills[p.1].startup
  }

  lemma UpsertKeepsNamesUnique(agents: map<AgentId, StartupId>, t: Tables, op: Op, t': Tables, id: SkillId, x: SkillId,
                               y: SkillId)
    requires TablesOk(agents, t) && InputsOk(t, op) && op.UpsertOp? && Upserted(t, op, t', id)
    requires x in t'.skills && y in t'.skills && SameName(t', x, y)
    ensures x == y
  {
    if x != id && y != id {
      assert SameName(t, x, y);
    } else if x != y {
      var other := if x == id then y else x;
      assert IsSkillNamed(t.skills, other, op.startup, op.name);
      assert SameName(t, other, id);
    }
  }

  lemma StepKeepsTablesOk(agents: map<AgentId, StartupId>, t: Tables, op: Op, t': Tables, e: Option<SkillChanged>)
    requires TablesOk(agents, t) && InputsOk(t, op) && Step(agents, t, op, t', e)
    ensures TablesOk(agents, t')
  {
    if Refusal(agents, t, op).None? {
      forall x, y | x in t'.skills && y in t'.skills && SameName(t', x, y)
        ensures x == y
      {
        if op.UpsertOp? {
          UpsertKeepsNamesUnique(agents, t, op, t', e.value.skill, x, y);
        } else {
          assert SameName(t, x, y);
        }
      }
    }
  }
}
