/** The console's copy of the skills: the cases of the state reducer that build and update it. */
module Store {
  import opened Wrappers
  import opened Skills

  /** Skills by startup and id, as the console holds them. */
  type SkillsVM = map<StartupId, map<SkillId, SkillRow>>

  function Lookup(vm: SkillsVM, sid: StartupId, id: SkillId): Option<SkillRow> {
    if sid in vm && id in vm[sid] then Some(vm[sid][id]) else None
  }

  /** The rows of one startup by their ids; a row without an id is skipped. */
  function ById(rows: seq<SkillRow>): map<SkillId, SkillRow> {
    if rows == [] then map[]
    else
      var before, row := ById(rows[..|rows| - 1]), rows[|rows| - 1];
      if row.id == "" then before else before[row.id := row]
  }

  /** The reducer on a `skills_snapshot` frame. */
  function OnSnapshot(startups: map<StartupId, seq<SkillRow>>): SkillsVM {
    map sid | sid in startups :: ById(startups[sid])
  }

  /** The reducer on a `skill_changed` frame, for the skills of the frame's startup. */
  function ChangeInner(inner: map<SkillId, SkillRow>, e: SkillChanged): map<SkillId, SkillRow> {
    var named := e.agent.Some? && e.agent.value != "";
    if e.kind == Upsert && e.row.Some? then inner[e.skill := e.row.value]
    else if e.kind == Delete then inner - {e.skill}
    else if e.kind == Attach && e.skill in inner && named then
      var existing := inner[e.skill];
      if e.agent.value in existing.attachments then inner
      else inner[e.skill := existing.(attachments := existing.attachments + [e.agent.value])]
    else if e.kind == Detach && e.skill in inner && named then
      var existing := inner[e.skill];
      inner[e.skill := existing.(attachments := Without(existing.attachments, e.agent.value))]
    else inner
  }

  /** A list without the entries equal to `a`. */
  function Without(s: seq<AgentId>, a: AgentId): (r: seq<AgentId>)
    ensures forall x :: x in r <==> x in s && x != a
  {
    if s == [] then []
    else if s[0] == a then Without(s[1..], a)
    else [s[0]] + Without(s[1..], a)
  }

  lemma {:induction false} WithoutKeepsOnce(s: seq<AgentId>, a: AgentId)
    requires EachOnce(s)
    ensures EachOnce(Without(s, a))
  {
    if s != [] {
      var w := Without(s[1..], a);
      WithoutKeepsOnce(s[1..], a);
      forall j | 0 <= j < |w|
        ensures w[j] != s[0]
      {
        assert w[j] in w;
        var k :| 0 <= k < |s[1..]| && s[1..][k] == w[j];
        assert s[k + 1] != s[0];
      }
    }
  }

  function OnChange(vm: SkillsVM, e: SkillChanged): SkillsVM {
    vm[e.startup := ChangeInner(if e.startup in vm then vm[e.startup] else map[], e)]
  }

  /** The reducer applied to a sequence of steps, of which some broadcast a frame. */
  function Replay(vm: SkillsVM, frames: seq<Option<SkillChanged>>): SkillsVM {
    if frames == [] then vm
    else
      var before, last := Replay(vm, frames[..|frames| - 1]), frames[|frames| - 1];
      if last.None? then before else OnChange(before, last.value)
  }

  /** What a frame does to one skill. */
  function ChangeRow(row: Option<SkillRow>, e: SkillChanged): Option<SkillRow> {
    var named := e.agent.Some? && e.agent.value != "";
    if e.kind == Upsert && e.row.Some? then e.row
    else if e.kind == Delete then None
    else if row.None? || !named then row
    else if e.kind == Attach && e.agent.value !in row.value.attachments then
      Some(row.value.(attachments := row.value.attachments + [e.agent.value]))
    else if e.kind == Detach then Some(row.value.(attachments := Without(row.value.attachments, e.agent.value)))
    else row
  }

  /** A frame changes the skill it names and no other. */
  lemma ChangeIsLocal(vm: SkillsVM, e: SkillChanged, sid: StartupId, id: SkillId)
    ensures Lookup(OnChange(vm, e), sid, id) ==
            if e.startup == sid && e.skill == id then ChangeRow(Lookup(vm, sid, id), e) else Lookup(vm, sid, id)
  {}

  /** Rows with distinct non-empty ids are found under them. */
  lemma {:induction false} ByIdFinds(rows: seq<SkillRow>, id: SkillId)
    ensures id in ById(rows) <==> id != "" && exists row :: row in rows && row.id == id
    ensures id in ById(rows) ==> ById(rows)[id] in rows && ById(rows)[id].id == id
  {
    if rows != [] {
      var front, last := rows[..|rows| - 1], rows[|rows| - 1];
      ByIdFinds(front, id);
      assert rows == front + [last];
      if row :| row in rows && row.id == id {
        assert row in front || row == last;
      }
    }
  }
}
