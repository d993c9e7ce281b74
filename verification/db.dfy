/** The relational state: one map per table, one field per column that the model uses. */
module Db {
  import opened Wrappers
  import opened Path
  import opened State
  import opened TaskSm

  type TaskId = string

  datatype Task = Task(startup: StartupId, parent: Option<TaskId>, assignee: Option<AgentId>,
                       requiredRoom: Option<RoomId>, status: TaskStatus, reviewRound: nat,
                       artifact: Option<string>, blockedOn: Option<TaskId>)

  datatype Agent = Agent(startup: StartupId, role: Role, manager: Option<AgentId>, peerReviewer: bool)

  datatype Startup = Startup(spent: real, cap: real, autoSteal: bool, autoRecovery: bool, recoveryAttempts: int)

  type TaskTable = map<TaskId, Task>
  type AgentTable = map<AgentId, Agent>
  type StartupTable = map<StartupId, Startup>

  class Database {
    var tasks: TaskTable
    var agents: AgentTable
    var startups: StartupTable

    constructor (tasks: TaskTable, agents: AgentTable, startups: StartupTable)
      ensures this.tasks == tasks && this.agents == agents && this.startups == startups
    {
      this.tasks, this.agents, this.startups := tasks, agents, startups;
    }
  }

  /** Avatars other than the operator's agree with their rows in the agents table, where nobody is an operator. */
  ghost predicate Mirrors(avatars: map<AgentId, Avatar>, agents: AgentTable) {
    && (forall a :: a in agents ==> a != OPERATOR_AVATAR_ID && agents[a].role != Role.Operator)
    && forall a :: a in avatars ==>
         if a == OPERATOR_AVATAR_ID then avatars[a].role == Role.Operator
         else a in agents && agents[a].startup == avatars[a].startup && agents[a].role == avatars[a].role
  }

  /** The only artifact path a task may be submitted with. */
  function CanonicalArtifact(startup: StartupId, task: TaskId): string {
    "workspaces/" + startup + "/artifacts/" + task + ".md"
  }

  predicate HasNoSlash(s: string) {
    forall i :: 0 <= i < |s| ==> s[i] != '/'
  }

  /** Startups whose ids hold no slash never share an artifact path, and neither do two tasks of one startup. */
  lemma ArtifactPathsDiffer(s1: StartupId, t1: TaskId, s2: StartupId, t2: TaskId)
    requires HasNoSlash(s1) && HasNoSlash(s2)
    requires CanonicalArtifact(s1, t1) == CanonicalArtifact(s2, t2)
    ensures s1 == s2 && t1 == t2
  {
    PathParts(s1, t1);
    PathParts(s2, t2);
    SamePrefix("workspaces/", s1 + ("/artifacts/" + (t1 + ".md")), s2 + ("/artifacts/" + (t2 + ".md")));
    TextBeforeSlash(s1, "/artifacts/" + (t1 + ".md"), s2, "/artifacts/" + (t2 + ".md"));
    SamePrefix("/artifacts/", t1 + ".md", t2 + ".md");
    assert (t1 + ".md")[..|t1|] == t1 && (t2 + ".md")[..|t2|] == t2;
  }

  lemma PathParts(s: StartupId, t: TaskId)
    ensures CanonicalArtifact(s, t) == "workspaces/" + (s + ("/artifacts/" + (t + ".md")))
  {}

  lemma SamePrefix(p: string, x: string, y: string)
    requires p + x == p + y
    ensures x == y
  {
    assert (p + x)[|p|..] == x && (p + y)[|p|..] == y;
  }

  lemma TextBeforeSlash(a: string, x: string, b: string, y: string)
    requires HasNoSlash(a) && HasNoSlash(b) && x != "" && y != "" && x[0] == '/' && y[0] == '/'
    requires a + x == b + y
    ensures a == b && x == y
  {
    NoLonger(a, x, b, y);
    NoLonger(b, y, a, x);
    assert (a + x)[..|a|] == a && (b + y)[..|b|] == b && (a + x)[|a|..] == x && (b + y)[|b|..] == y;
  }

  lemma NoLonger(a: string, x: string, b: string, y: string)
    requires HasNoSlash(b) && x != "" && x[0] == '/' && a + x == b + y
    ensures |b| <= |a|
  {
    assert (a + x)[|a|] == '/';
    assert forall k :: 0 <= k < |b| ==> (b + y)[k] == b[k];
  }
}
