/** The in-memory world: avatars and the walks stored for them. */
module State {
  import opened Wrappers
  import opened Path

  type AgentId = string
  type StartupId = string

  /** Agents hold one of the first three roles; the possessing operator's avatar holds the last. */
  datatype Role = Founder | Engineer | Designer | Operator
  datatype AvatarStatus = Idle | Working | Walking | Talking | Offline

  datatype Avatar = Avatar(startup: StartupId, role: Role, pos: Tile, target: Option<Tile>, room: RoomId,
                           status: AvatarStatus)

  /** The avatar the operator console possesses. */
  const OPERATOR_AVATAR_ID: AgentId := "__operator__"

  class WorldView {
    var avatars: map<AgentId, Avatar>

    constructor (avatars: map<AgentId, Avatar>)
      ensures this.avatars == avatars
    {
      this.avatars := avatars;
    }
  }

  /** One step of a stored walk: the tile to move onto and the room entered on arriving there, if any. */
  datatype Step = Step(tile: Tile, enter: Option<RoomId>)

  class PathStore {
    var queues: map<AgentId, seq<Step>>

    constructor ()
      ensures queues == map[]
    {
      queues := map[];
    }
  }
}
