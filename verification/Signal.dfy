// Wire frames for call signaling (crates/common/src/call/signal.rs, mod.rs).
// One enum is reused on every hop: browser <-> user server <-> call manager.

module Options {
  datatype Option<+T> = None | Some(value: T)
}

module Signal {
  import opened Options

  type CallId = string
  type ParticipantId = string  // user@domain
  type ServerId = string       // the host of a user server or channel server

  datatype CallKind =
    | Direct
    | ChannelRoom(channelPath: string)
  {
    predicate IsPersistent() { ChannelRoom? }
  }

  datatype RosterEntry = RosterEntry(server: ServerId, members: seq<ParticipantId>, muted: seq<ParticipantId>)

  datatype SignalMsg =
    | StartCall(callee: ParticipantId)
    | Accept(callId: CallId)
    | Reject(callId: CallId)
    | JoinRoom(channelServer: string, channelId: string)
    | LeaveCall(callId: CallId)
    | Hangup(callId: CallId)
    | JoinCall(callId: CallId, server: ServerId, members: seq<ParticipantId>)
    | Sdp(callId: CallId, from: ServerId, to: ServerId, sdp: string, answer: bool)
    | Ice(callId: CallId, from: ServerId, to: ServerId, candidate: string)
    | Mute(callId: CallId, member: ParticipantId, muted: bool)
    | IncomingCall(callId: CallId, caller: ParticipantId, managerWsUrl: string, token: string)
    | Roster(callId: CallId, participants: seq<RosterEntry>)
    | ParticipantJoined(callId: CallId, server: ServerId, members: seq<ParticipantId>)
    | ParticipantLeft(callId: CallId, server: ServerId)
    | CallEnded(callId: CallId, reason: string)
    | Error(message: string)

  /** The call a frame is about; three frame kinds carry none. */
  function FrameCall(m: SignalMsg): Option<CallId> {
    match m
    case StartCall(_) => None
    case JoinRoom(_, _) => None
    case Error(_) => None
    case _ => Some(m.callId)
  }

  /** Destination server of a point-to-point frame. */
  function RouteTarget(m: SignalMsg): Option<ServerId> {
    match m
    case Sdp(_, _, to, _, _) => Some(to)
    case Ice(_, _, to, _) => Some(to)
    case _ => None
  }
}
