// What one call manager does, as a state and its transitions
// (crates/common/src/call/manager.rs). The class in CallManager.dfy is proved
// against these functions; CallRuns.dfy proves what every run of them keeps.

module ManagerSpec {
  import opened Options
  import opened Signal

  /** An unbounded channel. Its log holds every frame ever sent into it, oldest first. */
  type SinkId = nat
  type Queues = map<SinkId, seq<SignalMsg>>

  datatype Participant = Participant(
    domain: ServerId, members: seq<ParticipantId>, muted: seq<ParticipantId>, sink: SinkId)

  datatype Call = Call(kind: CallKind, participants: seq<Participant>, tokens: map<ServerId, string>)

  /** `issued` holds every call id ever drawn and `joined` every call ever joined. */
  datatype Manager = Manager(
    calls: map<CallId, Call>, rooms: map<string, CallId>, queues: Queues,
    issued: set<CallId>, joined: set<CallId>)

  const Init: Manager := Manager(map[], map[], map[], {}, {})

  // ── rows ──────────────────────────────────────────────────────────────

  function Entry(p: Participant): RosterEntry { RosterEntry(p.domain, p.members, p.muted) }

  function RosterOf(ps: seq<Participant>): seq<RosterEntry> {
    seq(|ps|, i requires 0 <= i < |ps| => Entry(ps[i]))
  }

  function Domains(ps: seq<Participant>): set<ServerId> { set p | p in ps :: p.domain }

  function Sinks(ps: seq<Participant>): set<SinkId> { set p | p in ps :: p.sink }

  /** The rows left by `participants.retain(|p| p.domain != d)`. */
  function Without(ps: seq<Participant>, d: ServerId): seq<Participant> {
    if ps == [] then []
    else if ps[0].domain == d then Without(ps[1..], d)
    else [ps[0]] + Without(ps[1..], d)
  }

  function WithoutMember(ms: seq<ParticipantId>, m: ParticipantId): seq<ParticipantId> {
    if ms == [] then []
    else if ms[0] == m then WithoutMember(ms[1..], m)
    else [ms[0]] + WithoutMember(ms[1..], m)
  }

  datatype Edit = AddOne(member: ParticipantId) | DropOne(member: ParticipantId) | MuteOne(member: ParticipantId, on: bool)

  function EditRow(p: Participant, e: Edit): Participant {
    match e
    case AddOne(m) => if m in p.members then p else p.(members := p.members + [m])
    case DropOne(m) => p.(members := WithoutMember(p.members, m), muted := WithoutMember(p.muted, m))
    case MuteOne(m, on) => p.(muted := WithoutMember(p.muted, m) + if on then [m] else [])
  }

  /** Edit the first row of domain `d`, if there is one. */
  function EditFirst(ps: seq<Participant>, d: ServerId, e: Edit): seq<Participant> {
    if ps == [] then []
    else if ps[0].domain == d then [EditRow(ps[0], e)] + ps[1..]
    else [ps[0]] + EditFirst(ps[1..], d, e)
  }

  function FirstRow(ps: seq<Participant>, d: ServerId): Option<Participant> {
    if ps == [] then None
    else if ps[0].domain == d then Some(ps[0])
    else FirstRow(ps[1..], d)
  }

  // ── sending ───────────────────────────────────────────────────────────

  function Log(q: Queues, s: SinkId): seq<SignalMsg> { if s in q then q[s] else [] }

  function Send(q: Queues, s: SinkId, m: SignalMsg): Queues { q[s := Log(q, s) + [m]] }

  function Broadcast(q: Queues, ps: seq<Participant>, m: SignalMsg): Queues
    decreases |ps|
  {
    if ps == [] then q else Broadcast(Send(q, ps[0].sink, m), ps[1..], m)
  }

  // ── transitions ───────────────────────────────────────────────────────

  /** Fresh ids, tokens and channels are drawn by the caller and passed in. */
  datatype Op =
    | OpenDirect(invited: ServerId, id: CallId, token: string)
    | MintToken(id: CallId, domain: ServerId, token: string)
    | GetRoom(path: string, id: CallId)
    | Join(id: CallId, row: Participant)
    | AddMember(id: CallId, domain: ServerId, member: ParticipantId)
    | RemoveMember(id: CallId, domain: ServerId, member: ParticipantId)
    | Leave(id: CallId, domain: ServerId)
    | End(id: CallId, reason: string)
    | Route(frame: SignalMsg)
    | SetMuted(id: CallId, domain: ServerId, member: ParticipantId, on: bool)

  /** What the callers guarantee: a drawn uuid is new, and so is the channel of a joining row. */
  predicate Enabled(m: Manager, op: Op) {
    match op
    case OpenDirect(_, id, _) => id !in m.issued
    case GetRoom(path, id) => path !in m.rooms ==> id !in m.issued
    case Join(_, row) => row.sink !in m.queues
    case _ => true
  }

  function Step(m: Manager, op: Op): Manager {
    match op
    case OpenDirect(invited, id, token) => StepOpen(m, invited, id, token)
    case MintToken(id, domain, token) => StepMint(m, id, domain, token)
    case GetRoom(path, id) => StepRoom(m, path, id)
    case Join(id, row) => StepJoin(m, id, row)
    case AddMember(id, d, u) => StepAdd(m, id, d, u)
    case RemoveMember(id, d, u) => StepRemove(m, id, d, u)
    case Leave(id, d) => StepLeave(m, id, d)
    case End(id, reason) => StepEnd(m, id, reason)
    case Route(frame) => StepRoute(m, frame)
    case SetMuted(id, d, u, on) => StepMute(m, id, d, u, on)
  }

  function StepOpen(m: Manager, invited: ServerId, id: CallId, token: string): Manager {
    m.(calls := m.calls[id := Call(Direct, [], map[invited := token])], issued := m.issued + {id})
  }

  function StepMint(m: Manager, id: CallId, domain: ServerId, token: string): Manager {
    if id !in m.calls || domain in m.calls[id].tokens then m
    else SetCall(m, id, m.calls[id].(tokens := m.calls[id].tokens[domain := token]))
  }

  function StepRoom(m: Manager, path: string, id: CallId): Manager {
    if path in m.rooms then m
    else m.(rooms := m.rooms[path := id], calls := m.calls[id := Call(ChannelRoom(path), [], map[])],
            issued := m.issued + {id})
  }

  function StepJoin(m: Manager, id: CallId, row: Participant): Manager {
    if id !in m.calls then m
    else
      var kept := Without(m.calls[id].participants, row.domain);
      var rows := kept + [row];
      var told := Tell(m, kept, ParticipantJoined(id, row.domain, row.members));
      Tell(SetRows(told, id, rows), rows, Roster(id, RosterOf(rows))).(joined := m.joined + {id})
  }

  function StepAdd(m: Manager, id: CallId, d: ServerId, u: ParticipantId): Manager {
    if id !in m.calls then m
    else
      var rows := EditFirst(m.calls[id].participants, d, AddOne(u));
      Announce(SetRows(m, id, rows), rows, ParticipantJoined(id, d, [u]), Roster(id, RosterOf(rows)))
  }

  function StepRemove(m: Manager, id: CallId, d: ServerId, u: ParticipantId): Manager {
    if id !in m.calls || FirstRow(m.calls[id].participants, d).None? then m
    else
      var rows := EditFirst(m.calls[id].participants, d, DropOne(u));
      Tell(SetRows(m, id, rows), rows, Roster(id, RosterOf(rows)))
  }

  function StepLeave(m: Manager, id: CallId, d: ServerId): Manager {
    if id !in m.calls || |Without(m.calls[id].participants, d)| == |m.calls[id].participants| then m
    else
      var kept := Without(m.calls[id].participants, d);
      var told := Announce(SetRows(m, id, kept), kept, ParticipantLeft(id, d), Roster(id, RosterOf(kept)));
      if kept == [] && !m.calls[id].kind.IsPersistent() then told.(calls := told.calls - {id}) else told
  }

  function StepEnd(m: Manager, id: CallId, reason: string): Manager {
    if id !in m.calls then m
    else
      var c := m.calls[id];
      var told := Tell(m, c.participants, CallEnded(id, reason));
      told.(calls := told.calls - {id},
            rooms := if c.kind.ChannelRoom? then told.rooms - {c.kind.channelPath} else told.rooms)
  }

  function StepRoute(m: Manager, frame: SignalMsg): Manager {
    if FrameCall(frame).None? || RouteTarget(frame).None? || FrameCall(frame).value !in m.calls then m
    else
      var row := FirstRow(m.calls[FrameCall(frame).value].participants, RouteTarget(frame).value);
      if row.None? then m else m.(queues := Send(m.queues, row.value.sink, frame))
  }

  function StepMute(m: Manager, id: CallId, d: ServerId, u: ParticipantId, on: bool): Manager {
    if id !in m.calls then m
    else
      var rows := EditFirst(m.calls[id].participants, d, MuteOne(u, on));
      Tell(SetRows(m, id, rows), rows, Mute(id, u, on))
  }

  function SetCall(m: Manager, id: CallId, c: Call): Manager { m.(calls := m.calls[id := c]) }

  function SetRows(m: Manager, id: CallId, rows: seq<Participant>): Manager
    requires id in m.calls
  {
    SetCall(m, id, m.calls[id].(participants := rows))
  }

  function Tell(m: Manager, rows: seq<Participant>, f: SignalMsg): Manager {
    m.(queues := Broadcast(m.queues, rows, f))
  }

  function Announce(m: Manager, rows: seq<Participant>, f: SignalMsg, g: SignalMsg): Manager {
    Tell(Tell(m, rows, f), rows, g)
  }

  // ── runs ──────────────────────────────────────────────────────────────

  function Run(m: Manager, ops: seq<Op>): Manager
    decreases |ops|
  {
    if ops == [] then m else Run(Step(m, ops[0]), ops[1..])
  }

  predicate Legal(m: Manager, ops: seq<Op>)
    decreases |ops|
  {
    ops == [] || (Enabled(m, ops[0]) && Legal(Step(m, ops[0]), ops[1..]))
  }

  // ── queries ───────────────────────────────────────────────────────────

  predicate Attached(m: Manager, id: CallId, p: Participant) {
    id in m.calls && p in m.calls[id].participants
  }

  predicate HasParticipant(m: Manager, id: CallId, d: ServerId) {
    id in m.calls && exists p :: p in m.calls[id].participants && p.domain == d
  }

  predicate Verifies(m: Manager, id: CallId, d: ServerId, token: string) {
    id in m.calls && d in m.calls[id].tokens && m.calls[id].tokens[d] == token
  }
}
