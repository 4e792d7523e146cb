// How one user server indexes its local users against the calls it manages
// (crates/userserver/src/call/mod.rs, crates/userserver/src/call/ws.rs).
// A transition is one stretch of a handler between two awaits.

module UserCallsSpec {
  import opened Options
  import Accounts
  import opened Signal
  import opened ManagerSpec

  type UserId = Accounts.UserId

  /** An unaccepted invite for a local user. */
  datatype Invite = Invite(callId: CallId, forUser: UserId)

  datatype UserServer = UserServer(
    domain: ServerId,
    users: map<UserId, string>,         // registered users and their usernames
    mgr: Manager,                       // calls this server manages
    userCall: map<UserId, CallId>,      // the call a user is in
    locals: map<CallId, seq<UserId>>,   // the local members of a call
    links: set<CallId>,                 // calls with a link to a remote manager
    pending: map<CallId, Invite>)

  function FullId(s: UserServer, u: UserId): ParticipantId
    requires u in s.users
  {
    Accounts.FullId(s.users, u, s.domain)
  }

  // ── the maps of CallState ─────────────────────────────────────────────

  function LocalsOf(locals: map<CallId, seq<UserId>>, c: CallId): seq<UserId> { if c in locals then locals[c] else [] }

  function AddLocal(locals: map<CallId, seq<UserId>>, c: CallId, u: UserId): map<CallId, seq<UserId>> {
    var v := LocalsOf(locals, c);
    locals[c := if u in v then v else v + [u]]
  }

  function Others(v: seq<UserId>, u: UserId): seq<UserId> {
    if v == [] then [] else if v[0] == u then Others(v[1..], u) else [v[0]] + Others(v[1..], u)
  }

  function RemoveLocal(locals: map<CallId, seq<UserId>>, c: CallId, u: UserId): map<CallId, seq<UserId>> {
    if c !in locals then locals
    else if Others(locals[c], u) == [] then locals - {c}
    else locals[c := Others(locals[c], u)]
  }

  /** Drop the users of `v` whose current call is `c`. */
  function ForgetCall(userCall: map<UserId, CallId>, c: CallId, v: seq<UserId>): map<UserId, CallId> {
    map u | u in userCall && !(u in v && userCall[u] == c) :: userCall[u]
  }

  // ── handlers ──────────────────────────────────────────────────────────

  datatype Event =
    | UserStarts(u: UserId, to: ServerId, id: CallId, token: string, sink: SinkId)
    | InviteFailed(u: UserId, c: CallId)
    | InviteArrives(invite: Invite)
    | UserAccepts(u: UserId, c: CallId, sink: SinkId)
    | UserRejects(c: CallId)
    | Connected(u: UserId, c: CallId)
    | LinkClosed(c: CallId)
    | UserLeaves(u: UserId, c: CallId)
    | CallEndArrives(u: UserId, c: CallId, outcome: string)
    | EndHandled(c: CallId)
    | PeerJoins(c: CallId, row: Participant)
    | PeerRelays(frame: SignalMsg)
    | PeerHangsUp(c: CallId)
    | PeerLeaves(c: CallId, d: ServerId)

  /** Only registered users act, and a drawn uuid or channel is new. */
  predicate Admissible(s: UserServer, e: Event) {
    match e
    case UserStarts(u, _, id, _, sink) =>
      u in s.users && id !in s.mgr.issued && id !in s.locals && id !in s.links && sink !in s.mgr.queues
    case InviteFailed(u, _) => u in s.users
    case UserAccepts(u, _, sink) => u in s.users && sink !in s.mgr.queues
    case Connected(u, _) => u in s.users
    case UserLeaves(u, _) => u in s.users
    case CallEndArrives(u, _, _) => u in s.users
    case PeerJoins(_, row) => row.sink !in s.mgr.queues
    case _ => true
  }

  /**
   * Nobody else speaks for a call this server manages: no remote manager takes its id,
   * or says it ended, and no remote peer attaches or detaches under this server's name.
   */
  predicate Undisturbed(s: UserServer, e: Event) {
    match e
    case Connected(_, c) => c !in s.mgr.calls
    case EndHandled(c) => c !in s.mgr.calls
    case PeerJoins(_, row) => row.domain != s.domain
    case PeerLeaves(_, d) => d != s.domain
    case _ => true
  }

  function Handle(s: UserServer, e: Event): UserServer
    requires Admissible(s, e)
  {
    match e
    case UserStarts(u, to, id, token, sink) => EnsureLocal(s.(mgr := StepOpen(s.mgr, to, id, token)), u, id, sink)
    case InviteFailed(u, c) => Unindex(s.(mgr := StepEnd(s.mgr, c, "invite-failed")), u, c)
    case InviteArrives(invite) => s.(pending := s.pending[invite.callId := invite])
    case UserAccepts(u, c, sink) => AcceptCall(s, u, c, sink)
    case UserRejects(c) => s.(pending := s.pending - {c})
    case Connected(u, c) => Linked(s, u, c)
    case LinkClosed(c) => s.(links := s.links - {c})
    case UserLeaves(u, c) => Depart(s, u, c)
    case CallEndArrives(u, c, outcome) =>
      Unindex(s.(pending := s.pending - {c}, mgr := StepEnd(s.mgr, c, outcome), links := s.links - {c}), u, c)
    case EndHandled(c) => DropCall(s, c)
    case PeerJoins(c, row) => s.(mgr := StepJoin(s.mgr, c, row))
    case PeerRelays(frame) => s.(mgr := StepRoute(s.mgr, frame))
    case PeerHangsUp(c) => s.(mgr := StepEnd(s.mgr, c, "hangup"))
    case PeerLeaves(c, d) => s.(mgr := StepLeave(s.mgr, c, d))
  }

  /** `ensure_local_participant`: attach this server, or add one more member to its row. */
  function EnsureLocal(s: UserServer, u: UserId, c: CallId, sink: SinkId): UserServer
    requires u in s.users
  {
    s.(locals := AddLocal(s.locals, c, u), userCall := s.userCall[u := c],
       mgr := if FirstRow(LiveRows(s.mgr, c), s.domain).Some? then StepAdd(s.mgr, c, s.domain, FullId(s, u))
              else StepJoin(s.mgr, c, Participant(s.domain, [FullId(s, u)], [], sink)))
  }

  /** `connect_to_manager`: a link to a remote manager. */
  function Linked(s: UserServer, u: UserId, c: CallId): UserServer {
    s.(links := s.links + {c}, locals := AddLocal(s.locals, c, u), userCall := s.userCall[u := c])
  }

  function LiveRows(m: Manager, c: CallId): seq<Participant> { if c in m.calls then m.calls[c].participants else [] }

  function AcceptCall(s: UserServer, u: UserId, c: CallId, sink: SinkId): UserServer
    requires u in s.users
  {
    if c !in s.pending then s
    else
      var taken := s.(pending := s.pending - {c});
      var inv := s.pending[c];
      if inv.forUser == u && inv.callId in s.mgr.calls then EnsureLocal(taken, u, inv.callId, sink) else taken
  }

  /** `remove_local` and `clear_user_call`. */
  function Unindex(s: UserServer, u: UserId, c: CallId): UserServer {
    s.(locals := RemoveLocal(s.locals, c, u), userCall := s.userCall - {u})
  }

  /** `leave_call`: the last local member takes the call down, or this server's row in a room. */
  function Depart(s: UserServer, u: UserId, c: CallId): UserServer
    requires u in s.users
  {
    var gone := Unindex(s, u, c);
    if LocalsOf(gone.locals, c) != [] then gone.(mgr := StepRemove(gone.mgr, c, gone.domain, FullId(s, u)))
    else
      var isRoom := c in gone.mgr.calls && gone.mgr.calls[c].kind.ChannelRoom?;
      gone.(links := gone.links - {c},
            mgr := if c in gone.links then gone.mgr
                   else if isRoom then StepLeave(gone.mgr, c, gone.domain)
                   else StepEnd(gone.mgr, c, "hangup"))
  }

  /** The call ended for everyone: `drain_locals` and `drop_manager_link`. */
  function DropCall(s: UserServer, c: CallId): UserServer {
    s.(userCall := ForgetCall(s.userCall, c, LocalsOf(s.locals, c)), locals := s.locals - {c}, links := s.links - {c})
  }

  /** `submit_to_manager` when this server is the manager itself. */
  function Submitted(m: Manager, me: ServerId, frame: SignalMsg): Manager {
    match frame
    case Sdp(_, _, _, _, _) => StepRoute(m, frame)
    case Ice(_, _, _, _) => StepRoute(m, frame)
    case Mute(_, _, _) => StepRoute(m, frame)
    case Hangup(id) => StepEnd(m, id, "hangup")
    case LeaveCall(id) => StepLeave(m, id, me)
    case _ => m
  }

  // ── runs ──────────────────────────────────────────────────────────────

  function Replay(s: UserServer, es: seq<Event>): UserServer
    requires Lawful(s, es)
    decreases |es|
  {
    if es == [] then s else Replay(Handle(s, es[0]), es[1..])
  }

  predicate Lawful(s: UserServer, es: seq<Event>)
    decreases |es|
  {
    es == [] || (Admissible(s, es[0]) && Lawful(Handle(s, es[0]), es[1..]))
  }

  function Boot(domain: ServerId, users: map<UserId, string>): UserServer {
    UserServer(domain, users, Init, map[], map[], {}, map[])
  }
}
