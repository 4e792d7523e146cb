// What each handler of a user server does to its maps, entry by entry
// (crates/userserver/src/call/mod.rs, crates/userserver/src/call/ws.rs).

module UserCallsEffects {
  import opened Options
  import opened Signal
  import opened ManagerSpec
  import opened CallRuns
  import opened UserCallsSpec
  import opened UserCallsIndex

  /** The call a user accepts, if the invite is the user's and the call is managed here. */
  function Accepted(s: UserServer, u: UserId, c: CallId): Option<CallId> {
    if c in s.pending && s.pending[c].forUser == u && s.pending[c].callId in s.mgr.calls then Some(s.pending[c].callId) else None
  }

  // ── invites ───────────────────────────────────────────────────────────

  /** An invite stays until the user accepts or rejects it or learns that the call ended; accepting takes it away in any case. */
  lemma InviteAfter(s: UserServer, e: Event, c: CallId)
    requires Admissible(s, e)
    ensures c in Handle(s, e).pending <==>
              match e
              case InviteArrives(invite) => c == invite.callId || c in s.pending
              case UserAccepts(_, d, _) => c != d && c in s.pending
              case UserRejects(d) => c != d && c in s.pending
              case CallEndArrives(_, d, _) => c != d && c in s.pending
              case _ => c in s.pending
    ensures c in Handle(s, e).pending ==>
              Handle(s, e).pending[c] == if e.InviteArrives? && c == e.invite.callId then e.invite else s.pending[c]
  {
  }

  // ── links ─────────────────────────────────────────────────────────────

  /** A link is dropped when it closes, when the call ended, and when the last local member leaves. */
  lemma LinkAfter(s: UserServer, e: Event, c: CallId)
    requires Admissible(s, e)
    ensures c in Handle(s, e).links <==>
              match e
              case Connected(_, d) => c == d || c in s.links
              case LinkClosed(d) => c != d && c in s.links
              case EndHandled(d) => c != d && c in s.links
              case CallEndArrives(_, d, _) => c != d && c in s.links
              case UserLeaves(u, d) => c in s.links && (c == d ==> exists v :: v in LocalsOf(s.locals, d) && v != u)
              case _ => c in s.links
  {
    if e.UserLeaves? {
      LeftBehind(s.locals, e.c, e.u);
    }
  }

  lemma LeftBehind(locals: map<CallId, seq<UserId>>, c: CallId, u: UserId)
    ensures LocalsOf(UserCallsSpec.RemoveLocal(locals, c, u), c) != [] <==> exists v :: v in LocalsOf(locals, c) && v != u
  {
    if c in locals {
      OthersEffect(locals[c], u);
      if Others(locals[c], u) != [] { assert Others(locals[c], u)[0] in Others(locals[c], u); }
    }
  }

  // ── pointers and members ──────────────────────────────────────────────

  predicate PointsAt(s: UserServer, v: UserId, c: CallId) { v in s.userCall && s.userCall[v] == c }

  predicate IsLocal(s: UserServer, v: UserId, c: CallId) { c in s.locals && v in s.locals[c] }

  /** Which call a user is in: the one started, accepted or dialled last, until the user leaves, or that very call ends. */
  lemma PointerAfter(s: UserServer, e: Event, v: UserId, c: CallId)
    requires Admissible(s, e)
    ensures PointsAt(Handle(s, e), v, c) <==>
              match e
              case UserStarts(u, _, id, _, _) => if v == u then c == id else PointsAt(s, v, c)
              case UserAccepts(u, d, _) => if v == u && Accepted(s, u, d).Some? then Accepted(s, u, d) == Some(c) else PointsAt(s, v, c)
              case Connected(u, d) => if v == u then c == d else PointsAt(s, v, c)
              case InviteFailed(u, _) => v != u && PointsAt(s, v, c)
              case UserLeaves(u, _) => v != u && PointsAt(s, v, c)
              case CallEndArrives(u, _, _) => v != u && PointsAt(s, v, c)
              case EndHandled(d) => PointsAt(s, v, c) && !(c == d && IsLocal(s, v, d))
              case _ => PointsAt(s, v, c)
  {
  }

  lemma AddedLocal(locals: map<CallId, seq<UserId>>, d: CallId, u: UserId, v: UserId, c: CallId)
    ensures var after := UserCallsSpec.AddLocal(locals, d, u);
            c in after && v in after[c] <==> (c in locals && v in locals[c]) || (v == u && c == d)
  {
  }

  lemma RemovedLocal(locals: map<CallId, seq<UserId>>, d: CallId, u: UserId, v: UserId, c: CallId)
    ensures var after := UserCallsSpec.RemoveLocal(locals, d, u);
            c in after && v in after[c] <==> c in locals && v in locals[c] && !(v == u && c == d)
  {
    if d in locals {
      OthersEffect(locals[d], u);
    }
  }

  /** Who is a local member of which call. */
  lemma LocalAfter(s: UserServer, e: Event, v: UserId, c: CallId)
    requires Admissible(s, e)
    ensures IsLocal(Handle(s, e), v, c) <==>
              match e
              case UserStarts(u, _, id, _, _) => IsLocal(s, v, c) || (v == u && c == id)
              case UserAccepts(u, d, _) => IsLocal(s, v, c) || (v == u && Accepted(s, u, d) == Some(c))
              case Connected(u, d) => IsLocal(s, v, c) || (v == u && c == d)
              case InviteFailed(u, d) => IsLocal(s, v, c) && !(v == u && c == d)
              case UserLeaves(u, d) => IsLocal(s, v, c) && !(v == u && c == d)
              case CallEndArrives(u, d, _) => IsLocal(s, v, c) && !(v == u && c == d)
              case EndHandled(d) => IsLocal(s, v, c) && c != d
              case _ => IsLocal(s, v, c)
  {
    match e
    case UserStarts(u, _, id, _, _) => AddedLocal(s.locals, id, u, v, c);
    case UserAccepts(u, d, _) => if Accepted(s, u, d).Some? { AddedLocal(s.locals, Accepted(s, u, d).value, u, v, c); }
    case Connected(u, d) => AddedLocal(s.locals, d, u, v, c);
    case InviteFailed(u, d) => RemovedLocal(s.locals, d, u, v, c);
    case UserLeaves(u, d) => RemovedLocal(s.locals, d, u, v, c);
    case CallEndArrives(u, d, _) => RemovedLocal(s.locals, d, u, v, c);
    case _ =>
  }

  /** A call that was started has one token, the drawn one, for the callee's server, and this server's row with the caller in it. */
  lemma StartInvites(s: UserServer, u: UserId, to: ServerId, id: CallId, token: string, sink: SinkId, d: ServerId, t: string)
    requires Admissible(s, UserStarts(u, to, id, token, sink))
    ensures var m := Handle(s, UserStarts(u, to, id, token, sink)).mgr;
            (Verifies(m, id, d, t) <==> d == to && t == token) &&
            id in m.calls && m.calls[id].kind == Direct &&
            m.calls[id].participants == [Participant(s.domain, [s.users[u] + "@" + s.domain], [], sink)]
  {
    assert StepOpen(s.mgr, to, id, token).calls[id].participants == [];
  }

  // ── frames for our own manager ────────────────────────────────────────

  /** A frame handed to our own manager: a hangup ends the call, a goodbye takes our row away, a signal is delivered. */
  lemma SubmittedEffect(m: Manager, me: ServerId, frame: SignalMsg, p: Participant)
    requires RowsDistinct(m)
    ensures frame.Hangup? ==> frame.callId !in Submitted(m, me, frame).calls
    ensures frame.LeaveCall? ==> !HasParticipant(Submitted(m, me, frame), frame.callId, me)
    ensures (frame.Sdp? || frame.Ice?) && Attached(m, frame.callId, p) && p.domain == frame.to ==>
              Submitted(m, me, frame) == m.(queues := m.queues[p.sink := Log(m.queues, p.sink) + [frame]])
    ensures !frame.Hangup? && !frame.LeaveCall? && !frame.Sdp? && !frame.Ice? ==> Submitted(m, me, frame) == m
  {
    if frame.LeaveCall? && frame.callId in m.calls {
      WithoutEffect(m.calls[frame.callId].participants, me);
    } else if (frame.Sdp? || frame.Ice?) && Attached(m, frame.callId, p) && p.domain == frame.to {
      RouteDelivers(m, frame, p);
    }
  }
}
