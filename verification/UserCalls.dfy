// Per-instance call state of a user server and the handlers that drive it
// (crates/userserver/src/call/mod.rs, crates/userserver/src/call/ws.rs). Each
// method is proved against the transition of UserCallsSpec it performs.

module UserCalls {
  import opened Options
  import opened Signal
  import opened ManagerSpec
  import opened CallManagers
  import opened CallRuns
  import opened Sequences
  import opened UserCallsSpec

  /** The outcome of looking up a profile, possibly on another server. */
  datatype Lookup = Found | NoSuchUser | Unreachable

  class CallState {
    const domain: ServerId
    const users: map<UserId, string>
    const manager: CallManager
    var userCall: map<UserId, CallId>
    var locals: map<CallId, seq<UserId>>
    var links: set<CallId>
    var pending: map<CallId, Invite>
    var outbound: seq<(CallId, SignalMsg)>   // what was sent over the links, oldest first

    ghost function State(): UserServer
      reads this, manager
    {
      UserServer(domain, users, manager.State(), userCall, locals, links, pending)
    }

    constructor (domain: ServerId, users: map<UserId, string>)
      ensures State() == Boot(domain, users) && outbound == []
      ensures fresh(manager)
    {
      this.domain, this.users := domain, users;
      manager := new CallManager();
      userCall, locals, links, pending, outbound := map[], map[], {}, map[], [];
    }

    // ── maps ────────────────────────────────────────────────────────────

    method AddLocal(c: CallId, u: UserId)
      modifies this`locals
      ensures locals == UserCallsSpec.AddLocal(old(locals), c, u)
    {
      var v := if c in locals then locals[c] else [];
      var found := false;
      for i := 0 to |v|
        invariant found <==> u in v[..i]
      {
        found := found || v[i] == u;
      }
      if !found {
        v := v + [u];
      }
      locals := locals[c := v];
    }

    /** Returns how many local members remain. */
    method RemoveLocal(c: CallId, u: UserId) returns (remaining: nat)
      modifies this`locals
      ensures locals == UserCallsSpec.RemoveLocal(old(locals), c, u)
      ensures remaining == |LocalsOf(locals, c)|
    {
      if c !in locals {
        return 0;
      }
      var v, kept := locals[c], [];
      for i := 0 to |v|
        invariant kept + Others(v[i..], u) == Others(v, u)
        invariant locals == old(locals)
      {
        assert v[i..][1..] == v[i + 1..];
        if v[i] != u {
          kept := kept + [v[i]];
        }
      }
      assert v[|v|..] == [] && kept + [] == kept == Others(v, u);
      remaining := |kept|;
      locals := if remaining == 0 then locals - {c} else locals[c := kept];
    }

    /** Takes the call's member list away and clears the pointers of those still in it. */
    method DrainLocals(c: CallId) returns (gone: seq<UserId>)
      modifies this`locals, this`userCall
      ensures gone == LocalsOf(old(locals), c) && locals == old(locals) - {c}
      ensures userCall == ForgetCall(old(userCall), c, gone)
    {
      gone := if c in locals then locals[c] else [];
      locals := locals - {c};
      for i := 0 to |gone|
        invariant userCall == ForgetCall(old(userCall), c, gone[..i]) && locals == old(locals) - {c}
      {
        assert gone[..i + 1] == gone[..i] + [gone[i]];
        if gone[i] in userCall && userCall[gone[i]] == c {
          userCall := userCall - {gone[i]};
        }
      }
      assert gone[..|gone|] == gone;
    }

    // ── handlers ────────────────────────────────────────────────────────

    /** A frame for a remote manager goes over the link; one for our own manager is performed. */
    method SubmitToManager(c: CallId, frame: SignalMsg)
      modifies this`outbound, manager
      ensures manager.State() == if c in links then old(manager.State()) else Submitted(old(manager.State()), domain, frame)
      ensures outbound == if c in links then old(outbound) + [(c, frame)] else old(outbound)
    {
      if c in links {
        outbound := outbound + [(c, frame)];
        return;
      }
      match frame
      case Sdp(_, _, _, _, _) => manager.Route(frame);
      case Ice(_, _, _, _) => manager.Route(frame);
      case Mute(_, _, _) => manager.Route(frame);
      case Hangup(id) => manager.End(id, "hangup");
      case LeaveCall(id) => manager.Leave(id, domain);
      case _ =>
    }

    /** `sink` is the new channel. */
    method EnsureLocalParticipant(c: CallId, u: UserId, sink: SinkId)
      requires u in users
      modifies this, manager
      ensures State() == EnsureLocal(old(State()), u, c, sink) && outbound == old(outbound)
    {
      var attached := manager.HasParticipant(c, domain);
      if c in manager.calls {
        FirstRowEffect(manager.calls[c].participants, domain);
      }
      AddLocal(c, u);
      userCall := userCall[u := c];
      var full := users[u] + "@" + domain;
      if attached {
        manager.AddMember(c, domain, full);
      } else {
        var _ := manager.Join(c, Participant(domain, [full], [], sink));
      }
    }

    /**
     * `found` is what the callee's profile look-up gave; `id`, `token` and `sink` are newly
     * drawn; `sent` says whether the invite went out. Answers an error for the caller, or none.
     */
    method StartDirectCall(u: UserId, callee: ParticipantId, found: Lookup, id: CallId, token: string, sink: SinkId, sent: bool)
      returns (error: string)
      requires Admissible(State(), UserStarts(u, LastPart(callee, '@'), id, token, sink))
      modifies this, manager
      ensures error == if '@' !in callee then "invalid callee"
                       else if u in old(userCall) then "already in a call"
                       else if found.NoSuchUser? then "user not found"
                       else if found.Unreachable? then "cannot reach that server"
                       else ""
      ensures var calling := Handle(old(State()), UserStarts(u, LastPart(callee, '@'), id, token, sink));
              State() == if error != "" then old(State()) else if sent then calling else Handle(calling, InviteFailed(u, id))
    {
      if '@' !in callee {
        return "invalid callee";
      }
      if u in userCall {
        return "already in a call";
      }
      if found.NoSuchUser? {
        return "user not found";
      }
      if found.Unreachable? {
        return "cannot reach that server";
      }
      manager.OpenDirect(LastPart(callee, '@'), id, token);
      EnsureLocalParticipant(id, u, sink);
      if !sent {
        manager.End(id, "invite-failed");
        var _ := RemoveLocal(id, u);
        userCall := userCall - {u};
      }
      error := "";
    }

    /** `connected` says whether a remote manager could be reached. */
    method AcceptCall(u: UserId, c: CallId, sink: SinkId, connected: bool)
      requires Admissible(State(), UserAccepts(u, c, sink))
      modifies this, manager
      ensures var taken := Handle(old(State()), UserAccepts(u, c, sink));
              var dials := c in old(pending) && old(pending)[c].forUser == u && old(pending)[c].callId !in old(manager.calls);
              State() == if dials && connected then Linked(taken, u, old(pending)[c].callId) else taken
    {
      if c !in pending {
        return;
      }
      var invite := pending[c];
      pending := pending - {c};
      if invite.forUser != u {
        return;
      }
      var here := manager.Exists(invite.callId);
      if here {
        EnsureLocalParticipant(invite.callId, u, sink);
      } else if connected {
        ConnectToManager(u, invite.callId);
      }
    }

    method ConnectToManager(u: UserId, c: CallId)
      requires u in users
      modifies this
      ensures State() == Linked(old(State()), u, c)
      ensures outbound == old(outbound) + [(c, JoinCall(c, domain, [users[u] + "@" + domain]))]
    {
      outbound := outbound + [(c, JoinCall(c, domain, [users[u] + "@" + domain]))];
      links := links + {c};
      AddLocal(c, u);
      userCall := userCall[u := c];
    }

    method LeaveCall(u: UserId, c: CallId)
      requires u in users
      modifies this, manager
      ensures State() == Depart(old(State()), u, c)
      ensures outbound == if c in old(links) && LocalsOf(locals, c) == [] then old(outbound) + [(c, Farewell(old(State()), c))]
                          else old(outbound)
    {
      var remaining := RemoveLocal(c, u);
      userCall := userCall - {u};
      if remaining > 0 {
        var _ := manager.RemoveMember(c, domain, users[u] + "@" + domain);
        return;
      }
      var isRoom := c in manager.calls && manager.calls[c].kind.ChannelRoom?;
      SubmitToManager(c, if isRoom then SignalMsg.LeaveCall(c) else Hangup(c));
      links := links - {c};
    }

    /** One frame from the manager of call `c`; the pump stops when the call ended. */
    method OnManagerFrame(c: CallId, frame: SignalMsg) returns (stop: bool)
      modifies this
      ensures stop <==> frame.CallEnded?
      ensures State() == if stop then DropCall(old(State()), c) else old(State())
    {
      stop := frame.CallEnded?;
      if stop {
        var _ := DrainLocals(c);
        links := links - {c};
      }
    }

    /** The pump task: every frame up to and including the end of the call. */
    method PumpFrames(c: CallId, frames: seq<SignalMsg>) returns (read: nat)
      modifies this
      ensures read <= |frames|
      ensures forall i :: 0 <= i < read - 1 ==> !frames[i].CallEnded?
      ensures read < |frames| ==> read > 0 && frames[read - 1].CallEnded?
      ensures State() == if read > 0 && frames[read - 1].CallEnded? then DropCall(old(State()), c) else old(State())
    {
      read := 0;
      while read < |frames|
        invariant read <= |frames|
        invariant forall i :: 0 <= i < read ==> !frames[i].CallEnded?
        invariant State() == old(State())
      {
        read := read + 1;
        var stop := OnManagerFrame(c, frames[read - 1]);
        if stop {
          return;
        }
      }
    }

    method OnCallEnd(u: UserId, c: CallId, outcome: string)
      requires u in users
      modifies this, manager
      ensures State() == Handle(old(State()), CallEndArrives(u, c, outcome))
    {
      pending := pending - {c};
      var here := manager.Exists(c);
      if here {
        manager.End(c, outcome);
      }
      links := links - {c};
      var _ := RemoveLocal(c, u);
      userCall := userCall - {u};
    }
  }

  /** The last thing this server tells a manager about a call. */
  function Farewell(s: UserServer, c: CallId): SignalMsg {
    if c in s.mgr.calls && s.mgr.calls[c].kind.ChannelRoom? then SignalMsg.LeaveCall(c) else Hangup(c)
  }

  /** The kind of a remote call is unknown here, so a remote manager is always told to hang up, even for a room. */
  lemma RemoteFarewell(s: UserServer, c: CallId)
    requires s.links !! s.mgr.calls.Keys && c in s.links
    ensures Farewell(s, c) == Hangup(c)
  {
  }

  /** A server is only told its own call ended once the manager dropped it, and by then the call is gone for good. */
  lemma EndIsFinal(s: UserServer, c: CallId, sink: SinkId, reason: string)
    requires Sound(s.mgr) && CallEnded(c, reason) in Log(s.mgr.queues, sink)
    ensures Undisturbed(s, EndHandled(c)) && c in s.mgr.issued
  {
  }
}
