// The in-memory registry of active calls and signaling relay
// (crates/common/src/call/manager.rs), operation by operation. Each method is
// proved against the transition of the same name in ManagerSpec.

module CallManagers {
  import opened Options
  import opened Signal
  import opened ManagerSpec

  class CallManager {
    var calls: map<CallId, Call>
    var rooms: map<string, CallId>
    var queues: Queues            // what has been sent into each channel
    ghost var issued: set<CallId>
    ghost var joined: set<CallId>

    ghost function State(): Manager
      reads this
    {
      Manager(calls, rooms, queues, issued, joined)
    }

    constructor ()
      ensures State() == Init
    {
      calls, rooms, queues, issued, joined := map[], map[], map[], {}, {};
    }

    // ── loops over participants ─────────────────────────────────────────

    /** `call.broadcast(msg)`: one send per participant, in order. */
    method BroadcastTo(ps: seq<Participant>, msg: SignalMsg)
      modifies this`queues
      ensures queues == Broadcast(old(queues), ps, msg)
    {
      for i := 0 to |ps|
        invariant Broadcast(queues, ps[i..], msg) == Broadcast(old(queues), ps, msg)
      {
        var s := ps[i].sink;
        assert ps[i..][1..] == ps[i + 1..];
        queues := queues[s := (if s in queues then queues[s] else []) + [msg]];
      }
      assert ps[|ps|..] == [];
    }

    /** `participants.retain(|p| p.domain != d)`. */
    static method RetainOthers(ps: seq<Participant>, d: ServerId) returns (kept: seq<Participant>)
      ensures kept == Without(ps, d)
    {
      kept := [];
      for i := 0 to |ps|
        invariant kept + Without(ps[i..], d) == Without(ps, d)
      {
        assert ps[i..][1..] == ps[i + 1..];
        if ps[i].domain != d {
          kept := kept + [ps[i]];
        }
      }
      assert ps[|ps|..] == [];
    }

    /** `retain(|m| m != member)`. */
    static method RetainMembers(ms: seq<ParticipantId>, member: ParticipantId) returns (kept: seq<ParticipantId>)
      ensures kept == WithoutMember(ms, member)
    {
      kept := [];
      for i := 0 to |ms|
        invariant kept + WithoutMember(ms[i..], member) == WithoutMember(ms, member)
      {
        assert ms[i..][1..] == ms[i + 1..];
        if ms[i] != member {
          kept := kept + [ms[i]];
        }
      }
      assert ms[|ms|..] == [];
    }

    /** `participants.iter().find(|p| p.domain == d)`: the index of the first row, or the length. */
    static method Find(ps: seq<Participant>, d: ServerId) returns (i: nat)
      ensures i <= |ps|
      ensures forall k :: 0 <= k < i ==> ps[k].domain != d
      ensures i < |ps| ==> ps[i].domain == d
    {
      i := 0;
      while i < |ps| && ps[i].domain != d
        invariant i <= |ps|
        invariant forall k :: 0 <= k < i ==> ps[k].domain != d
      {
        i := i + 1;
      }
    }

    static method RosterEntries(ps: seq<Participant>) returns (r: seq<RosterEntry>)
      ensures r == RosterOf(ps)
    {
      r := [];
      for i := 0 to |ps|
        invariant r == RosterOf(ps)[..i]
      {
        r := r + [RosterEntry(ps[i].domain, ps[i].members, ps[i].muted)];
      }
    }

    // ── operations ──────────────────────────────────────────────────────

    /** `id` and `token` are the newly drawn uuid and random token. */
    method OpenDirect(invited: ServerId, id: CallId, token: string)
      modifies this
      ensures State() == StepOpen(old(State()), invited, id, token)
    {
      calls := calls[id := Call(Direct, [], map[invited := token])];
      issued := issued + {id};
    }

    method MintToken(id: CallId, domain: ServerId, drawn: string) returns (token: Option<string>)
      modifies this
      ensures State() == StepMint(old(State()), id, domain, drawn)
      ensures token.Some? <==> id in old(calls)
      ensures token.Some? ==> Verifies(State(), id, domain, token.value)
    {
      if id !in calls {
        return None;
      }
      var call := calls[id];
      if domain !in call.tokens {
        calls := calls[id := call.(tokens := call.tokens[domain := drawn])];
      }
      token := Some(calls[id].tokens[domain]);
    }

    method GetRoom(path: string, drawn: CallId) returns (id: CallId)
      modifies this
      ensures State() == StepRoom(old(State()), path, drawn)
      ensures path in rooms && id == rooms[path]
    {
      if path in rooms {
        return rooms[path];
      }
      rooms := rooms[path := drawn];
      calls := calls[drawn := Call(ChannelRoom(path), [], map[])];
      issued := issued + {drawn};
      id := drawn;
    }

    method VerifyToken(id: CallId, domain: ServerId, token: string) returns (ok: bool)
      ensures ok <==> Verifies(State(), id, domain, token)
    {
      ok := id in calls && domain in calls[id].tokens && calls[id].tokens[domain] == token;
    }

    method Exists(id: CallId) returns (ok: bool)
      ensures ok <==> id in calls
    {
      ok := id in calls;
    }

    method Join(id: CallId, row: Participant) returns (ok: bool)
      modifies this
      ensures State() == StepJoin(old(State()), id, row)
      ensures ok <==> id in old(calls)
    {
      if id !in calls {
        return false;
      }
      var call := calls[id];
      var kept := RetainOthers(call.participants, row.domain);
      BroadcastTo(kept, ParticipantJoined(id, row.domain, row.members));
      var rows := kept + [row];
      calls := calls[id := call.(participants := rows)];
      var roster := RosterEntries(rows);
      BroadcastTo(rows, Roster(id, roster));
      joined := joined + {id};
      ok := true;
    }

    method AddMember(id: CallId, domain: ServerId, member: ParticipantId)
      modifies this
      ensures State() == StepAdd(old(State()), id, domain, member)
    {
      if id !in calls {
        return;
      }
      var rows := calls[id].participants;
      var i := Find(rows, domain);
      EditFirstAt(rows, domain, AddOne(member), i);
      if i < |rows| {
        var row := rows[i];
        if member !in row.members {
          row := row.(members := row.members + [member]);
        }
        rows := rows[i := row];
      }
      calls := calls[id := calls[id].(participants := rows)];
      BroadcastTo(rows, ParticipantJoined(id, domain, [member]));
      var roster := RosterEntries(rows);
      BroadcastTo(rows, Roster(id, roster));
    }

    method RemoveMember(id: CallId, domain: ServerId, member: ParticipantId) returns (left: nat)
      modifies this
      ensures State() == StepRemove(old(State()), id, domain, member)
      ensures left == if id in old(calls) && FirstRow(old(calls)[id].participants, domain).Some?
                      then |WithoutMember(FirstRow(old(calls)[id].participants, domain).value.members, member)|
                      else 0
    {
      if id !in calls {
        return 0;
      }
      var rows := calls[id].participants;
      var i := Find(rows, domain);
      EditFirstAt(rows, domain, DropOne(member), i);
      FirstRowAt(rows, domain, i);
      if i == |rows| {
        return 0;
      }
      var members := RetainMembers(rows[i].members, member);
      var muted := RetainMembers(rows[i].muted, member);
      rows := rows[i := rows[i].(members := members, muted := muted)];
      calls := calls[id := calls[id].(participants := rows)];
      left := |members|;
      var roster := RosterEntries(rows);
      BroadcastTo(rows, Roster(id, roster));
    }

    method HasParticipant(id: CallId, domain: ServerId) returns (ok: bool)
      ensures ok <==> ManagerSpec.HasParticipant(State(), id, domain)
    {
      if id !in calls {
        return false;
      }
      var i := Find(calls[id].participants, domain);
      ok := i < |calls[id].participants|;
      if ok {
        assert calls[id].participants[i] in calls[id].participants;
      }
    }

    method Leave(id: CallId, domain: ServerId)
      modifies this
      ensures State() == StepLeave(old(State()), id, domain)
    {
      if id !in calls {
        return;
      }
      var call := calls[id];
      var kept := RetainOthers(call.participants, domain);
      if |kept| == |call.participants| {
        return;
      }
      calls := calls[id := call.(participants := kept)];
      BroadcastTo(kept, ParticipantLeft(id, domain));
      var roster := RosterEntries(kept);
      BroadcastTo(kept, Roster(id, roster));
      if kept == [] && !call.kind.IsPersistent() {
        calls := calls - {id};
      }
    }

    method End(id: CallId, reason: string)
      modifies this
      ensures State() == StepEnd(old(State()), id, reason)
    {
      if id !in calls {
        return;
      }
      var call := calls[id];
      BroadcastTo(call.participants, CallEnded(id, reason));
      if call.kind.ChannelRoom? {
        rooms := rooms - {call.kind.channelPath};
      }
      calls := calls - {id};
    }

    method Route(frame: SignalMsg)
      modifies this
      ensures State() == StepRoute(old(State()), frame)
    {
      var id, target := FrameCall(frame), RouteTarget(frame);
      if id.None? || target.None? || id.value !in calls {
        return;
      }
      var rows := calls[id.value].participants;
      var i := Find(rows, target.value);
      FirstRowAt(rows, target.value, i);
      if i < |rows| {
        BroadcastTo([rows[i]], frame);
        assert Broadcast(old(queues), [rows[i]], frame) == Send(old(queues), rows[i].sink, frame);
      }
    }

    method SetMuted(id: CallId, domain: ServerId, member: ParticipantId, on: bool)
      modifies this
      ensures State() == StepMute(old(State()), id, domain, member, on)
    {
      if id !in calls {
        return;
      }
      var rows := calls[id].participants;
      var i := Find(rows, domain);
      EditFirstAt(rows, domain, MuteOne(member, on), i);
      if i < |rows| {
        var row := rows[i];
        var muted := RetainMembers(row.muted, member);
        muted := muted + if on then [member] else [];
        rows := rows[i := row.(muted := muted)];
      }
      calls := calls[id := calls[id].(participants := rows)];
      BroadcastTo(rows, Mute(id, member, on));
    }
  }

  /** Editing the row `find` returned is `EditFirst`. */
  lemma {:induction false} EditFirstAt(ps: seq<Participant>, d: ServerId, e: Edit, i: nat)
    requires i <= |ps| && (forall k :: 0 <= k < i ==> ps[k].domain != d) && (i < |ps| ==> ps[i].domain == d)
    ensures EditFirst(ps, d, e) == if i < |ps| then ps[i := EditRow(ps[i], e)] else ps
  {
    if ps != [] {
      if i == 0 {
        assert ps[0 := EditRow(ps[0], e)] == [EditRow(ps[0], e)] + ps[1..];
      } else {
        EditFirstAt(ps[1..], d, e, i - 1);
      }
    }
  }

  lemma {:induction false} FirstRowAt(ps: seq<Participant>, d: ServerId, i: nat)
    requires i <= |ps| && (forall k :: 0 <= k < i ==> ps[k].domain != d) && (i < |ps| ==> ps[i].domain == d)
    ensures FirstRow(ps, d) == if i < |ps| then Some(ps[i]) else None
  {
    if ps != [] && i > 0 {
      FirstRowAt(ps[1..], d, i - 1);
    }
  }
}
