// What every run of a call manager keeps (crates/common/src/call/manager.rs).

module CallRuns {
  import opened Options
  import opened Signal
  import opened ManagerSpec

  // ── rows ──────────────────────────────────────────────────────────────

  /** Every row has its own domain and its own channel. */
  predicate Distinct(ps: seq<Participant>) {
    ps == [] ||
    (ps[0].domain !in Domains(ps[1..]) && ps[0].sink !in Sinks(ps[1..]) && Distinct(ps[1..]))
  }

  lemma {:induction false} WithoutEffect(ps: seq<Participant>, d: ServerId)
    ensures forall p :: p in Without(ps, d) <==> p in ps && p.domain != d
    ensures |Without(ps, d)| <= |ps|
    ensures |Without(ps, d)| == |ps| <==> d !in Domains(ps)
    ensures d !in Domains(ps) ==> Without(ps, d) == ps
    ensures Distinct(ps) ==> Distinct(Without(ps, d))
  {
    if ps != [] {
      WithoutEffect(ps[1..], d);
      assert ps == [ps[0]] + ps[1..];
      assert forall p :: p in ps <==> p == ps[0] || p in ps[1..];
      assert ps[0] in ps;
      if ps[0].domain != d {
        var w := Without(ps, d);
        assert w[1..] == Without(ps[1..], d);
        assert Domains(w[1..]) <= Domains(ps[1..]);
        assert Sinks(w[1..]) <= Sinks(ps[1..]);
      }
    }
  }

  lemma {:induction false} DistinctAppend(ps: seq<Participant>, row: Participant)
    requires Distinct(ps) && row.domain !in Domains(ps) && row.sink !in Sinks(ps)
    ensures Distinct(ps + [row])
    ensures Domains(ps + [row]) == Domains(ps) + {row.domain}
    ensures Sinks(ps + [row]) == Sinks(ps) + {row.sink}
  {
    var now := ps + [row];
    assert forall p :: p in now <==> p in ps || p == row;
    if ps != [] {
      assert ps == [ps[0]] + ps[1..];
      assert now[1..] == ps[1..] + [row];
      assert ps[0] in ps;
      DistinctAppend(ps[1..], row);
    }
  }

  lemma {:induction false} EditFirstKeeps(ps: seq<Participant>, d: ServerId, e: Edit)
    ensures |EditFirst(ps, d, e)| == |ps|
    ensures forall i :: 0 <= i < |ps| ==>
              EditFirst(ps, d, e)[i].domain == ps[i].domain && EditFirst(ps, d, e)[i].sink == ps[i].sink
  {
    if ps != [] && ps[0].domain != d {
      EditFirstKeeps(ps[1..], d, e);
    }
  }

  /** In a call with distinct domains, the edit hits exactly the row of domain `d`. */
  lemma {:induction false} EditFirstEffect(ps: seq<Participant>, d: ServerId, e: Edit)
    requires Distinct(ps)
    ensures |EditFirst(ps, d, e)| == |ps|
    ensures forall i :: 0 <= i < |ps| ==>
              EditFirst(ps, d, e)[i] == if ps[i].domain == d then EditRow(ps[i], e) else ps[i]
  {
    if ps != [] {
      if ps[0].domain == d {
        assert forall i :: 1 <= i < |ps| ==> ps[i] == ps[1..][i - 1] && ps[i] in ps[1..];
      } else {
        EditFirstEffect(ps[1..], d, e);
      }
    }
  }

  lemma {:induction false} SameKeysDistinct(ps: seq<Participant>, qs: seq<Participant>)
    requires |ps| == |qs|
    requires forall i :: 0 <= i < |ps| ==> ps[i].domain == qs[i].domain && ps[i].sink == qs[i].sink
    ensures Domains(ps) == Domains(qs) && Sinks(ps) == Sinks(qs)
    ensures Distinct(ps) ==> Distinct(qs)
  {
    forall d ensures d in Domains(ps) <==> d in Domains(qs) {
      if d in Domains(ps) { var i :| 0 <= i < |ps| && ps[i].domain == d; assert qs[i] in qs; }
      if d in Domains(qs) { var i :| 0 <= i < |qs| && qs[i].domain == d; assert ps[i] in ps; }
    }
    forall s ensures s in Sinks(ps) <==> s in Sinks(qs) {
      if s in Sinks(ps) { var i :| 0 <= i < |ps| && ps[i].sink == s; assert qs[i] in qs; }
      if s in Sinks(qs) { var i :| 0 <= i < |qs| && qs[i].sink == s; assert ps[i] in ps; }
    }
    if ps != [] {
      forall i | 0 <= i < |ps| - 1
        ensures ps[1..][i].domain == qs[1..][i].domain && ps[1..][i].sink == qs[1..][i].sink
      {
        assert ps[1..][i] == ps[i + 1] && qs[1..][i] == qs[i + 1];
      }
      SameKeysDistinct(ps[1..], qs[1..]);
    }
  }

  /** In a call with distinct domains, `find` returns the one row of that domain. */
  lemma {:induction false} FirstRowEffect(ps: seq<Participant>, d: ServerId)
    ensures FirstRow(ps, d).Some? <==> d in Domains(ps)
    ensures FirstRow(ps, d).Some? ==> FirstRow(ps, d).value in ps && FirstRow(ps, d).value.domain == d
    ensures Distinct(ps) ==> forall p :: p in ps && p.domain == d ==> FirstRow(ps, d) == Some(p)
  {
    if ps != [] {
      FirstRowEffect(ps[1..], d);
      assert ps == [ps[0]] + ps[1..];
      assert forall p :: p in ps <==> p == ps[0] || p in ps[1..];
    }
  }

  // ── sending ───────────────────────────────────────────────────────────

  lemma SinksOf(ps: seq<Participant>)
    requires ps != []
    ensures Sinks(ps) == {ps[0].sink} + Sinks(ps[1..])
  {
    assert ps == [ps[0]] + ps[1..];
    assert forall p :: p in ps <==> p == ps[0] || p in ps[1..];
    assert ps[0] in ps;
  }

  lemma {:induction false} BroadcastLog(q: Queues, ps: seq<Participant>, f: SignalMsg, s: SinkId)
    requires Distinct(ps)
    ensures Broadcast(q, ps, f).Keys == q.Keys + Sinks(ps)
    ensures Log(Broadcast(q, ps, f), s) == Log(q, s) + if s in Sinks(ps) then [f] else []
    decreases |ps|
  {
    if ps != [] {
      SinksOf(ps);
      BroadcastLog(Send(q, ps[0].sink, f), ps[1..], f, s);
    }
  }

  /** A broadcast appends the frame once to each attached channel and to no other. */
  lemma BroadcastEffect(q: Queues, ps: seq<Participant>, f: SignalMsg)
    requires Distinct(ps)
    ensures Broadcast(q, ps, f).Keys == q.Keys + Sinks(ps)
    ensures forall s :: Log(Broadcast(q, ps, f), s) == Log(q, s) + if s in Sinks(ps) then [f] else []
  {
    BroadcastLog(q, ps, f, 0);
    forall s ensures Log(Broadcast(q, ps, f), s) == Log(q, s) + if s in Sinks(ps) then [f] else [] { BroadcastLog(q, ps, f, s); }
  }

  /** Exactly the frames one transition puts into channel `s`, in order. */
  function Sent(m: Manager, op: Op, s: SinkId): seq<SignalMsg> {
    match op
    case Join(id, row) => SentJoin(m, id, row, s)
    case AddMember(id, d, u) => SentAdd(m, id, d, u, s)
    case RemoveMember(id, d, u) => SentRemove(m, id, d, u, s)
    case Leave(id, d) => SentLeave(m, id, d, s)
    case End(id, reason) => if Hears(m, id, s) then [CallEnded(id, reason)] else []
    case Route(frame) => if Reaches(m, frame, s) then [frame] else []
    case SetMuted(id, _, u, on) => if Hears(m, id, s) then [Mute(id, u, on)] else []
    case _ => []
  }

  /** Channel `s` is attached to call `id`. */
  predicate Hears(m: Manager, id: CallId, s: SinkId) { id in m.calls && s in Sinks(m.calls[id].participants) }

  function SentJoin(m: Manager, id: CallId, row: Participant, s: SinkId): seq<SignalMsg> {
    if id !in m.calls then []
    else
      var kept := Without(m.calls[id].participants, row.domain);
      var roster := Roster(id, RosterOf(kept + [row]));
      if s == row.sink then [roster]
      else if s in Sinks(kept) then [ParticipantJoined(id, row.domain, row.members), roster]
      else []
  }

  function SentAdd(m: Manager, id: CallId, d: ServerId, u: ParticipantId, s: SinkId): seq<SignalMsg> {
    if !Hears(m, id, s) then []
    else [ParticipantJoined(id, d, [u]), Roster(id, RosterOf(EditFirst(m.calls[id].participants, d, AddOne(u))))]
  }

  function SentRemove(m: Manager, id: CallId, d: ServerId, u: ParticipantId, s: SinkId): seq<SignalMsg> {
    if !Hears(m, id, s) || d !in Domains(m.calls[id].participants) then []
    else [Roster(id, RosterOf(EditFirst(m.calls[id].participants, d, DropOne(u))))]
  }

  function SentLeave(m: Manager, id: CallId, d: ServerId, s: SinkId): seq<SignalMsg> {
    if id !in m.calls || d !in Domains(m.calls[id].participants) then []
    else
      var kept := Without(m.calls[id].participants, d);
      if s in Sinks(kept) then [ParticipantLeft(id, d), Roster(id, RosterOf(kept))] else []
  }

  /** A session description or candidate reaches channel `s` when `s` belongs to the row, in its call, of the server it is for. */
  predicate Reaches(m: Manager, frame: SignalMsg, s: SinkId) {
    (frame.Sdp? || frame.Ice?) && frame.callId in m.calls &&
    exists p :: p in m.calls[frame.callId].participants && p.domain == frame.to && p.sink == s
  }

  /** What the frame accessors answer, constructor by constructor. */
  lemma FrameFields(f: SignalMsg)
    ensures RouteTarget(f).Some? <==> f.Sdp? || f.Ice?
    ensures f.Sdp? || f.Ice? ==> RouteTarget(f) == Some(f.to)
    ensures FrameCall(f) == if f.StartCall? || f.JoinRoom? || f.Error? then None else Some(f.callId)
  {
  }

  // ── invariant ─────────────────────────────────────────────────────────

  ghost predicate RowsDistinct(m: Manager) {
    forall id :: id in m.calls ==>
      Distinct(m.calls[id].participants) && Sinks(m.calls[id].participants) <= m.queues.Keys && id in m.issued
  }

  /** No channel is attached to two calls. */
  ghost predicate SinksPrivate(m: Manager) {
    forall i, j :: i in m.calls && j in m.calls && i != j ==>
      Sinks(m.calls[i].participants) !! Sinks(m.calls[j].participants)
  }

  /** `rooms` and the room calls are inverse maps. */
  ghost predicate RoomsMatch(m: Manager) {
    (forall path :: path in m.rooms ==>
      m.rooms[path] in m.calls && m.calls[m.rooms[path]].kind == ChannelRoom(path)) &&
    (forall id :: id in m.calls && m.calls[id].kind.ChannelRoom? ==>
      m.calls[id].kind.channelPath in m.rooms && m.rooms[m.calls[id].kind.channelPath] == id)
  }

  /** A direct call that was ever joined is live exactly while somebody is attached. */
  ghost predicate DirectsLive(m: Manager) {
    m.joined <= m.issued &&
    forall id :: id in m.calls && m.calls[id].kind == Direct ==> (id in m.joined <==> m.calls[id].participants != [])
  }

  /** After a channel has seen a call end, it never hears of that call again, and the call stays dead. */
  ghost predicate Quiet(m: Manager) {
    forall s, k :: 0 <= k < |Log(m.queues, s)| && Log(m.queues, s)[k].CallEnded? ==>
      QuietAfter(m, Log(m.queues, s), k, Log(m.queues, s)[k].callId)
  }

  ghost predicate QuietAfter(m: Manager, log: seq<SignalMsg>, k: nat, id: CallId) {
    id in m.issued && id !in m.calls && forall j :: k < j < |log| ==> FrameCall(log[j]) != Some(id)
  }

  ghost predicate Sound(m: Manager) {
    RowsDistinct(m) && SinksPrivate(m) && RoomsMatch(m) && DirectsLive(m) && Quiet(m)
  }

  function LastRoster(log: seq<SignalMsg>): Option<seq<RosterEntry>> {
    if log == [] then None
    else if log[|log| - 1].Roster? then Some(log[|log| - 1].participants)
    else LastRoster(log[..|log| - 1])
  }

  /** Same servers with the same members, in the same order; `exact` also compares the muted lists. */
  predicate Agrees(r: seq<RosterEntry>, rows: seq<Participant>, exact: bool) {
    if exact then r == RosterOf(rows)
    else |r| == |rows| && forall i :: 0 <= i < |r| ==> r[i].server == rows[i].domain && r[i].members == rows[i].members
  }

  ghost predicate Converged(m: Manager, exact: bool) {
    forall id, p :: Attached(m, id, p) ==>
      LastRoster(Log(m.queues, p.sink)).Some? &&
      Agrees(LastRoster(Log(m.queues, p.sink)).value, m.calls[id].participants, exact)
  }

  // ── one step ──────────────────────────────────────────────────────────

  lemma EditRows(ps: seq<Participant>, d: ServerId, e: Edit)
    requires Distinct(ps)
    ensures Distinct(EditFirst(ps, d, e))
    ensures Sinks(EditFirst(ps, d, e)) == Sinks(ps) && Domains(EditFirst(ps, d, e)) == Domains(ps)
  {
    EditFirstKeeps(ps, d, e);
    SameKeysDistinct(ps, EditFirst(ps, d, e));
  }

  lemma BroadcastTwice(q: Queues, ps: seq<Participant>, f: SignalMsg, g: SignalMsg)
    requires Distinct(ps)
    ensures Broadcast(Broadcast(q, ps, f), ps, g).Keys == q.Keys + Sinks(ps)
    ensures forall s :: Log(Broadcast(Broadcast(q, ps, f), ps, g), s)
                        == Log(q, s) + if s in Sinks(ps) then [f, g] else []
  {
    BroadcastEffect(q, ps, f);
    BroadcastEffect(Broadcast(q, ps, f), ps, g);
  }

  lemma AddLog(m: Manager, id: CallId, d: ServerId, u: ParticipantId, s: SinkId)
    requires RowsDistinct(m) && id in m.calls
    ensures Log(StepAdd(m, id, d, u).queues, s) == Log(m.queues, s) + SentAdd(m, id, d, u, s)
  {
    var rows := EditFirst(m.calls[id].participants, d, AddOne(u));
    EditRows(m.calls[id].participants, d, AddOne(u));
    BroadcastTwice(m.queues, rows, ParticipantJoined(id, d, [u]), Roster(id, RosterOf(rows)));
  }

  lemma RemoveLog(m: Manager, id: CallId, d: ServerId, u: ParticipantId, s: SinkId)
    requires RowsDistinct(m) && id in m.calls
    ensures Log(StepRemove(m, id, d, u).queues, s) == Log(m.queues, s) + SentRemove(m, id, d, u, s)
  {
    var rows := EditFirst(m.calls[id].participants, d, DropOne(u));
    EditRows(m.calls[id].participants, d, DropOne(u));
    FirstRowEffect(m.calls[id].participants, d);
    BroadcastEffect(m.queues, rows, Roster(id, RosterOf(rows)));
  }

  lemma MuteLog(m: Manager, id: CallId, d: ServerId, u: ParticipantId, on: bool, s: SinkId)
    requires RowsDistinct(m) && id in m.calls
    ensures Log(StepMute(m, id, d, u, on).queues, s) == Log(m.queues, s) + if Hears(m, id, s) then [Mute(id, u, on)] else []
  {
    var rows := EditFirst(m.calls[id].participants, d, MuteOne(u, on));
    EditRows(m.calls[id].participants, d, MuteOne(u, on));
    BroadcastEffect(m.queues, rows, Mute(id, u, on));
  }

  lemma LeaveLog(m: Manager, id: CallId, d: ServerId, s: SinkId)
    requires RowsDistinct(m) && id in m.calls
    ensures Log(StepLeave(m, id, d).queues, s) == Log(m.queues, s) + SentLeave(m, id, d, s)
  {
    var kept := Without(m.calls[id].participants, d);
    WithoutEffect(m.calls[id].participants, d);
    BroadcastTwice(m.queues, kept, ParticipantLeft(id, d), Roster(id, RosterOf(kept)));
  }

  lemma RouteLog(m: Manager, frame: SignalMsg, s: SinkId)
    requires RowsDistinct(m)
    ensures Log(StepRoute(m, frame).queues, s) == Log(m.queues, s) + if Reaches(m, frame, s) then [frame] else []
  {
    if FrameCall(frame).Some? && RouteTarget(frame).Some? && FrameCall(frame).value in m.calls {
      FirstRowEffect(m.calls[FrameCall(frame).value].participants, RouteTarget(frame).value);
    }
  }

  /** The frames a transition puts into a channel are exactly `Sent`. */
  lemma StepLog(m: Manager, op: Op, s: SinkId)
    requires RowsDistinct(m) && Enabled(m, op)
    ensures Log(Step(m, op).queues, s) == Log(m.queues, s) + Sent(m, op, s)
  {
    match op
    case Join(id, row) => if id in m.calls { JoinLog(m, id, row, s); }
    case AddMember(id, d, u) => if id in m.calls { AddLog(m, id, d, u, s); }
    case RemoveMember(id, d, u) => if id in m.calls { RemoveLog(m, id, d, u, s); }
    case Leave(id, d) => if id in m.calls { LeaveLog(m, id, d, s); }
    case End(id, reason) =>
      if id in m.calls { BroadcastEffect(m.queues, m.calls[id].participants, CallEnded(id, reason)); }
    case Route(frame) => RouteLog(m, frame, s);
    case SetMuted(id, d, u, on) => if id in m.calls { MuteLog(m, id, d, u, on, s); }
    case _ =>
  }

  lemma JoinRows(m: Manager, id: CallId, row: Participant)
    requires RowsDistinct(m) && row.sink !in m.queues && id in m.calls
    ensures var kept := Without(m.calls[id].participants, row.domain);
            Distinct(kept) && row.domain !in Domains(kept) && row.sink !in Sinks(kept)
            && Sinks(kept) <= Sinks(m.calls[id].participants)
            && Distinct(kept + [row]) && Sinks(kept + [row]) == Sinks(kept) + {row.sink}
  {
    var kept := Without(m.calls[id].participants, row.domain);
    WithoutEffect(m.calls[id].participants, row.domain);
    DistinctAppend(kept, row);
  }

  /** What a channel holds after its row was sent `f` (if kept) and then `g`. */
  lemma TwoSends(q: Queues, q1: Queues, q2: Queues, kept: set<SinkId>, own: SinkId, f: SignalMsg, g: SignalMsg, s: SinkId)
    requires own !in kept && q1.Keys == q.Keys + kept && q2.Keys == q1.Keys + (kept + {own})
    requires Log(q1, s) == Log(q, s) + if s in kept then [f] else []
    requires Log(q2, s) == Log(q1, s) + if s in kept + {own} then [g] else []
    ensures q2.Keys == q.Keys + (kept + {own})
    ensures Log(q2, s) == Log(q, s) + if s == own then [g] else if s in kept then [f, g] else []
  {
  }

  lemma JoinLog(m: Manager, id: CallId, row: Participant, s: SinkId)
    requires RowsDistinct(m) && row.sink !in m.queues && id in m.calls
    ensures Log(StepJoin(m, id, row).queues, s) == Log(m.queues, s) + SentJoin(m, id, row, s)
    ensures StepJoin(m, id, row).queues.Keys
            == m.queues.Keys + Sinks(Without(m.calls[id].participants, row.domain) + [row])
  {
    var kept := Without(m.calls[id].participants, row.domain);
    JoinRows(m, id, row);
    var f, g := ParticipantJoined(id, row.domain, row.members), Roster(id, RosterOf(kept + [row]));
    var q1 := Broadcast(m.queues, kept, f);
    BroadcastEffect(m.queues, kept, f);
    BroadcastEffect(q1, kept + [row], g);
    TwoSends(m.queues, q1, Broadcast(q1, kept + [row], g), Sinks(kept), row.sink, f, g, s);
  }

  // ── rows stay distinct and channels private ───────────────────────────

  ghost predicate Replaces(m: Manager, n: Manager, id: CallId, rows: seq<Participant>) {
    id in m.calls && n.calls == m.calls[id := m.calls[id].(participants := rows)] &&
    Distinct(rows) && Sinks(rows) <= n.queues.Keys && m.queues.Keys <= n.queues.Keys && n.issued == m.issued &&
    forall s :: s in Sinks(rows) ==> s in Sinks(m.calls[id].participants) || s !in m.queues
  }

  lemma ReplacesKeeps(m: Manager, n: Manager, id: CallId, rows: seq<Participant>)
    requires RowsDistinct(m) && SinksPrivate(m) && Replaces(m, n, id, rows)
    ensures RowsDistinct(n) && SinksPrivate(n)
  {
  }

  lemma StepRows(m: Manager, op: Op)
    requires RowsDistinct(m) && SinksPrivate(m) && Enabled(m, op)
    ensures RowsDistinct(Step(m, op)) && SinksPrivate(Step(m, op))
  {
    match op
    case Join(id, row) => if id in m.calls { JoinKeeps(m, id, row); }
    case AddMember(id, d, u) => if id in m.calls { AddKeeps(m, id, d, u); }
    case RemoveMember(id, d, u) =>
      if id in m.calls && FirstRow(m.calls[id].participants, d).Some? { RemoveKeeps(m, id, d, u); }
    case SetMuted(id, d, u, on) => if id in m.calls { MuteKeeps(m, id, d, u, on); }
    case Leave(id, d) => if id in m.calls { LeaveKeeps(m, id, d); }
    case _ => PlainRows(m, op);
  }

  /** The operations that change no rows. */
  lemma PlainRows(m: Manager, op: Op)
    requires RowsDistinct(m) && SinksPrivate(m) && Enabled(m, op)
    requires op.OpenDirect? || op.MintToken? || op.GetRoom? || op.End? || op.Route?
    ensures RowsDistinct(Step(m, op)) && SinksPrivate(Step(m, op))
  {
    if op.End? { EndKeeps(m, op.id, op.reason); }
  }

  lemma EndKeeps(m: Manager, id: CallId, reason: string)
    requires RowsDistinct(m) && SinksPrivate(m)
    ensures RowsDistinct(StepEnd(m, id, reason)) && SinksPrivate(StepEnd(m, id, reason))
  {
    if id in m.calls { BroadcastEffect(m.queues, m.calls[id].participants, CallEnded(id, reason)); }
  }

  lemma JoinKeeps(m: Manager, id: CallId, row: Participant)
    requires RowsDistinct(m) && SinksPrivate(m) && id in m.calls && row.sink !in m.queues
    ensures RowsDistinct(StepJoin(m, id, row)) && SinksPrivate(StepJoin(m, id, row))
  {
    JoinRows(m, id, row);
    JoinLog(m, id, row, row.sink);
    ReplacesKeeps(m, StepJoin(m, id, row), id, Without(m.calls[id].participants, row.domain) + [row]);
  }

  /** Editing one row of a call changes neither servers nor channels. */
  lemma EditKeeps(m: Manager, n: Manager, id: CallId, d: ServerId, e: Edit)
    requires RowsDistinct(m) && SinksPrivate(m) && id in m.calls && n.issued == m.issued
    requires n.calls == m.calls[id := m.calls[id].(participants := EditFirst(m.calls[id].participants, d, e))]
    requires n.queues.Keys == m.queues.Keys + Sinks(EditFirst(m.calls[id].participants, d, e))
    ensures RowsDistinct(n) && SinksPrivate(n)
  {
    EditRows(m.calls[id].participants, d, e);
    ReplacesKeeps(m, n, id, EditFirst(m.calls[id].participants, d, e));
  }

  lemma AddKeeps(m: Manager, id: CallId, d: ServerId, u: ParticipantId)
    requires RowsDistinct(m) && SinksPrivate(m) && id in m.calls
    ensures RowsDistinct(StepAdd(m, id, d, u)) && SinksPrivate(StepAdd(m, id, d, u))
  {
    var rows := EditFirst(m.calls[id].participants, d, AddOne(u));
    EditRows(m.calls[id].participants, d, AddOne(u));
    BroadcastTwice(m.queues, rows, ParticipantJoined(id, d, [u]), Roster(id, RosterOf(rows)));
    EditKeeps(m, StepAdd(m, id, d, u), id, d, AddOne(u));
  }

  lemma RemoveKeeps(m: Manager, id: CallId, d: ServerId, u: ParticipantId)
    requires RowsDistinct(m) && SinksPrivate(m) && id in m.calls && FirstRow(m.calls[id].participants, d).Some?
    ensures RowsDistinct(StepRemove(m, id, d, u)) && SinksPrivate(StepRemove(m, id, d, u))
  {
    var rows := EditFirst(m.calls[id].participants, d, DropOne(u));
    EditRows(m.calls[id].participants, d, DropOne(u));
    BroadcastEffect(m.queues, rows, Roster(id, RosterOf(rows)));
    EditKeeps(m, StepRemove(m, id, d, u), id, d, DropOne(u));
  }

  lemma MuteKeeps(m: Manager, id: CallId, d: ServerId, u: ParticipantId, on: bool)
    requires RowsDistinct(m) && SinksPrivate(m) && id in m.calls
    ensures RowsDistinct(StepMute(m, id, d, u, on)) && SinksPrivate(StepMute(m, id, d, u, on))
  {
    var rows := EditFirst(m.calls[id].participants, d, MuteOne(u, on));
    EditRows(m.calls[id].participants, d, MuteOne(u, on));
    BroadcastEffect(m.queues, rows, Mute(id, u, on));
    EditKeeps(m, StepMute(m, id, d, u, on), id, d, MuteOne(u, on));
  }

  lemma LeaveKeeps(m: Manager, id: CallId, d: ServerId)
    requires RowsDistinct(m) && SinksPrivate(m) && id in m.calls
    ensures RowsDistinct(StepLeave(m, id, d)) && SinksPrivate(StepLeave(m, id, d))
  {
    var kept := Without(m.calls[id].participants, d);
    WithoutEffect(m.calls[id].participants, d);
    BroadcastTwice(m.queues, kept, ParticipantLeft(id, d), Roster(id, RosterOf(kept)));
    if |kept| != |m.calls[id].participants| {
      var n := Announce(SetRows(m, id, kept), kept, ParticipantLeft(id, d), Roster(id, RosterOf(kept)));
      ReplacesKeeps(m, n, id, kept);
    }
  }

  // ── rooms, direct calls, ended calls ──────────────────────────────────

  /** No room comes or goes, and no call changes kind; a direct call may go. */
  ghost predicate KindsKept(m: Manager, n: Manager) {
    n.rooms == m.rooms &&
    (forall id :: id in n.calls ==> id in m.calls && n.calls[id].kind == m.calls[id].kind) &&
    (forall id :: id in m.calls && id !in n.calls ==> m.calls[id].kind == Direct)
  }

  lemma StepKinds(m: Manager, op: Op)
    requires !op.OpenDirect? && !op.GetRoom? && !op.End?
    ensures KindsKept(m, Step(m, op))
  {
    if op.Join? || op.AddMember? || op.RemoveMember? { EditKinds(m, op); }
  }

  lemma EditKinds(m: Manager, op: Op)
    requires op.Join? || op.AddMember? || op.RemoveMember?
    ensures KindsKept(m, Step(m, op))
  {
  }

  lemma RoomsKept(m: Manager, n: Manager)
    requires RoomsMatch(m) && KindsKept(m, n)
    ensures RoomsMatch(n)
  {
  }

  lemma StepRooms(m: Manager, op: Op)
    requires RowsDistinct(m) && RoomsMatch(m) && Enabled(m, op)
    ensures RoomsMatch(Step(m, op))
  {
    match op
    case OpenDirect(_, id, _) =>
    case GetRoom(path, id) =>
    case End(id, reason) => if id in m.calls { EndRooms(m, id, reason); }
    case _ => StepKinds(m, op); RoomsKept(m, Step(m, op));
  }

  lemma EndRooms(m: Manager, id: CallId, reason: string)
    requires RoomsMatch(m) && id in m.calls
    ensures RoomsMatch(StepEnd(m, id, reason))
  {
  }

  lemma StepDirects(m: Manager, op: Op)
    requires RowsDistinct(m) && DirectsLive(m) && Enabled(m, op)
    ensures DirectsLive(Step(m, op))
  {
    match op
    case Join(id, row) => if id in m.calls { DirectsJoin(m, id, row); }
    case Leave(id, d) => if id in m.calls { DirectsLeave(m, id, d); }
    case AddMember(id, d, u) => if id in m.calls { EditFirstKeeps(m.calls[id].participants, d, AddOne(u)); }
    case RemoveMember(id, d, u) => if id in m.calls { EditFirstKeeps(m.calls[id].participants, d, DropOne(u)); }
    case SetMuted(id, d, u, on) => if id in m.calls { EditFirstKeeps(m.calls[id].participants, d, MuteOne(u, on)); }
    case _ =>
  }

  lemma DirectsJoin(m: Manager, id: CallId, row: Participant)
    requires RowsDistinct(m) && DirectsLive(m) && id in m.calls
    ensures DirectsLive(StepJoin(m, id, row))
  {
  }

  lemma DirectsLeave(m: Manager, id: CallId, d: ServerId)
    requires RowsDistinct(m) && DirectsLive(m) && id in m.calls
    ensures DirectsLive(StepLeave(m, id, d))
  {
  }

  /** Only live calls are ever spoken about, and `CallEnded` is a call's last word. */
  lemma SentAboutLive(m: Manager, op: Op, s: SinkId, i: nat)
    requires i < |Sent(m, op, s)|
    ensures FrameCall(Sent(m, op, s)[i]).Some? && FrameCall(Sent(m, op, s)[i]).value in m.calls
    ensures Sent(m, op, s)[i].CallEnded? ==>
              |Sent(m, op, s)| == 1 && op.End? && Sent(m, op, s)[i].callId == op.id
  {
  }

  lemma StepQuiet(m: Manager, op: Op)
    requires RowsDistinct(m) && Quiet(m) && Enabled(m, op)
    ensures Quiet(Step(m, op))
  {
    var n := Step(m, op);
    forall s, k | 0 <= k < |Log(n.queues, s)| && Log(n.queues, s)[k].CallEnded?
      ensures QuietAfter(n, Log(n.queues, s), k, Log(n.queues, s)[k].callId)
    {
      ChannelQuiet(m, op, s, k);
    }
  }

  lemma ChannelQuiet(m: Manager, op: Op, s: SinkId, k: nat)
    requires RowsDistinct(m) && Quiet(m) && Enabled(m, op)
    requires k < |Log(Step(m, op).queues, s)| && Log(Step(m, op).queues, s)[k].CallEnded?
    ensures QuietAfter(Step(m, op), Log(Step(m, op).queues, s), k, Log(Step(m, op).queues, s)[k].callId)
  {
    StepLog(m, op, s);
    var log, sent := Log(m.queues, s), Sent(m, op, s);
    var all: seq<SignalMsg> := log + sent;
    var id := all[k].callId;
    if k < |log| {
      assert log[k].CallEnded?;
      assert QuietAfter(m, log, k, id);
      StepDead(m, op, id);
      forall j | k < j < |all| ensures FrameCall(all[j]) != Some(id) {
        if |log| <= j { SentAboutLive(m, op, s, j - |log|); }
      }
    } else {
      SentAboutLive(m, op, s, k - |log|);
    }
  }

  // ── roster convergence ────────────────────────────────────────────────

  lemma LastRosterAppend(log: seq<SignalMsg>, f: SignalMsg)
    ensures LastRoster(log + [f]) == if f.Roster? then Some(f.participants) else LastRoster(log)
  {
  }

  lemma LastRosterSent(log: seq<SignalMsg>, sent: seq<SignalMsg>)
    requires |sent| <= 2
    ensures |sent| > 0 && sent[|sent| - 1].Roster? ==>
              LastRoster(log + sent) == Some(sent[|sent| - 1].participants)
    ensures (forall i :: 0 <= i < |sent| ==> !sent[i].Roster?) ==> LastRoster(log + sent) == LastRoster(log)
  {
    if |sent| == 0 {
      assert log + sent == log;
    } else if |sent| == 1 {
      LastRosterAppend(log, sent[0]);
      assert log + sent == log + [sent[0]];
    } else {
      LastRosterAppend(log, sent[0]);
      LastRosterAppend(log + [sent[0]], sent[1]);
      assert log + sent == log + [sent[0]] + [sent[1]];
    }
  }

  lemma StepConverged(m: Manager, op: Op, exact: bool)
    requires RowsDistinct(m) && SinksPrivate(m) && Converged(m, exact) && Enabled(m, op)
    requires exact ==> !op.SetMuted?
    ensures Converged(Step(m, op), exact)
  {
    var n := Step(m, op);
    forall id, p | Attached(n, id, p)
      ensures LastRoster(Log(n.queues, p.sink)).Some?
      ensures Agrees(LastRoster(Log(n.queues, p.sink)).value, n.calls[id].participants, exact)
    {
      RowConverged(m, op, exact, id, p);
    }
  }

  /** What was sent ends with the roster of `rows`. */
  predicate Told(sent: seq<SignalMsg>, id: CallId, rows: seq<Participant>) {
    1 <= |sent| <= 2 && sent[|sent| - 1] == Roster(id, RosterOf(rows))
  }

  lemma JoinTold(m: Manager, id: CallId, row: Participant, p: Participant)
    requires RowsDistinct(m) && row.sink !in m.queues && id in m.calls
    requires p in Without(m.calls[id].participants, row.domain) + [row]
    ensures Told(SentJoin(m, id, row, p.sink), id, Without(m.calls[id].participants, row.domain) + [row])
  {
    JoinRows(m, id, row);
    assert p != row ==> p.sink in Sinks(Without(m.calls[id].participants, row.domain));
  }

  lemma AddTold(m: Manager, id: CallId, d: ServerId, u: ParticipantId, p: Participant)
    requires RowsDistinct(m) && id in m.calls && p in EditFirst(m.calls[id].participants, d, AddOne(u))
    ensures Told(SentAdd(m, id, d, u, p.sink), id, EditFirst(m.calls[id].participants, d, AddOne(u)))
  {
    EditRows(m.calls[id].participants, d, AddOne(u));
    assert p.sink in Sinks(EditFirst(m.calls[id].participants, d, AddOne(u)));
  }

  lemma RemoveTold(m: Manager, id: CallId, d: ServerId, u: ParticipantId, p: Participant)
    requires RowsDistinct(m) && id in m.calls && d in Domains(m.calls[id].participants)
    requires p in EditFirst(m.calls[id].participants, d, DropOne(u))
    ensures Told(SentRemove(m, id, d, u, p.sink), id, EditFirst(m.calls[id].participants, d, DropOne(u)))
  {
    EditRows(m.calls[id].participants, d, DropOne(u));
    assert p.sink in Sinks(EditFirst(m.calls[id].participants, d, DropOne(u)));
  }

  lemma LeaveTold(m: Manager, id: CallId, d: ServerId, p: Participant)
    requires id in m.calls && d in Domains(m.calls[id].participants) && p in Without(m.calls[id].participants, d)
    ensures Told(SentLeave(m, id, d, p.sink), id, Without(m.calls[id].participants, d))
  {
    assert p.sink in Sinks(Without(m.calls[id].participants, d));
  }

  /** The rows an operation gives its call. */
  function NewRows(m: Manager, op: Op): seq<Participant>
    requires (op.Join? || op.AddMember? || op.RemoveMember? || op.Leave?) && op.id in m.calls
  {
    var ps := m.calls[op.id].participants;
    match op
    case Join(_, row) => Without(ps, row.domain) + [row]
    case AddMember(_, d, u) => EditFirst(ps, d, AddOne(u))
    case RemoveMember(_, d, u) => EditFirst(ps, d, DropOne(u))
    case Leave(_, d) => Without(ps, d)
  }

  lemma NewRowsTold(m: Manager, op: Op, id: CallId, p: Participant)
    requires RowsDistinct(m) && Enabled(m, op) && Touches(m, op, id) && p in NewRows(m, op)
    ensures Told(Sent(m, op, p.sink), id, NewRows(m, op))
  {
    match op
    case Join(_, row) => JoinTold(m, id, row, p);
    case AddMember(_, d, u) => AddTold(m, id, d, u, p);
    case RemoveMember(_, d, u) => RemoveTold(m, id, d, u, p);
    case Leave(_, d) => LeaveTold(m, id, d, p);
  }

  lemma NewRowsAfter(m: Manager, op: Op, id: CallId)
    requires Touches(m, op, id) && id in Step(m, op).calls
    ensures Step(m, op).calls[id].participants == NewRows(m, op)
  {
    if op.RemoveMember? { FirstRowEffect(m.calls[id].participants, op.domain); }
    if op.Leave? { WithoutEffect(m.calls[id].participants, op.domain); }
  }

  predicate Touches(m: Manager, op: Op, id: CallId) {
    (op.Join? || op.AddMember? || op.RemoveMember? || op.Leave?) && op.id == id && id in m.calls &&
    (op.RemoveMember? || op.Leave? ==> op.domain in Domains(m.calls[id].participants))
  }

  lemma RowConverged(m: Manager, op: Op, exact: bool, id: CallId, p: Participant)
    requires RowsDistinct(m) && SinksPrivate(m) && Converged(m, exact) && Enabled(m, op)
    requires exact ==> !op.SetMuted?
    requires Attached(Step(m, op), id, p)
    ensures LastRoster(Log(Step(m, op).queues, p.sink)).Some?
    ensures Agrees(LastRoster(Log(Step(m, op).queues, p.sink)).value, Step(m, op).calls[id].participants, exact)
  {
    StepLog(m, op, p.sink);
    if Touches(m, op, id) {
      TouchedConverged(m, op, id, p);
    } else if op.SetMuted? && op.id == id {
      LastRosterSent(Log(m.queues, p.sink), Sent(m, op, p.sink));
      MutedConverged(m, id, op.domain, op.member, op.on, p);
    } else {
      UntouchedRow(m, op, exact, id, p);
    }
  }

  lemma TouchedConverged(m: Manager, op: Op, id: CallId, p: Participant)
    requires RowsDistinct(m) && Enabled(m, op) && Touches(m, op, id) && Attached(Step(m, op), id, p)
    ensures LastRoster(Log(m.queues, p.sink) + Sent(m, op, p.sink)) == Some(RosterOf(Step(m, op).calls[id].participants))
  {
    NewRowsAfter(m, op, id);
    NewRowsTold(m, op, id, p);
    LastRosterSent(Log(m.queues, p.sink), Sent(m, op, p.sink));
  }

  lemma UntouchedRow(m: Manager, op: Op, exact: bool, id: CallId, p: Participant)
    requires RowsDistinct(m) && SinksPrivate(m) && Converged(m, exact) && Enabled(m, op)
    requires Attached(Step(m, op), id, p) && !Touches(m, op, id) && !(op.SetMuted? && op.id == id)
    ensures LastRoster(Log(m.queues, p.sink) + Sent(m, op, p.sink)).Some?
    ensures Agrees(LastRoster(Log(m.queues, p.sink) + Sent(m, op, p.sink)).value, Step(m, op).calls[id].participants, exact)
  {
    assert Untouched(m, op, id) by { StepTouch(m, op, id); }
    UntouchedRows(m, op, id, p);
    UntouchedConverged(m, op, id, p);
    LastRosterSent(Log(m.queues, p.sink), Sent(m, op, p.sink));
  }

  lemma StepTouch(m: Manager, op: Op, id: CallId)
    requires id in Step(m, op).calls
    requires !Touches(m, op, id) && !(op.SetMuted? && op.id == id)
    ensures Untouched(m, op, id)
  {
  }

  lemma MutedConverged(m: Manager, id: CallId, d: ServerId, u: ParticipantId, on: bool, p: Participant)
    requires RowsDistinct(m) && Converged(m, false) && id in m.calls
    requires p in EditFirst(m.calls[id].participants, d, MuteOne(u, on))
    ensures LastRoster(Log(m.queues, p.sink)).Some?
    ensures Agrees(LastRoster(Log(m.queues, p.sink)).value, EditFirst(m.calls[id].participants, d, MuteOne(u, on)), false)
  {
    var ps := m.calls[id].participants;
    var rows := EditFirst(ps, d, MuteOne(u, on));
    EditFirstEffect(ps, d, MuteOne(u, on));
    var i :| 0 <= i < |rows| && rows[i] == p;
    assert Attached(m, id, ps[i]) && ps[i].sink == p.sink;
    SameButMuted(LastRoster(Log(m.queues, p.sink)).value, ps, d, u, on);
  }

  /** Muted lists aside, a roster fits after muting if it fitted before. */
  lemma SameButMuted(r: seq<RosterEntry>, ps: seq<Participant>, d: ServerId, u: ParticipantId, on: bool)
    requires Distinct(ps) && Agrees(r, ps, false)
    ensures Agrees(r, EditFirst(ps, d, MuteOne(u, on)), false)
  {
    EditFirstEffect(ps, d, MuteOne(u, on));
  }

  predicate Untouched(m: Manager, op: Op, id: CallId) {
    (op.Join? || op.AddMember? || op.SetMuted? || op.End? ==> op.id != id) &&
    (op.RemoveMember? || op.Leave? ==>
      op.id != id || (id in m.calls && op.domain !in Domains(m.calls[id].participants)))
  }

  lemma UntouchedRows(m: Manager, op: Op, id: CallId, p: Participant)
    requires RowsDistinct(m) && Enabled(m, op) && Untouched(m, op, id) && Attached(Step(m, op), id, p)
    ensures Attached(m, id, p) && m.calls[id].participants == Step(m, op).calls[id].participants
  {
    if op.RemoveMember? && op.id == id {
      FirstRowEffect(m.calls[id].participants, op.domain);
    } else if op.Leave? && op.id == id {
      WithoutEffect(m.calls[id].participants, op.domain);
    }
  }

  /** A transition that does not change a call's rows sends no roster to them. */
  lemma UntouchedConverged(m: Manager, op: Op, id: CallId, p: Participant)
    requires RowsDistinct(m) && SinksPrivate(m) && Enabled(m, op) && Untouched(m, op, id)
    requires Attached(m, id, p)
    ensures |Sent(m, op, p.sink)| <= 2
    ensures forall i :: 0 <= i < |Sent(m, op, p.sink)| ==> !Sent(m, op, p.sink)[i].Roster?
  {
    assert p.sink in Sinks(m.calls[id].participants);
    if (op.Join? || op.AddMember? || op.SetMuted? || op.RemoveMember? || op.Leave?) && op.id in m.calls && op.id != id {
      assert Sinks(m.calls[id].participants) !! Sinks(m.calls[op.id].participants);
      if op.Join? { JoinRows(m, op.id, op.row); }
      if op.Leave? { WithoutEffect(m.calls[op.id].participants, op.domain); }
    }
  }

  // ── every run ─────────────────────────────────────────────────────────

  lemma StepSound(m: Manager, op: Op)
    requires Sound(m) && Enabled(m, op)
    ensures Sound(Step(m, op))
  {
    StepRows(m, op);
    StepRooms(m, op);
    StepDirects(m, op);
    StepQuiet(m, op);
  }

  lemma {:induction false} RunSound(m: Manager, ops: seq<Op>)
    requires Sound(m) && Legal(m, ops)
    ensures Sound(Run(m, ops))
    decreases |ops|
  {
    if ops != [] {
      StepSound(m, ops[0]);
      RunSound(Step(m, ops[0]), ops[1..]);
    }
  }

  /** The state any legal sequence of calls into a fresh manager reaches is sound. */
  lemma ReachableSound(ops: seq<Op>)
    requires Legal(Init, ops)
    ensures Sound(Run(Init, ops))
  {
    RunSound(Init, ops);
  }

  predicate NoMuting(ops: seq<Op>) { forall i :: 0 <= i < |ops| ==> !ops[i].SetMuted? }

  lemma {:induction false} RunConverged(m: Manager, ops: seq<Op>, exact: bool)
    requires Sound(m) && Converged(m, exact) && Legal(m, ops)
    requires exact ==> NoMuting(ops)
    ensures Converged(Run(m, ops), exact)
    decreases |ops|
  {
    if ops != [] {
      StepSound(m, ops[0]);
      StepConverged(m, ops[0], exact);
      RunConverged(Step(m, ops[0]), ops[1..], exact);
    }
  }

  /**
   * Roster convergence. In every reachable state, the last roster each attached
   * channel was sent is the call's current roster: exactly, when nobody was muted,
   * and up to the muted lists in general.
   */
  lemma RosterConvergence(ops: seq<Op>, id: CallId, p: Participant)
    requires Legal(Init, ops) && Attached(Run(Init, ops), id, p)
    ensures var n := Run(Init, ops);
            var last := LastRoster(Log(n.queues, p.sink));
            last.Some? && Agrees(last.value, n.calls[id].participants, NoMuting(ops))
  {
    RunConverged(Init, ops, NoMuting(ops));
  }

  /** Servers within a call are pairwise distinct, and so are their channels. */
  lemma ServersDistinct(ops: seq<Op>, id: CallId, i: nat, j: nat)
    requires Legal(Init, ops) && id in Run(Init, ops).calls
    requires i < j < |Run(Init, ops).calls[id].participants|
    ensures var ps := Run(Init, ops).calls[id].participants;
            ps[i].domain != ps[j].domain && ps[i].sink != ps[j].sink
  {
    ReachableSound(ops);
    DistinctAt(Run(Init, ops).calls[id].participants, i, j);
  }

  /** No channel is attached to two calls. */
  lemma ChannelsPrivate(ops: seq<Op>, id: CallId, p: Participant, other: CallId, q: Participant)
    requires Legal(Init, ops) && Attached(Run(Init, ops), id, p) && Attached(Run(Init, ops), other, q) && p.sink == q.sink
    ensures id == other && p == q
  {
    ReachableSound(ops);
    var m := Run(Init, ops);
    var ps, qs := m.calls[id].participants, m.calls[other].participants;
    assert p.sink in Sinks(ps) && q.sink in Sinks(qs);
    var i :| 0 <= i < |ps| && ps[i] == p;
    var j :| 0 <= j < |qs| && qs[j] == q;
    if i < j { DistinctAt(ps, i, j); }
    if j < i { DistinctAt(ps, j, i); }
  }

  lemma {:induction false} DistinctAt(ps: seq<Participant>, i: nat, j: nat)
    requires Distinct(ps) && i < j < |ps|
    ensures ps[i].domain != ps[j].domain && ps[i].sink != ps[j].sink
  {
    if i == 0 {
      assert ps[j] == ps[1..][j - 1] && ps[j] in ps[1..];
    } else {
      DistinctAt(ps[1..], i - 1, j - 1);
    }
  }

  /** `rooms` and the room calls are inverse to each other; a joined direct call lives while somebody is in it. */
  lemma RoomCorrespondence(ops: seq<Op>, path: string, id: CallId)
    requires Legal(Init, ops)
    ensures var n := Run(Init, ops);
            (path in n.rooms && n.rooms[path] == id) <==> (id in n.calls && n.calls[id].kind == ChannelRoom(path))
    ensures var n := Run(Init, ops);
            id in n.joined && (id in n.calls ==> n.calls[id].kind == Direct) ==>
              (id in n.calls <==> exists p :: Attached(n, id, p))
  {
    ReachableSound(ops);
    var n := Run(Init, ops);
    if id in n.joined && id in n.calls && n.calls[id].kind == Direct {
      assert Attached(n, id, n.calls[id].participants[0]);
    }
  }

  lemma StepRoom(m: Manager, op: Op, path: string)
    requires RoomsMatch(m) && Enabled(m, op) && path in m.rooms && !(op.End? && op.id == m.rooms[path])
    ensures path in Step(m, op).rooms && Step(m, op).rooms[path] == m.rooms[path]
  {
    if !op.OpenDirect? && !op.GetRoom? && !op.End? { StepKinds(m, op); } else { PlainRoom(m, op, path); }
  }

  lemma PlainRoom(m: Manager, op: Op, path: string)
    requires RoomsMatch(m) && path in m.rooms && !(op.End? && op.id == m.rooms[path])
    requires op.OpenDirect? || op.GetRoom? || op.End?
    ensures path in Step(m, op).rooms && Step(m, op).rooms[path] == m.rooms[path]
  {
  }

  /** Until its call is ended, asking for a room again yields the same call. */
  lemma {:induction false} RoomStable(m: Manager, ops: seq<Op>, path: string)
    requires Sound(m) && Legal(m, ops) && path in m.rooms
    requires forall i :: 0 <= i < |ops| ==> !(ops[i].End? && ops[i].id == m.rooms[path])
    ensures path in Run(m, ops).rooms && Run(m, ops).rooms[path] == m.rooms[path]
    decreases |ops|
  {
    if ops != [] {
      StepSound(m, ops[0]);
      StepRoom(m, ops[0], path);
      RoomStable(Step(m, ops[0]), ops[1..], path);
    }
  }

  /** Distinct paths have distinct rooms. */
  lemma RoomsDistinct(ops: seq<Op>, p: string, q: string)
    requires Legal(Init, ops) && p in Run(Init, ops).rooms && q in Run(Init, ops).rooms && p != q
    ensures Run(Init, ops).rooms[p] != Run(Init, ops).rooms[q]
  {
    ReachableSound(ops);
  }

  /** Once a channel has been sent `CallEnded` for a call, no later frame in it is about that call. */
  lemma EndedCallsSilent(ops: seq<Op>, s: SinkId, k: nat, j: nat)
    requires Legal(Init, ops)
    requires k < j < |Log(Run(Init, ops).queues, s)| && Log(Run(Init, ops).queues, s)[k].CallEnded?
    ensures var n := Run(Init, ops);
            var log := Log(n.queues, s);
            log[k].callId !in n.calls && FrameCall(log[j]) != Some(log[k].callId)
  {
    ReachableSound(ops);
    var n := Run(Init, ops);
    assert QuietAfter(n, Log(n.queues, s), k, Log(n.queues, s)[k].callId);
  }

  // ── point-to-point delivery ───────────────────────────────────────────

  function PointToPoint(log: seq<SignalMsg>): seq<SignalMsg> {
    if log == [] then []
    else PointToPoint(log[..|log| - 1]) + if log[|log| - 1].Sdp? || log[|log| - 1].Ice? then [log[|log| - 1]] else []
  }

  lemma {:induction false} PointToPointAppend(a: seq<SignalMsg>, b: seq<SignalMsg>)
    ensures PointToPoint(a + b) == PointToPoint(a) + PointToPoint(b)
  {
    if b == [] {
      assert a + b == a;
    } else {
      assert (a + b)[..|a + b| - 1] == a + b[..|b| - 1];
      PointToPointAppend(a, b[..|b| - 1]);
    }
  }

  function Delivered(m: Manager, op: Op, s: SinkId): seq<SignalMsg> {
    if op.Route? && Reaches(m, op.frame, s) then [op.frame] else []
  }

  /** The frames routed during a run while `s` belonged to the row they were addressed to. */
  function Routed(m: Manager, ops: seq<Op>, s: SinkId): seq<SignalMsg>
    decreases |ops|
  {
    if ops == [] then [] else Delivered(m, ops[0], s) + Routed(Step(m, ops[0]), ops[1..], s)
  }

  /**
   * A channel's Sdp and Ice frames are exactly those routed to it, in order and
   * unchanged; any other frame is routed to nobody.
   */
  lemma {:induction false} PointToPointDelivery(m: Manager, ops: seq<Op>, s: SinkId)
    requires Sound(m) && Legal(m, ops)
    ensures PointToPoint(Log(Run(m, ops).queues, s)) == PointToPoint(Log(m.queues, s)) + Routed(m, ops, s)
    ensures forall f: SignalMsg :: !f.Sdp? && !f.Ice? ==> Step(m, Route(f)) == m
    decreases |ops|
  {
    if ops != [] {
      var n := Step(m, ops[0]);
      assert Sound(n) by { StepSound(m, ops[0]); }
      StepPointToPoint(m, ops[0], s);
      PointToPointDelivery(n, ops[1..], s);
      Assoc(PointToPoint(Log(m.queues, s)), Delivered(m, ops[0], s), Routed(n, ops[1..], s));
    }
  }

  lemma Assoc<T>(a: seq<T>, b: seq<T>, c: seq<T>)
    ensures (a + b) + c == a + (b + c)
  {
  }

  lemma StepPointToPoint(m: Manager, op: Op, s: SinkId)
    requires RowsDistinct(m) && Enabled(m, op)
    ensures PointToPoint(Log(Step(m, op).queues, s))
            == PointToPoint(Log(m.queues, s)) + Delivered(m, op, s)
  {
    StepLog(m, op, s);
    PointToPointAppend(Log(m.queues, s), Sent(m, op, s));
    SentPointToPoint(m, op, s);
  }

  lemma {:induction false} NoTargets(sent: seq<SignalMsg>)
    requires forall i :: 0 <= i < |sent| ==> !sent[i].Sdp? && !sent[i].Ice?
    ensures PointToPoint(sent) == []
  {
    if sent != [] { NoTargets(sent[..|sent| - 1]); }
  }

  lemma SentPointToPoint(m: Manager, op: Op, s: SinkId)
    ensures PointToPoint(Sent(m, op, s)) == Delivered(m, op, s)
  {
    if op.Route? && Reaches(m, op.frame, s) {
      assert [op.frame][..0] == [] && PointToPoint([op.frame]) == PointToPoint([op.frame][..0]) + [op.frame];
    } else {
      NoTargets(Sent(m, op, s));
    }
  }

  /** A frame for an attached server is sent into that server's channel and nowhere else, and changes nothing besides. */
  lemma RouteDelivers(m: Manager, f: SignalMsg, p: Participant)
    requires RowsDistinct(m) && (f.Sdp? || f.Ice?) && Attached(m, f.callId, p) && p.domain == f.to
    ensures Step(m, Route(f)) == m.(queues := m.queues[p.sink := Log(m.queues, p.sink) + [f]])
  {
    FirstRowEffect(m.calls[f.callId].participants, f.to);
  }

  /** A frame for a server that is not attached goes nowhere. */
  lemma RouteDrops(m: Manager, f: SignalMsg)
    requires (f.Sdp? || f.Ice?) && !HasParticipant(m, f.callId, f.to)
    ensures Step(m, Route(f)) == m
  {
    if f.callId in m.calls {
      FirstRowEffect(m.calls[f.callId].participants, f.to);
    }
  }

  // ── members and mutes ─────────────────────────────────────────────────

  lemma {:induction false} WithoutMemberIs(ms: seq<ParticipantId>, u: ParticipantId)
    ensures forall x :: x in WithoutMember(ms, u) <==> x in ms && x != u
  {
    if ms != [] {
      WithoutMemberIs(ms[1..], u);
      assert ms == [ms[0]] + ms[1..];
    }
  }

  /** Only the server's own row is edited, and every other row stays where it was. */
  lemma {:induction false} EditedRow(ps: seq<Participant>, d: ServerId, e: Edit)
    requires Distinct(ps)
    ensures |EditFirst(ps, d, e)| == |ps|
    ensures forall i :: 0 <= i < |ps| ==> EditFirst(ps, d, e)[i] == if ps[i].domain == d then EditRow(ps[i], e) else ps[i]
  {
    if ps != [] {
      assert forall i :: 0 <= i < |ps| - 1 ==> ps[1..][i] == ps[i + 1];
      if ps[0].domain != d { EditedRow(ps[1..], d, e); }
    }
  }

  /** Who is in a row, and who is muted in it, after a member was added, removed or (un)muted. */
  lemma RowEdits(p: Participant, u: ParticipantId, x: ParticipantId, on: bool)
    ensures var q := EditRow(p, AddOne(u));
            (x in q.members <==> x in p.members || x == u) && q == p.(members := q.members) &&
            |q.members| == |p.members| + if u in p.members then 0 else 1
    ensures var q := EditRow(p, DropOne(u));
            (x in q.members <==> x in p.members && x != u) && (x in q.muted <==> x in p.muted && x != u) &&
            q == p.(members := q.members, muted := q.muted)
    ensures var q := EditRow(p, MuteOne(u, on));
            (x in q.muted <==> if x == u then on else x in p.muted) && q == p.(muted := q.muted)
  {
    WithoutMemberIs(p.members, u);
    WithoutMemberIs(p.muted, u);
  }

  /** The rows of a call after one of these operations: the server's own row is edited, no other. */
  lemma EditsRows(m: Manager, op: Op, i: nat)
    requires RowsDistinct(m) && (op.AddMember? || op.RemoveMember? || op.SetMuted?)
    requires op.id in m.calls && i < |m.calls[op.id].participants|
    ensures var p := m.calls[op.id].participants[i];
            var e := if op.AddMember? then AddOne(op.member) else if op.RemoveMember? then DropOne(op.member) else MuteOne(op.member, op.on);
            op.id in Step(m, op).calls && |Step(m, op).calls[op.id].participants| == |m.calls[op.id].participants| &&
            Step(m, op).calls[op.id].participants[i] == if p.domain == op.domain then EditRow(p, e) else p
  {
    var ps := m.calls[op.id].participants;
    EditedRow(ps, op.domain, if op.AddMember? then AddOne(op.member) else if op.RemoveMember? then DropOne(op.member) else MuteOne(op.member, op.on));
    FirstRowEffect(ps, op.domain);
    if op.RemoveMember? && FirstRow(ps, op.domain).None? { assert ps[i].domain in Domains(ps); }
  }

  // ── tokens ────────────────────────────────────────────────────────────

  /** The token a call hands out for a server keeps verifying for as long as the call lives. */
  lemma {:induction false} TokenStable(m: Manager, ops: seq<Op>, id: CallId, d: ServerId, token: string)
    requires Sound(m) && Legal(m, ops) && Verifies(m, id, d, token) && id in Run(m, ops).calls
    ensures Verifies(Run(m, ops), id, d, token)
    decreases |ops|
  {
    if ops != [] {
      StepSound(m, ops[0]);
      StepToken(m, ops[0], id, d, token);
      if id in Step(m, ops[0]).calls {
        TokenStable(Step(m, ops[0]), ops[1..], id, d, token);
      } else {
        DeadStays(Step(m, ops[0]), ops[1..], id);
      }
    }
  }

  lemma StepToken(m: Manager, op: Op, id: CallId, d: ServerId, token: string)
    requires RowsDistinct(m) && Enabled(m, op) && Verifies(m, id, d, token)
    ensures id in Step(m, op).calls ==> Verifies(Step(m, op), id, d, token)
    ensures id in Step(m, op).issued
  {
    if op.Join? || op.AddMember? || op.RemoveMember? || op.Leave? || op.SetMuted? { RowsToken(m, op, id, d, token); }
  }

  lemma RowsToken(m: Manager, op: Op, id: CallId, d: ServerId, token: string)
    requires Verifies(m, id, d, token) && id in m.issued
    requires op.Join? || op.AddMember? || op.RemoveMember? || op.Leave? || op.SetMuted?
    ensures id in Step(m, op).calls ==> Verifies(Step(m, op), id, d, token)
    ensures id in Step(m, op).issued
  {
  }

  lemma StepDead(m: Manager, op: Op, id: CallId)
    requires Enabled(m, op) && id in m.issued && id !in m.calls
    ensures id in Step(m, op).issued && id !in Step(m, op).calls
  {
  }

  /** A call that is gone never comes back. */
  lemma {:induction false} DeadStays(m: Manager, ops: seq<Op>, id: CallId)
    requires Sound(m) && Legal(m, ops) && id in m.issued && id !in m.calls
    ensures id !in Run(m, ops).calls
    decreases |ops|
  {
    if ops != [] {
      StepSound(m, ops[0]);
      StepDead(m, ops[0], id);
      DeadStays(Step(m, ops[0]), ops[1..], id);
    }
  }

  /** Not a word about a call that is gone reaches any channel, in any run. */
  lemma {:induction false} DeadSilent(m: Manager, ops: seq<Op>, id: CallId, s: SinkId)
    requires Sound(m) && Legal(m, ops) && id in m.issued && id !in m.calls
    ensures var before, after := Log(m.queues, s), Log(Run(m, ops).queues, s);
            before <= after && forall j :: |before| <= j < |after| ==> FrameCall(after[j]) != Some(id)
    decreases |ops|
  {
    if ops != [] {
      var n, sent := Step(m, ops[0]), Sent(m, ops[0], s);
      StepSound(m, ops[0]);
      StepDead(m, ops[0], id);
      StepLog(m, ops[0], s);
      forall i | 0 <= i < |sent| ensures FrameCall(sent[i]) != Some(id) { SentAboutLive(m, ops[0], s, i); }
      DeadSilent(n, ops[1..], id, s);
      var log, after := Log(n.queues, s), Log(Run(n, ops[1..]).queues, s);
      assert forall j :: |Log(m.queues, s)| <= j < |log| ==> after[j] == log[j] == sent[j - |Log(m.queues, s)|];
    }
  }

  /** Opening and minting hand out tokens that verify, for the named server and no other. */
  lemma TokensVerify(m: Manager, id: CallId, d: ServerId, token: string, e: ServerId, t: string)
    ensures Verifies(StepOpen(m, d, id, token), id, e, t) <==> e == d && t == token
    ensures id in m.calls ==>
              (Verifies(StepMint(m, id, d, token), id, e, t) <==>
               Verifies(m, id, e, t) || (e == d && t == token && d !in m.calls[id].tokens))
  {
  }

  // ── muting ────────────────────────────────────────────────────────────

  ghost predicate Unmuted(m: Manager) {
    (forall id, p :: Attached(m, id, p) ==> p.muted == []) &&
    forall s, k :: 0 <= k < |Log(m.queues, s)| ==> !Log(m.queues, s)[k].Mute?
  }

  /** `set_muted` is the only way in: without it no list and no channel ever mentions a mute. */
  lemma {:induction false} NeverMuted(m: Manager, ops: seq<Op>)
    requires Sound(m) && Unmuted(m) && Legal(m, ops) && NoMuting(ops)
    requires forall i :: 0 <= i < |ops| && ops[i].Join? ==> ops[i].row.muted == []
    ensures Unmuted(Run(m, ops))
    decreases |ops|
  {
    if ops != [] {
      StepSound(m, ops[0]);
      StepUnmuted(m, ops[0]);
      NeverMuted(Step(m, ops[0]), ops[1..]);
    }
  }

  lemma StepUnmuted(m: Manager, op: Op)
    requires RowsDistinct(m) && Unmuted(m) && Enabled(m, op)
    requires !op.SetMuted? && (op.Join? ==> op.row.muted == [])
    ensures Unmuted(Step(m, op))
  {
    var n := Step(m, op);
    forall s, k | 0 <= k < |Log(n.queues, s)| ensures !Log(n.queues, s)[k].Mute? {
      StepLog(m, op, s);
      if k < |Log(m.queues, s)| { assert !Log(m.queues, s)[k].Mute?; }
    }
    forall id, p | Attached(n, id, p) ensures p.muted == [] { RowUnmuted(m, op, id, p); }
  }

  lemma RowUnmuted(m: Manager, op: Op, id: CallId, p: Participant)
    requires RowsDistinct(m) && Unmuted(m) && Enabled(m, op)
    requires !op.SetMuted? && (op.Join? ==> op.row.muted == [])
    requires Attached(Step(m, op), id, p)
    ensures p.muted == []
  {
    if id in m.calls && p in m.calls[id].participants {
      assert Attached(m, id, p);
    } else {
      assert Touches(m, op, id) by { if !Touches(m, op, id) { StepTouch(m, op, id); UntouchedRows(m, op, id, p); } }
      NewRowsAfter(m, op, id);
      NewRowUnmuted(m, op, id, p);
    }
  }

  lemma NewRowUnmuted(m: Manager, op: Op, id: CallId, p: Participant)
    requires RowsDistinct(m) && Unmuted(m) && Touches(m, op, id) && (op.Join? ==> op.row.muted == []) && p in NewRows(m, op)
    ensures p.muted == []
  {
    match op
    case Join(_, row) =>
      WithoutEffect(m.calls[id].participants, row.domain);
      assert p != row ==> Attached(m, id, p);
    case Leave(_, d) =>
      WithoutEffect(m.calls[id].participants, d);
      assert Attached(m, id, p);
    case AddMember(_, d, u) => EditUnmuted(m, id, d, AddOne(u), p);
    case RemoveMember(_, d, u) => EditUnmuted(m, id, d, DropOne(u), p);
  }

  lemma EditUnmuted(m: Manager, id: CallId, d: ServerId, e: Edit, p: Participant)
    requires RowsDistinct(m) && Unmuted(m) && id in m.calls && !e.MuteOne?
    requires p in EditFirst(m.calls[id].participants, d, e)
    ensures p.muted == []
  {
    var ps := m.calls[id].participants;
    EditFirstEffect(ps, d, e);
    var i :| 0 <= i < |ps| && EditFirst(ps, d, e)[i] == p;
    assert Attached(m, id, ps[i]);
  }
}
