// Index agreement: what a user server's maps say about its local users is what
// its call manager says about them, in every run
// (crates/userserver/src/call/mod.rs, crates/userserver/src/call/ws.rs).

module UserCallsIndex {
  import opened Options
  import Accounts
  import Sequences
  import opened Signal
  import opened ManagerSpec
  import opened CallRuns
  import opened UserCallsSpec

  // ── invariant ─────────────────────────────────────────────────────────

  predicate UsersOk(s: UserServer) { Accounts.UsernamesUnique(s.users) }

  predicate MemberList(s: UserServer, v: seq<UserId>) { v != [] && Sequences.Distinct(v) && forall u :: u in v ==> u in s.users }

  /** Member lists are non-empty and duplicate-free, and every user's current call lists that user. */
  predicate IndexOk(s: UserServer) {
    (forall c :: c in s.locals ==> MemberList(s, s.locals[c])) &&
    (forall u :: u in s.userCall ==> s.userCall[u] in s.locals && u in s.locals[s.userCall[u]])
  }

  function IdsOf(s: UserServer, v: seq<UserId>): set<ParticipantId> {
    set u | u in v && u in s.users :: FullId(s, u)
  }

  function OwnRow(s: UserServer, c: CallId): Option<Participant> { FirstRow(LiveRows(s.mgr, c), s.domain) }

  function MemberSet(p: Participant): set<ParticipantId> { set m | m in p.members }

  /** This server's row of a live call holds exactly the ids of the call's local members. */
  predicate Agrees(s: UserServer, c: CallId) {
    c in s.locals && OwnRow(s, c).Some? && MemberSet(OwnRow(s, c).value) == IdsOf(s, s.locals[c])
  }

  ghost predicate AgreeAll(s: UserServer) {
    forall c {:trigger Agrees(s, c)} :: c in s.mgr.calls ==> Agrees(s, c)
  }

  ghost predicate OnlyDirect(m: Manager) { forall c :: c in m.calls ==> m.calls[c].kind == Direct }

  /** What no event ever upsets. */
  ghost predicate Base(s: UserServer) { Sound(s.mgr) && OnlyDirect(s.mgr) && UsersOk(s) && IndexOk(s) }

  /** Every live call agrees with the index, and none of them has a link to another manager. */
  ghost predicate Agreement(s: UserServer) { s.links !! s.mgr.calls.Keys && AgreeAll(s) }

  ghost predicate Inv(s: UserServer) { Base(s) && Agreement(s) }

  // ── rows ──────────────────────────────────────────────────────────────

  lemma {:induction false} FirstRowWithout(ps: seq<Participant>, e: ServerId, d: ServerId)
    requires e != d
    ensures FirstRow(Without(ps, e), d) == FirstRow(ps, d)
  {
    if ps != [] {
      FirstRowWithout(ps[1..], e, d);
      if ps[0].domain != e { assert ([ps[0]] + Without(ps[1..], e))[1..] == Without(ps[1..], e); }
    }
  }

  lemma {:induction false} FirstRowAppend(ps: seq<Participant>, row: Participant, d: ServerId)
    ensures FirstRow(ps + [row], d)
            == if FirstRow(ps, d).Some? then FirstRow(ps, d) else if row.domain == d then Some(row) else None
  {
    if ps != [] {
      assert (ps + [row])[1..] == ps[1..] + [row];
      FirstRowAppend(ps[1..], row, d);
    }
  }

  lemma {:induction false} FirstRowEdit(ps: seq<Participant>, d: ServerId, e: Edit)
    requires FirstRow(ps, d).Some?
    ensures FirstRow(EditFirst(ps, d, e), d) == Some(EditRow(FirstRow(ps, d).value, e))
  {
    if ps[0].domain != d {
      FirstRowEdit(ps[1..], d, e);
      assert ([ps[0]] + EditFirst(ps[1..], d, e))[1..] == EditFirst(ps[1..], d, e);
    }
  }

  lemma {:induction false} OthersEffect(v: seq<UserId>, u: UserId)
    ensures forall x :: x in Others(v, u) <==> x in v && x != u
    ensures Sequences.Distinct(v) ==> Sequences.Distinct(Others(v, u))
  {
    if v != [] {
      OthersEffect(v[1..], u);
      assert v == [v[0]] + v[1..];
      assert Sequences.Distinct(v) ==> forall j :: 0 < j < |v| ==> v[j] == v[1..][j - 1];
      if Sequences.Distinct(v) {
        assert Sequences.Distinct(v[1..]);
        assert v[0] !in v[1..];
      }
    }
  }

  // ── the index ─────────────────────────────────────────────────────────

  lemma AddIndexed(s: UserServer, s': UserServer, c: CallId, u: UserId)
    requires IndexOk(s) && u in s.users && s'.users == s.users
    requires s'.locals == AddLocal(s.locals, c, u) && s'.userCall == s.userCall[u := c]
    ensures IndexOk(s')
  {
  }

  lemma RemoveIndexed(s: UserServer, s': UserServer, c: CallId, u: UserId)
    requires IndexOk(s) && s'.users == s.users
    requires s'.locals == RemoveLocal(s.locals, c, u) && s'.userCall == s.userCall - {u}
    ensures IndexOk(s')
  {
    if c in s.locals {
      OthersEffect(s.locals[c], u);
      forall w | w in s'.userCall ensures s'.userCall[w] in s'.locals && w in s'.locals[s'.userCall[w]] {
        assert s.userCall[w] in s.locals && w in s.locals[s.userCall[w]] && w != u;
      }
    }
  }

  lemma HandleIndexed(s: UserServer, e: Event)
    requires IndexOk(s) && Admissible(s, e)
    ensures IndexOk(Handle(s, e))
  {
    match e
    case UserStarts(u, to, id, token, sink) => AddIndexed(s, Handle(s, e), id, u);
    case InviteFailed(u, c) => RemoveIndexed(s, Handle(s, e), c, u);
    case UserAccepts(u, c, sink) =>
      if c in s.pending && s.pending[c].forUser == u && s.pending[c].callId in s.mgr.calls {
        AddIndexed(s, Handle(s, e), s.pending[c].callId, u);
      }
    case Connected(u, c) => AddIndexed(s, Handle(s, e), c, u);
    case UserLeaves(u, c) => RemoveIndexed(s, Handle(s, e), c, u);
    case CallEndArrives(u, c, outcome) => RemoveIndexed(s, Handle(s, e), c, u);
    case EndHandled(c) => ForgetIndexed(s, c);
    case _ =>
  }

  lemma ForgetIndexed(s: UserServer, c: CallId)
    requires IndexOk(s) && Admissible(s, EndHandled(c))
    ensures IndexOk(Handle(s, EndHandled(c)))
  {
  }

  // ── agreement ─────────────────────────────────────────────────────────

  /** Full ids tell users apart. */
  lemma FullIdInjective(s: UserServer, u: UserId, v: UserId)
    requires UsersOk(s) && u in s.users && v in s.users && FullId(s, u) == FullId(s, v)
    ensures u == v
  {
    var tail := "@" + s.domain;
    assert s.users[u] + tail == s.users[u] + "@" + s.domain;
    assert s.users[v] + tail == s.users[v] + "@" + s.domain;
    assert |s.users[u] + tail| == |s.users[v] + tail|;
    assert s.users[u] == (s.users[u] + tail)[..|s.users[u]|];
    assert s.users[v] == (s.users[v] + tail)[..|s.users[v]|];
  }

  lemma IdsAdd(s: UserServer, v: seq<UserId>, u: UserId)
    requires u in s.users
    ensures IdsOf(s, if u in v then v else v + [u]) == IdsOf(s, v) + {FullId(s, u)}
  {
  }

  lemma IdsRemove(s: UserServer, v: seq<UserId>, u: UserId)
    requires UsersOk(s) && u in s.users
    ensures IdsOf(s, Others(v, u)) == IdsOf(s, v) - {FullId(s, u)}
  {
    OthersEffect(v, u);
    forall m ensures m in IdsOf(s, Others(v, u)) <==> m in IdsOf(s, v) - {FullId(s, u)} {
      if m in IdsOf(s, Others(v, u)) {
        var w :| w in Others(v, u) && w in s.users && FullId(s, w) == m;
        if m == FullId(s, u) { FullIdInjective(s, u, w); }
      }
    }
  }

  /** Nothing that matters for call `c` changed. */
  lemma AgreesKept(s: UserServer, s': UserServer, c: CallId)
    requires Agrees(s, c) && s'.domain == s.domain && s'.users == s.users
    requires LiveRows(s'.mgr, c) == LiveRows(s.mgr, c) && c in s'.locals && s'.locals[c] == s.locals[c]
    ensures Agrees(s', c)
  {
  }

  lemma EnsureAgrees(s: UserServer, u: UserId, c: CallId, sink: SinkId, i: CallId)
    requires u in s.users && c in s.mgr.calls && i in s.mgr.calls
    requires i != c ==> Agrees(s, i)
    requires i == c ==> Agrees(s, c) || (s.mgr.calls[c].participants == [] && c !in s.locals)
    ensures Agrees(EnsureLocal(s, u, c, sink), i)
  {
    var s' := EnsureLocal(s, u, c, sink);
    if i != c {
      AgreesKept(s, s', i);
    } else {
      var v := LocalsOf(s.locals, c);
      IdsAdd(s, v, u);
      assert IdsOf(s', s'.locals[c]) == IdsOf(s, s'.locals[c]);
      if OwnRow(s, c).Some? {
        FirstRowEdit(s.mgr.calls[c].participants, s.domain, AddOne(FullId(s, u)));
      } else {
        assert Without(s.mgr.calls[c].participants, s.domain) == [];
        assert IdsOf(s, v) == {};
      }
    }
  }

  /** What agreement of one call rests on. */
  ghost predicate Ready(s: UserServer) {
    UsersOk(s) && AgreeAll(s) && OnlyDirect(s.mgr) && s.mgr.calls.Keys <= s.mgr.issued && s.links !! s.mgr.calls.Keys
  }

  lemma DepartAgrees(s: UserServer, u: UserId, c: CallId, i: CallId)
    requires Ready(s) && u in s.users && i in Depart(s, u, c).mgr.calls
    ensures Agrees(Depart(s, u, c), i)
  {
    var s' := Depart(s, u, c);
    assert Agrees(s, i);
    if i != c {
      AgreesKept(s, s', i);
    } else {
      assert LocalsOf(RemoveLocal(s.locals, c, u), c) != [];
      StayAgrees(s, u, c);
    }
  }

  /** One of several local members leaves. */
  lemma StayAgrees(s: UserServer, u: UserId, c: CallId)
    requires UsersOk(s) && u in s.users && c in s.mgr.calls && Agrees(s, c) && Others(s.locals[c], u) != []
    ensures Agrees(Depart(s, u, c), c)
  {
    var s' := Depart(s, u, c);
    StayRow(s, u, c);
    IdsRemove(s, s.locals[c], u);
    assert IdsOf(s', s'.locals[c]) == IdsOf(s, s'.locals[c]);
    WithoutMemberIs(OwnRow(s, c).value.members, FullId(s, u));
  }

  lemma StayRow(s: UserServer, u: UserId, c: CallId)
    requires u in s.users && c in s.mgr.calls && c in s.locals && Others(s.locals[c], u) != [] && OwnRow(s, c).Some?
    ensures var s' := Depart(s, u, c);
            s'.users == s.users && s'.domain == s.domain && c in s'.locals && s'.locals[c] == Others(s.locals[c], u) &&
            OwnRow(s', c) == Some(EditRow(OwnRow(s, c).value, DropOne(FullId(s, u))))
  {
    FirstRowEdit(s.mgr.calls[c].participants, s.domain, DropOne(FullId(s, u)));
  }

  lemma PeerAgrees(s: UserServer, s': UserServer, i: CallId)
    requires Agrees(s, i) && s'.domain == s.domain && s'.users == s.users && s'.locals == s.locals
    requires OwnRow(s', i) == OwnRow(s, i)
    ensures Agrees(s', i)
  {
  }

  lemma PeerJoinAgrees(s: UserServer, c: CallId, row: Participant, i: CallId)
    requires AgreeAll(s) && i in s.mgr.calls && row.domain != s.domain
    ensures Agrees(s.(mgr := StepJoin(s.mgr, c, row)), i)
  {
    assert Agrees(s, i);
    FirstRowWithout(LiveRows(s.mgr, i), row.domain, s.domain);
    FirstRowAppend(Without(LiveRows(s.mgr, i), row.domain), row, s.domain);
    PeerAgrees(s, s.(mgr := StepJoin(s.mgr, c, row)), i);
  }

  lemma PeerLeaveAgrees(s: UserServer, c: CallId, d: ServerId, i: CallId)
    requires AgreeAll(s) && d != s.domain && i in StepLeave(s.mgr, c, d).calls
    ensures Agrees(s.(mgr := StepLeave(s.mgr, c, d)), i)
  {
    assert i in s.mgr.calls && Agrees(s, i);
    FirstRowWithout(LiveRows(s.mgr, i), d, s.domain);
    PeerAgrees(s, s.(mgr := StepLeave(s.mgr, c, d)), i);
  }

  lemma HandleAgrees(s: UserServer, e: Event, i: CallId)
    requires Ready(s) && Admissible(s, e) && Undisturbed(s, e) && i in Handle(s, e).mgr.calls
    ensures Agrees(Handle(s, e), i)
  {
    if e.UserStarts? || e.UserAccepts? || e.UserLeaves? {
      UserAgrees(s, e, i);
    } else if e.PeerJoins? {
      PeerJoinAgrees(s, e.c, e.row, i);
    } else if e.PeerLeaves? {
      PeerLeaveAgrees(s, e.c, e.d, i);
    } else {
      QuietAgrees(s, e, i);
    }
  }

  lemma UserAgrees(s: UserServer, e: Event, i: CallId)
    requires Ready(s) && Admissible(s, e) && Undisturbed(s, e) && i in Handle(s, e).mgr.calls
    requires e.UserStarts? || e.UserAccepts? || e.UserLeaves?
    ensures Agrees(Handle(s, e), i)
  {
    match e
    case UserStarts(u, to, id, token, sink) => StartAgrees(s, u, to, id, token, sink, i);
    case UserAccepts(u, c, sink) => AcceptAgrees(s, u, c, sink, i);
    case UserLeaves(u, c) => DepartAgrees(s, u, c, i);
  }

  /** Events that leave the rows of every surviving call alone. */
  lemma QuietAgrees(s: UserServer, e: Event, i: CallId)
    requires Ready(s) && Admissible(s, e) && Undisturbed(s, e) && i in Handle(s, e).mgr.calls
    requires !e.UserStarts? && !e.UserAccepts? && !e.UserLeaves? && !e.PeerJoins? && !e.PeerLeaves?
    ensures Agrees(Handle(s, e), i)
  {
    assert i in s.mgr.calls && Agrees(s, i);
    AgreesKept(s, Handle(s, e), i);
  }

  lemma StartAgrees(s: UserServer, u: UserId, to: ServerId, id: CallId, token: string, sink: SinkId, i: CallId)
    requires AgreeAll(s) && Admissible(s, UserStarts(u, to, id, token, sink))
    requires i in s.mgr.calls || i == id
    ensures Agrees(EnsureLocal(s.(mgr := StepOpen(s.mgr, to, id, token)), u, id, sink), i)
  {
    var calling := s.(mgr := StepOpen(s.mgr, to, id, token));
    if i != id {
      assert Agrees(s, i);
      AgreesKept(s, calling, i);
    }
    EnsureAgrees(calling, u, id, sink, i);
  }

  lemma AcceptAgrees(s: UserServer, u: UserId, c: CallId, sink: SinkId, i: CallId)
    requires AgreeAll(s) && u in s.users && i in s.mgr.calls
    ensures Agrees(AcceptCall(s, u, c, sink), i)
  {
    assert Agrees(s, i);
    if c in s.pending {
      var taken, inv := s.(pending := s.pending - {c}), s.pending[c];
      AgreesKept(s, taken, i);
      if inv.forUser == u && inv.callId in s.mgr.calls {
        EnsureAgrees(taken, u, inv.callId, sink, i);
      }
    }
  }

  // ── the manager under these handlers ──────────────────────────────────

  /** What a handler does to the manager. */
  function OpsOf(s: UserServer, e: Event): seq<Op>
    requires Admissible(s, e)
  {
    match e
    case UserStarts(u, to, id, token, sink) =>
      [OpenDirect(to, id, token), Join(id, Participant(s.domain, [FullId(s, u)], [], sink))]
    case InviteFailed(_, c) => [End(c, "invite-failed")]
    case UserAccepts(u, c, sink) =>
      if c !in s.pending || s.pending[c].forUser != u || s.pending[c].callId !in s.mgr.calls then []
      else if OwnRow(s, s.pending[c].callId).Some? then [AddMember(s.pending[c].callId, s.domain, FullId(s, u))]
      else [Join(s.pending[c].callId, Participant(s.domain, [FullId(s, u)], [], sink))]
    case UserLeaves(u, c) =>
      if LocalsOf(RemoveLocal(s.locals, c, u), c) != [] then [RemoveMember(c, s.domain, FullId(s, u))]
      else if c in s.links then []
      else if c in s.mgr.calls && s.mgr.calls[c].kind.ChannelRoom? then [Leave(c, s.domain)]
      else [End(c, "hangup")]
    case CallEndArrives(_, c, outcome) => [End(c, outcome)]
    case PeerJoins(c, row) => [Join(c, row)]
    case PeerRelays(frame) => [Route(frame)]
    case PeerHangsUp(c) => [End(c, "hangup")]
    case PeerLeaves(c, d) => [Leave(c, d)]
    case _ => []
  }

  lemma RunShort(m: Manager, ops: seq<Op>)
    requires |ops| <= 2
    ensures ops == [] ==> Run(m, ops) == m
    ensures |ops| == 1 ==> Run(m, ops) == Step(m, ops[0])
    ensures |ops| == 2 ==> Run(m, ops) == Step(Step(m, ops[0]), ops[1])
    ensures ops == [] ==> Legal(m, ops)
    ensures |ops| == 1 ==> (Legal(m, ops) <==> Enabled(m, ops[0]))
    ensures |ops| == 2 ==> (Legal(m, ops) <==> Enabled(m, ops[0]) && Enabled(Step(m, ops[0]), ops[1]))
  {
    if |ops| == 1 {
      assert ops[1..] == [];
    } else if |ops| == 2 {
      var rest := ops[1..];
      assert rest[0] == ops[1] && rest[1..] == [];
      assert Run(Step(m, ops[0]), rest) == Step(Step(m, ops[0]), ops[1]);
      assert Legal(Step(m, ops[0]), rest) <==> Enabled(Step(m, ops[0]), ops[1]);
    }
  }

  predicate RunsAs(s: UserServer, e: Event)
    requires Admissible(s, e)
  {
    Legal(s.mgr, OpsOf(s, e)) && Run(s.mgr, OpsOf(s, e)) == Handle(s, e).mgr && NoMuting(OpsOf(s, e))
  }

  /** The handlers drive the manager through legal operations, and never mute anybody. */
  lemma HandleRuns(s: UserServer, e: Event)
    requires Admissible(s, e)
    ensures Legal(s.mgr, OpsOf(s, e)) && Run(s.mgr, OpsOf(s, e)) == Handle(s, e).mgr && NoMuting(OpsOf(s, e))
  {
    match e
    case UserStarts(u, to, id, token, sink) => StartRuns(s, u, to, id, token, sink);
    case UserAccepts(u, c, sink) => AcceptRuns(s, u, c, sink);
    case UserLeaves(u, c) => DepartRuns(s, u, c);
    case _ => PlainRuns(s, e);
  }

  lemma StartRuns(s: UserServer, u: UserId, to: ServerId, id: CallId, token: string, sink: SinkId)
    requires Admissible(s, UserStarts(u, to, id, token, sink))
    ensures RunsAs(s, UserStarts(u, to, id, token, sink))
  {
    var open, join := OpenDirect(to, id, token), Join(id, Participant(s.domain, [FullId(s, u)], [], sink));
    RunShort(s.mgr, [open, join]);
    assert StepOpen(s.mgr, to, id, token).calls[id].participants == [];
  }

  lemma AcceptRuns(s: UserServer, u: UserId, c: CallId, sink: SinkId)
    requires Admissible(s, UserAccepts(u, c, sink))
    ensures RunsAs(s, UserAccepts(u, c, sink))
  {
    RunShort(s.mgr, OpsOf(s, UserAccepts(u, c, sink)));
  }

  lemma DepartRuns(s: UserServer, u: UserId, c: CallId)
    requires Admissible(s, UserLeaves(u, c))
    ensures RunsAs(s, UserLeaves(u, c))
  {
    RunShort(s.mgr, OpsOf(s, UserLeaves(u, c)));
  }

  lemma PlainRuns(s: UserServer, e: Event)
    requires Admissible(s, e) && !e.UserStarts? && !e.UserAccepts? && !e.UserLeaves?
    ensures RunsAs(s, e)
  {
    var ops := OpsOf(s, e);
    RunShort(s.mgr, ops);
    assert Handle(s, e).mgr == if ops == [] then s.mgr else Step(s.mgr, ops[0]);
  }

  lemma HandleKinds(s: UserServer, e: Event)
    requires OnlyDirect(s.mgr) && Admissible(s, e)
    ensures OnlyDirect(Handle(s, e).mgr)
  {
    var ops := OpsOf(s, e);
    HandleRuns(s, e);
    RunShort(s.mgr, ops);
    if ops != [] { DirectKept(s.mgr, ops[0]); }
    if |ops| == 2 { DirectKept(Step(s.mgr, ops[0]), ops[1]); }
  }

  /** Only asking for a room makes one. */
  lemma DirectKept(m: Manager, op: Op)
    requires OnlyDirect(m) && !op.GetRoom?
    ensures OnlyDirect(Step(m, op))
  {
  }

  lemma HandleLinks(s: UserServer, e: Event)
    requires s.links !! s.mgr.calls.Keys && Admissible(s, e) && Undisturbed(s, e)
    ensures Handle(s, e).links !! Handle(s, e).mgr.calls.Keys
  {
    HandleCalls(s, e);
    assert Handle(s, e).links <= s.links + if e.Connected? then {e.c} else {};
  }

  /** A call is new only when a local user starts one. */
  lemma HandleCalls(s: UserServer, e: Event)
    requires Admissible(s, e)
    ensures Handle(s, e).mgr.calls.Keys <= s.mgr.calls.Keys + if e.UserStarts? then {e.id} else {}
  {
    match e
    case UserStarts(u, to, id, token, sink) => EnsureCalls(s.(mgr := StepOpen(s.mgr, to, id, token)), u, id, sink);
    case UserAccepts(u, c, sink) =>
      if c in s.pending { EnsureCalls(s.(pending := s.pending - {c}), u, s.pending[c].callId, sink); }
    case UserLeaves(u, c) => DepartCalls(s, u, c);
    case _ =>
  }

  lemma DepartCalls(s: UserServer, u: UserId, c: CallId)
    requires u in s.users
    ensures Depart(s, u, c).mgr.calls.Keys <= s.mgr.calls.Keys
  {
  }

  lemma EnsureCalls(s: UserServer, u: UserId, c: CallId, sink: SinkId)
    requires u in s.users
    ensures EnsureLocal(s, u, c, sink).mgr.calls.Keys == s.mgr.calls.Keys
  {
  }

  // ── every run ─────────────────────────────────────────────────────────

  lemma HandleSound(s: UserServer, e: Event)
    requires Sound(s.mgr) && Admissible(s, e)
    ensures Sound(Handle(s, e).mgr)
  {
    HandleRuns(s, e);
    RunSound(s.mgr, OpsOf(s, e));
  }

  lemma HandleAllAgree(s: UserServer, e: Event)
    requires Ready(s) && Admissible(s, e) && Undisturbed(s, e)
    ensures AgreeAll(Handle(s, e))
  {
    forall i | i in Handle(s, e).mgr.calls ensures Agrees(Handle(s, e), i) { HandleAgrees(s, e, i); }
  }

  lemma InvReady(s: UserServer)
    requires Inv(s)
    ensures Ready(s)
  {
  }

  lemma HandleUsers(s: UserServer, e: Event)
    requires Admissible(s, e)
    ensures Handle(s, e).users == s.users && Handle(s, e).domain == s.domain
  {
  }

  lemma HandleBase(s: UserServer, e: Event)
    requires Base(s) && Admissible(s, e)
    ensures Base(Handle(s, e))
  {
    HandleSound(s, e);
    HandleIndexed(s, e);
    HandleKinds(s, e);
    HandleUsers(s, e);
  }

  lemma HandleInv(s: UserServer, e: Event)
    requires Inv(s) && Admissible(s, e) && Undisturbed(s, e)
    ensures Inv(Handle(s, e))
  {
    InvReady(s);
    HandleBase(s, e);
    HandleLinks(s, e);
    HandleAllAgree(s, e);
  }

  // ── exactly when it holds ─────────────────────────────────────────────

  /** Taking up a link, or handling the end of a call. */
  lemma LinksExact(s: UserServer, e: Event)
    requires Inv(s) && Admissible(s, e) && (e.Connected? || e.EndHandled?)
    ensures Agreement(Handle(s, e)) <==> e.c !in s.mgr.calls
  {
    if e.c !in s.mgr.calls {
      HandleInv(s, e);
    } else if e.Connected? {
      assert e.c in Handle(s, e).links;
    } else {
      assert !Agrees(Handle(s, e), e.c);
    }
  }

  lemma FirstRowGone(ps: seq<Participant>, d: ServerId)
    ensures FirstRow(Without(ps, d), d).None?
  {
    WithoutEffect(ps, d);
    FirstRowEffect(Without(ps, d), d);
  }

  /** A peer that attaches under this server's own name replaces its row. */
  lemma OwnJoinExact(s: UserServer, c: CallId, row: Participant)
    requires Inv(s) && Admissible(s, PeerJoins(c, row)) && row.domain == s.domain && c in s.mgr.calls
    ensures Agreement(Handle(s, PeerJoins(c, row))) <==> MemberSet(row) == IdsOf(s, LocalsOf(s.locals, c))
  {
    var s' := Handle(s, PeerJoins(c, row));
    OwnJoinRow(s, c, row);
    assert s'.mgr.calls.Keys == s.mgr.calls.Keys;
    forall i | i in s'.mgr.calls && i != c ensures Agrees(s', i) {
      assert Agrees(s, i);
      AgreesKept(s, s', i);
    }
    assert Agrees(s, c);
    assert IdsOf(s', s'.locals[c]) == IdsOf(s, s.locals[c]);
    assert Agrees(s', c) <==> MemberSet(row) == IdsOf(s, LocalsOf(s.locals, c));
  }

  lemma OwnJoinRow(s: UserServer, c: CallId, row: Participant)
    requires row.domain == s.domain && c in s.mgr.calls
    ensures OwnRow(s.(mgr := StepJoin(s.mgr, c, row)), c) == Some(row)
  {
    var kept := Without(s.mgr.calls[c].participants, s.domain);
    FirstRowGone(s.mgr.calls[c].participants, s.domain);
    FirstRowAppend(kept, row, s.domain);
  }

  /** A peer that detaches under this server's own name takes its row away. */
  lemma OwnLeaveExact(s: UserServer, c: CallId)
    requires Inv(s) && c in s.mgr.calls
    ensures Agreement(Handle(s, PeerLeaves(c, s.domain))) <==> Without(s.mgr.calls[c].participants, s.domain) == []
  {
    var s' := Handle(s, PeerLeaves(c, s.domain));
    assert Agrees(s, c);
    OwnLeaveRow(s, c);
    forall i | i in s'.mgr.calls && i != c ensures Agrees(s', i) { OwnLeaveOthers(s, c, i); }
    assert c in s'.mgr.calls ==> !Agrees(s', c);
  }

  lemma OwnLeaveOthers(s: UserServer, c: CallId, i: CallId)
    requires AgreeAll(s) && i != c && i in s.mgr.calls
    ensures Agrees(s.(mgr := StepLeave(s.mgr, c, s.domain)), i)
  {
    assert Agrees(s, i);
    AgreesKept(s, s.(mgr := StepLeave(s.mgr, c, s.domain)), i);
  }

  lemma OwnLeaveRow(s: UserServer, c: CallId)
    requires OnlyDirect(s.mgr) && c in s.mgr.calls && OwnRow(s, c).Some?
    ensures var m := StepLeave(s.mgr, c, s.domain);
            m.calls.Keys == s.mgr.calls.Keys - (if Without(s.mgr.calls[c].participants, s.domain) == [] then {c} else {}) &&
            OwnRow(s.(mgr := m), c).None?
  {
    FirstRowEffect(s.mgr.calls[c].participants, s.domain);
    WithoutEffect(s.mgr.calls[c].participants, s.domain);
    FirstRowGone(s.mgr.calls[c].participants, s.domain);
  }

  /** Exactly what an event must not do. */
  predicate Harmless(s: UserServer, e: Event) {
    match e
    case Connected(_, c) => c !in s.mgr.calls
    case EndHandled(c) => c !in s.mgr.calls
    case PeerJoins(c, row) => row.domain == s.domain && c in s.mgr.calls ==> MemberSet(row) == IdsOf(s, LocalsOf(s.locals, c))
    case PeerLeaves(c, d) => d == s.domain && c in s.mgr.calls ==> Without(s.mgr.calls[c].participants, d) == []
    case _ => true
  }

  /** An event keeps agreement if and only if it is harmless. */
  lemma HandleExact(s: UserServer, e: Event)
    requires Inv(s) && Admissible(s, e)
    ensures Agreement(Handle(s, e)) <==> Harmless(s, e)
  {
    if e.Connected? || e.EndHandled? {
      LinksExact(s, e);
    } else if e.PeerJoins? && e.row.domain == s.domain {
      if e.c in s.mgr.calls { OwnJoinExact(s, e.c, e.row); }
    } else if e.PeerLeaves? && e.d == s.domain {
      if e.c in s.mgr.calls { OwnLeaveExact(s, e.c); }
    } else {
      HandleInv(s, e);
    }
  }

  predicate AllHarmless(s: UserServer, es: seq<Event>)
    requires Lawful(s, es)
    decreases |es|
  {
    es == [] || (Harmless(s, es[0]) && AllHarmless(Handle(s, es[0]), es[1..]))
  }

  ghost predicate AgreementThroughout(s: UserServer, es: seq<Event>)
    requires Lawful(s, es)
    decreases |es|
  {
    Agreement(s) && (es == [] || AgreementThroughout(Handle(s, es[0]), es[1..]))
  }

  /** A run keeps agreement throughout if and only if all its events are harmless. */
  lemma {:induction false} ReplayExact(s: UserServer, es: seq<Event>)
    requires Inv(s) && Lawful(s, es)
    ensures AgreementThroughout(s, es) <==> AllHarmless(s, es)
    ensures AllHarmless(s, es) ==> Inv(Replay(s, es))
    decreases |es|
  {
    if es != [] {
      HandleExact(s, es[0]);
      HandleBase(s, es[0]);
      if Harmless(s, es[0]) {
        ReplayExact(Handle(s, es[0]), es[1..]);
      } else {
        assert !AgreementThroughout(Handle(s, es[0]), es[1..]);
      }
    }
  }

  /**
   * Index agreement, in every run in which nobody else speaks for this server's own
   * calls: a call it manages is live only with local members, and the manager's row
   * for this server lists exactly their full ids.
   */
  lemma IndexAgreement(domain: ServerId, users: map<UserId, string>, es: seq<Event>, c: CallId)
    requires UsersOk(Boot(domain, users)) && Lawful(Boot(domain, users), es) && AllHarmless(Boot(domain, users), es)
    requires c in Replay(Boot(domain, users), es).mgr.calls
    ensures var s := Replay(Boot(domain, users), es);
            c in s.locals && OwnRow(s, c).Some? && MemberSet(OwnRow(s, c).value) == IdsOf(s, s.locals[c])
  {
    ReplayExact(Boot(domain, users), es);
    assert Agrees(Replay(Boot(domain, users), es), c);
  }

  /** A link under the id of a call of our own: the manager's row still fits only if the user was in the call before. */
  lemma ClaimedCall(s: UserServer, u: UserId, c: CallId)
    requires Inv(s) && u in s.users && c in s.mgr.calls
    ensures Agrees(Handle(s, Connected(u, c)), c) <==> u in LocalsOf(s.locals, c)
  {
    var s' := Handle(s, Connected(u, c));
    assert Agrees(s, c);
    assert IdsOf(s', s'.locals[c]) == IdsOf(s, s'.locals[c]);
    IdsAdd(s, s.locals[c], u);
    if u !in s.locals[c] && FullId(s, u) in IdsOf(s, s.locals[c]) {
      var v :| v in s.locals[c] && v in s.users && FullId(s, v) == FullId(s, u);
      FullIdInjective(s, u, v);
    }
  }

  /**
   * `join_room` takes a link under whatever id the channel server answers. Answered
   * the id of a call that a local user just started, it lists a local member of whom
   * the manager's row knows nothing.
   */
  lemma ClaimedCallRun(domain: ServerId, users: map<UserId, string>, u: UserId, v: UserId,
                       to: ServerId, id: CallId, token: string, sink: SinkId)
    requires UsersOk(Boot(domain, users)) && u in users && v in users && u != v
    ensures var es := [UserStarts(u, to, id, token, sink), Connected(v, id)];
            Lawful(Boot(domain, users), es) && id in Replay(Boot(domain, users), es).mgr.calls &&
            v in LocalsOf(Replay(Boot(domain, users), es).locals, id) && !Agrees(Replay(Boot(domain, users), es), id)
  {
    var s := Boot(domain, users);
    var start := UserStarts(u, to, id, token, sink);
    StartedCall(s, u, to, id, token, sink);
    ClaimedCall(Handle(s, start), v, id);
    ReplayTwo(s, start, Connected(v, id));
  }

  lemma ReplayTwo(s: UserServer, e: Event, f: Event)
    requires Admissible(s, e) && Admissible(Handle(s, e), f)
    ensures Lawful(s, [e, f]) && Replay(s, [e, f]) == Handle(Handle(s, e), f)
  {
    ReplayOne(Handle(s, e), f);
    assert [e, f][1..] == [f];
  }

  lemma ReplayOne(s: UserServer, e: Event)
    requires Admissible(s, e)
    ensures Lawful(s, [e]) && Replay(s, [e]) == Handle(s, e)
  {
    var none: seq<Event> := [e][1..];
    assert none == [] && Lawful(Handle(s, e), none) && Replay(Handle(s, e), none) == Handle(s, e);
  }

  lemma StartedCall(s: UserServer, u: UserId, to: ServerId, id: CallId, token: string, sink: SinkId)
    requires s.mgr == Init && s.locals == map[] && s.userCall == map[] && s.links == {} && UsersOk(s) && u in s.users
    ensures var e := UserStarts(u, to, id, token, sink);
            Admissible(s, e) && Inv(Handle(s, e)) && id in Handle(s, e).mgr.calls && LocalsOf(Handle(s, e).locals, id) == [u]
  {
    HandleInv(s, UserStarts(u, to, id, token, sink));
  }

  // ── what nothing disturbs ─────────────────────────────────────────────

  lemma {:induction false} ReplayIndexed(s: UserServer, es: seq<Event>)
    requires IndexOk(s) && Lawful(s, es)
    ensures IndexOk(Replay(s, es))
    decreases |es|
  {
    if es != [] {
      HandleIndexed(s, es[0]);
      ReplayIndexed(Handle(s, es[0]), es[1..]);
    }
  }

  /** In every run, member lists stay non-empty and duplicate-free, and a user's current call lists the user. */
  lemma IndexConsistent(domain: ServerId, users: map<UserId, string>, es: seq<Event>, c: CallId, u: UserId)
    requires Lawful(Boot(domain, users), es)
    ensures var s := Replay(Boot(domain, users), es);
            (c in s.locals ==> s.locals[c] != [] && Sequences.Distinct(s.locals[c])) &&
            (u in s.userCall ==> s.userCall[u] in s.locals && u in s.locals[s.userCall[u]])
  {
    ReplayIndexed(Boot(domain, users), es);
  }

  /**
   * Muting never takes effect: a mute frame is only ever handed to `route`, which
   * delivers nothing without a target, so no roster and no server ever learns of it.
   */
  lemma {:induction false} MuteHasNoEffect(s: UserServer, es: seq<Event>)
    requires Sound(s.mgr) && Unmuted(s.mgr) && Lawful(s, es)
    requires forall i :: 0 <= i < |es| && es[i].PeerJoins? ==> es[i].row.muted == []
    ensures Unmuted(Replay(s, es).mgr)
    ensures forall c, u, on :: Handle(s, PeerRelays(Mute(c, u, on))) == s
    decreases |es|
  {
    forall c, u, on ensures Handle(s, PeerRelays(Mute(c, u, on))) == s { MuteDropped(s, c, u, on); }
    if es != [] {
      HandleUnmuted(s, es[0]);
      MuteHasNoEffect(Handle(s, es[0]), es[1..]);
    }
  }

  lemma MuteDropped(s: UserServer, c: CallId, u: ParticipantId, on: bool)
    ensures Handle(s, PeerRelays(Mute(c, u, on))) == s
  {
  }

  lemma HandleUnmuted(s: UserServer, e: Event)
    requires Sound(s.mgr) && Unmuted(s.mgr) && Admissible(s, e) && (e.PeerJoins? ==> e.row.muted == [])
    ensures Sound(Handle(s, e).mgr) && Unmuted(Handle(s, e).mgr)
  {
    HandleSound(s, e);
    HandleRuns(s, e);
    NeverMuted(s.mgr, OpsOf(s, e));
  }
}
