// Mesh formation: no pair of servers ever exchanges two offers, the smaller
// domain dials, and once every frame is handled the mesh is full
// (crates/userserver/src/call/engine.rs).

module MeshFormation {
  import opened Options
  import opened Signal
  import opened ManagerSpec
  import opened CallRuns
  import opened MeshSpec
  import opened MeshPairs

  // ── every run ─────────────────────────────────────────────────────────

  lemma NextRows(net: Net, e: Event)
    requires RowsDistinct(net.mgr) && RowsOk(net) && Possible(net, e)
    ensures RowsOk(Next(net, e))
  {
    match e
    case Attach(d, members, sink) => AttachRows(net, d, members, sink);
    case Manage(op) => ManageRows(net, op);
    case Forward(d) => ForwardRows(net, d);
    case Receive(d, ok, sdp) => ReplaceRows(net, d, ReceiveFrame(net, d, ok, sdp).nodes[d]);
    case Dial(d, ok, sdp) => ReplaceRows(net, d, DialNext(net, d, ok, sdp).nodes[d]);
    case Trickle(d, to, candidate) => ReplaceRows(net, d, TrickleIce(net, d, to, candidate).nodes[d]);
  }

  lemma ForwardRows(net: Net, d: ServerId)
    requires RowsOk(net) && d in net.nodes && net.nodes[d].sent < |net.nodes[d].out|
    ensures RowsOk(ForwardFrame(net, d))
  {
    ReplaceRows(net, d, net.nodes[d].(sent := net.nodes[d].sent + 1));
    RouteRows(SetNode(net, d, net.nodes[d].(sent := net.nodes[d].sent + 1)), net.nodes[d].out[net.nodes[d].sent]);
  }

  /** What the manager does in an event, if anything. */
  function ManagerOp(net: Net, e: Event): Option<Op>
    requires Possible(net, e)
  {
    match e
    case Attach(d, members, sink) => Some(Join(net.cid, Participant(d, members, [], sink)))
    case Forward(d) => Some(Route(net.nodes[d].out[net.nodes[d].sent]))
    case Manage(op) => Some(op)
    case _ => None
  }

  lemma NextManager(net: Net, e: Event)
    requires Possible(net, e)
    ensures Next(net, e).mgr == if ManagerOp(net, e).Some? then Step(net.mgr, ManagerOp(net, e).value) else net.mgr
    ensures ManagerOp(net, e).Some? ==> Enabled(net.mgr, ManagerOp(net, e).value)
  {
  }

  lemma NextKeepsManager(net: Net, e: Event)
    requires Sound(net.mgr) && Converged(net.mgr, false) && Possible(net, e)
    ensures Sound(Next(net, e).mgr) && Converged(Next(net, e).mgr, false)
  {
    NextManager(net, e);
    if ManagerOp(net, e).Some? {
      StepSound(net.mgr, ManagerOp(net, e).value);
      StepConverged(net.mgr, ManagerOp(net, e).value, false);
    }
  }

  lemma RouteRows(net: Net, f: SignalMsg)
    requires RowsOk(net)
    ensures RowsOk(net.(mgr := StepRoute(net.mgr, f)))
  {
  }

  lemma NextKeepsServers(net: Net, e: Event, clean: bool)
    requires Sound(net.mgr) && RowsOk(net) && ServersOk(net, clean) && Possible(net, e)
    requires clean && (e.Receive? || e.Dial?) ==> e.ok
    ensures ServersOk(Next(net, e), clean)
  {
    match e
    case Attach(d, members, sink) =>
      AttachAdmits(net, d, members, sink);
      AdmitKeeps(net, AttachServer(net, d, members, sink), d,
                 SentJoin(net.mgr, net.cid, Participant(d, members, [], sink), sink), clean);
    case Receive(d, ok, sdp) => ReceiveKeeps(net, d, ok, sdp, clean);
    case Dial(d, ok, sdp) => DialKeeps(net, d, ok, sdp, clean);
    case Trickle(d, to, candidate) => TrickleKeeps(net, d, to, candidate, clean);
    case Forward(d) =>
      ForwardMoves(net, d);
      ForwardKeeps(net, ForwardFrame(net, d), d, net.nodes[d].out[net.nodes[d].sent], clean);
    case Manage(op) => ManageKeeps(net, op, clean);
  }

  lemma {:induction false} PlayKeeps(net: Net, es: seq<Event>, clean: bool)
    requires Inv(net, clean) && (clean ==> Clean(es))
    ensures Inv(Play(net, es), clean)
    decreases |es|
  {
    if es != [] {
      if Possible(net, es[0]) {
        NextKeepsManager(net, es[0]);
        NextRows(net, es[0]);
        NextKeepsServers(net, es[0], clean);
      }
      PlayKeeps(Next(net, es[0]), es[1..], clean);
    }
  }

  /** Every frame a server submits reaches the server it is for, unchanged, and no other. */
  lemma FrameArrives(net: Net, d: ServerId, e: ServerId)
    requires RowsDistinct(net.mgr) && RowsOk(net) && NodesOk(net) && d in net.nodes && e in net.nodes && Possible(net, Forward(d))
    ensures var f := net.nodes[d].out[net.nodes[d].sent];
            (f.Sdp? || f.Ice?) && Inbox(Next(net, Forward(d)), e) == Inbox(net, e) + if f.to == e then [f] else []
  {
    var f := net.nodes[d].out[net.nodes[d].sent];
    assert ServerOk(net, d) && OutOk(net.cid, net.nodes.Keys, d, f);
    RouteLog(net.mgr, f, net.nodes[e].sink);
    RouteReaches(net, f, e);
  }

  /** A candidate found by a server that has nothing else to submit is at the other server one step later. */
  lemma CandidateArrives(net: Net, d: ServerId, to: ServerId, candidate: string, e: ServerId)
    requires RowsDistinct(net.mgr) && RowsOk(net) && NodesOk(net) && d in net.nodes && e in net.nodes
    requires net.nodes[d].sent == |net.nodes[d].out|
    ensures Inbox(Next(Next(net, Trickle(d, to, candidate)), Forward(d)), e)
            == Inbox(net, e) + if e == to then [Ice(net.cid, d, to, candidate)] else []
  {
    var f, found := Ice(net.cid, d, to, candidate), TrickleIce(net, d, to, candidate);
    assert Next(net, Trickle(d, to, candidate)) == found && Possible(found, Forward(d));
    OneForwarded(net, found, d, f, e);
  }

  lemma OneForwarded(net: Net, found: Net, d: ServerId, f: SignalMsg, e: ServerId)
    requires RowsDistinct(net.mgr) && RowsOk(net) && d in net.nodes && e in net.nodes && (f.Sdp? || f.Ice?) && f.callId == net.cid
    requires found == SetNode(net, d, net.nodes[d].(out := net.nodes[d].out + [f])) && net.nodes[d].sent == |net.nodes[d].out|
    ensures Inbox(ForwardFrame(found, d), e) == Inbox(net, e) + if f.to == e then [f] else []
  {
    RouteLog(net.mgr, f, net.nodes[e].sink);
    RouteReaches(net, f, e);
  }

  /** A call nobody has joined yet, at a manager in any reachable state. */
  ghost predicate Start(net: Net) {
    Sound(net.mgr) && Converged(net.mgr, false) && net.cid in net.mgr.calls &&
    net.mgr.calls[net.cid].participants == [] && net.nodes == map[]
  }

  /** Offers and answers one server has submitted for another. */
  function Submitted(net: Net, from: ServerId, to: ServerId, answer: bool): nat {
    if from in net.nodes then Sdps(net.nodes[from].out, |net.nodes[from].out|, from, to, answer) else 0
  }

  /** Offers and answers from one server that another has handled. */
  function Handled(net: Net, from: ServerId, to: ServerId, answer: bool): nat {
    if to in net.nodes then Sdps(Inbox(net, to), net.nodes[to].cursor, from, to, answer) else 0
  }

  /**
   * Safety, under any interleaving of joins, dials, failures, deliveries and whatever
   * else the manager does: two servers never both offer, the smaller domain offers at most
   * once, nobody dials itself, and every answer follows an offer it answers.
   */
  lemma MeshSafety(net: Net, es: seq<Event>, a: ServerId, b: ServerId)
    requires Start(net) && a in Play(net, es).nodes && b in Play(net, es).nodes
    ensures var n := Play(net, es);
            Submitted(n, a, b, false) <= (if LexLess(a, b) then 1 else 0) &&
            Submitted(n, a, b, false) + Submitted(n, b, a, false) <= 1 &&
            Submitted(n, b, a, true) <= Handled(n, a, b, false) <= Submitted(n, a, b, false)
  {
    PlayKeeps(net, es, false);
    LexTrichotomy(a, b);
    if a != b {
      PairSafe(Play(net, es), a, b);
      PairSafe(Play(net, es), b, a);
    } else {
      SelfSilent(Play(net, es), a);
    }
  }

  lemma PairSafe(n: Net, a: ServerId, b: ServerId)
    requires PairsOk(n, false) && a in n.nodes && b in n.nodes && a != b
    ensures Submitted(n, a, b, false) <= (if LexLess(a, b) then 1 else 0)
    ensures Submitted(n, b, a, true) <= Handled(n, a, b, false) <= Submitted(n, a, b, false)
  {
    assert PairOk(n, a, b, false);
    SdpsMonotone(Inbox(n, b), n.nodes[b].cursor, |Inbox(n, b)|, a, b, false);
    SdpsMonotone(n.nodes[a].out, n.nodes[a].sent, |n.nodes[a].out|, a, b, false);
  }

  lemma SelfSilent(n: Net, a: ServerId)
    requires NodesOk(n) && a in n.nodes
    ensures Submitted(n, a, a, false) == 0 && Submitted(n, a, a, true) == 0 && Handled(n, a, a, false) == 0
  {
    assert ServerOk(n, a);
    var out, inbox := n.nodes[a].out, Inbox(n, a);
    assert forall k :: 0 <= k < |out| ==> OutOk(n.cid, n.nodes.Keys, a, out[k]);
    assert forall k :: 0 <= k < |inbox| ==> InOk(n.nodes.Keys, a, inbox[k]);
    NothingSent(out, a, a, false);
    NothingSent(out, a, a, true);
    NothingSent(inbox, a, a, false);
    SdpsMonotone(inbox, n.nodes[a].cursor, |inbox|, a, a, false);
  }

  lemma {:induction false} LastRosterAt(log: seq<SignalMsg>) returns (k: nat)
    requires LastRoster(log).Some?
    ensures k < |log| && log[k].Roster? && log[k].participants == LastRoster(log).value
  {
    if log[|log| - 1].Roster? {
      k := |log| - 1;
    } else {
      k := LastRosterAt(log[..|log| - 1]);
    }
  }

  /** When every frame has been handled, the smaller of two servers has dialled the larger. */
  lemma DrainedDials(n: Net, a: ServerId, b: ServerId)
    requires Inv(n, true) && Drained(n) && a in n.nodes && b in n.nodes && LexLess(a, b)
    ensures b in n.nodes[a].mesh
  {
    var ps := n.mgr.calls[n.cid].participants;
    assert RowOf(n, a) && WalkOk(n, a);
    var p :| Attached(n.mgr, n.cid, p) && p.domain == a && p.sink == n.nodes[a].sink;
    assert LastRoster(Inbox(n, a)).Some? && Agrees(LastRoster(Inbox(n, a)).value, ps, false);
    var k := LastRosterAt(Inbox(n, a));
    assert b in Domains(ps);
    var i :| 0 <= i < |ps| && ps[i].domain == b;
    assert Inbox(n, a)[k].participants[i].server == b;
    assert DialledOrDue(a, n.nodes[a], b);
  }

  /**
   * Completeness: if no connection failed and every frame has been handled, every
   * server holds an entry for every other, after exactly one offer from the
   * smaller domain and exactly one answer to it, both of which were handled.
   */
  lemma MeshComplete(net: Net, es: seq<Event>, a: ServerId, b: ServerId)
    requires Start(net) && Clean(es) && Drained(Play(net, es))
    requires a in Play(net, es).nodes && b in Play(net, es).nodes && LexLess(a, b)
    ensures var n := Play(net, es);
            b in n.nodes[a].mesh && a in n.nodes[b].mesh &&
            Submitted(n, a, b, false) == Handled(n, a, b, false) == 1 &&
            Submitted(n, b, a, true) == Handled(n, b, a, true) == 1
  {
    PlayKeeps(net, es, true);
    var n := Play(net, es);
    LexTrichotomy(a, b);
    DrainedDials(n, a, b);
    assert PairOk(n, a, b, true) && PairOk(n, b, a, true);
  }
}
