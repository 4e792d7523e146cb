// The mesh always settles: handling what is in flight is finite work, and from
// every reachable state it leads to a full mesh (crates/userserver/src/call/engine.rs).

module MeshProgress {
  import opened Options
  import opened Signal
  import opened ManagerSpec
  import opened CallRuns
  import opened MeshSpec
  import opened MeshPairs
  import opened MeshFormation

  // ── work in flight ────────────────────────────────────────────────────

  /** The events still to come because of a frame in an inbox: its handling, and what that sets off. */
  function FrameWork(f: SignalMsg): nat {
    match f
    case Roster(_, entries) => 1 + 5 * |entries|
    case Sdp(_, _, _, _, false) => 3
    case _ => 1
  }

  /** The same for the frames of a log from position `k` on; a submitted frame has yet to be forwarded. */
  function LogWork(log: seq<SignalMsg>, k: nat, submitted: bool): nat
    decreases |log| - k
  {
    if k >= |log| then 0 else FrameWork(log[k]) + (if submitted then 1 else 0) + LogWork(log, k + 1, submitted)
  }

  function NodeWork(n: Node, inbox: seq<SignalMsg>): nat {
    LogWork(inbox, n.cursor, false) + 5 * |n.todo| + LogWork(n.out, n.sent, true)
  }

  function WorkAt(net: Net, d: ServerId): nat { if d in net.nodes then NodeWork(net.nodes[d], Inbox(net, d)) else 0 }

  /** All work in flight at the servers `ds`. */
  function Work(net: Net, ds: seq<ServerId>): nat { if ds == [] then 0 else WorkAt(net, ds[0]) + Work(net, ds[1..]) }

  lemma {:induction false} LogWorkPush(log: seq<SignalMsg>, f: SignalMsg, k: nat, submitted: bool)
    requires k <= |log|
    ensures LogWork(log + [f], k, submitted) == LogWork(log, k, submitted) + FrameWork(f) + if submitted then 1 else 0
    decreases |log| - k
  {
    if k < |log| { LogWorkPush(log, f, k + 1, submitted); }
  }

  /** Only the work at one server changes. */
  lemma {:induction false} WorkElsewhere(net: Net, net': Net, ds: seq<ServerId>, d: ServerId)
    requires NoRepeats(ds) && forall e :: e in ds && e != d ==> WorkAt(net', e) == WorkAt(net, e)
    ensures Work(net', ds) == Work(net, ds) + if d in ds then WorkAt(net', d) - WorkAt(net, d) else 0
  {
    if ds != [] {
      WorkElsewhere(net, net', ds[1..], d);
      assert d in ds <==> d == ds[0] || d in ds[1..];
    }
  }

  predicate NoRepeats(ds: seq<ServerId>) { ds == [] || (ds[0] !in ds[1..] && NoRepeats(ds[1..])) }

  // ── every handled event is progress ───────────────────────────────────

  /** Events that handle something in flight, as opposed to bringing something new. */
  predicate Handles(e: Event) { e.Receive? || e.Dial? || e.Forward? }

  lemma ReceiveLighter(cid: CallId, d: ServerId, n: Node, inbox: seq<SignalMsg>, ok: bool, sdp: string)
    requires n.cursor < |inbox| && n.todo == [] && n.sent <= |n.out|
    ensures NodeWork(HandleFrame(cid, d, n.(cursor := n.cursor + 1), inbox[n.cursor], ok, sdp), inbox) < NodeWork(n, inbox)
  {
    var f := inbox[n.cursor];
    if f.Sdp? && !f.answer { LogWorkPush(n.out, Sdp(cid, d, f.from, sdp, true), n.sent, true); }
  }

  lemma DialLighter(cid: CallId, d: ServerId, n: Node, inbox: seq<SignalMsg>, ok: bool, sdp: string)
    requires n.todo != [] && n.sent <= |n.out|
    ensures NodeWork(DialPeer(cid, d, n.(todo := n.todo[1..]), n.todo[0], ok, sdp), inbox) < NodeWork(n, inbox)
  {
    LogWorkPush(n.out, Sdp(cid, d, n.todo[0], sdp, false), n.sent, true);
  }

  /** A routed frame lands, if at all, at the server it names. */
  lemma ReachesTarget(net: Net, f: SignalMsg, e: ServerId)
    requires RowsDistinct(net.mgr) && RowsOk(net) && e in net.nodes && FrameCall(f) == Some(net.cid)
    requires Reaches(net.mgr, f, net.nodes[e].sink)
    ensures RouteTarget(f) == Some(e)
  {
    var ps := net.mgr.calls[net.cid].participants;
    assert RowOf(net, e);
    var p :| p in ps && p.domain == e && p.sink == net.nodes[e].sink;
    var q :| q in ps && q.domain == RouteTarget(f).value && q.sink == net.nodes[e].sink;
    SameSink(ps, p, q);
  }

  /** What routing adds to one inbox. */
  lemma RouteAdds(net: Net, f: SignalMsg, e: ServerId)
    requires RowsDistinct(net.mgr) && RowsOk(net) && NodesOk(net) && e in net.nodes && FrameCall(f) == Some(net.cid)
    ensures var net' := net.(mgr := StepRoute(net.mgr, f));
            WorkAt(net', e) <= WorkAt(net, e) + if RouteTarget(f) == Some(e) then FrameWork(f) else 0
  {
    assert ServerOk(net, e);
    RouteLog(net.mgr, f, net.nodes[e].sink);
    if Reaches(net.mgr, f, net.nodes[e].sink) {
      ReachesTarget(net, f, e);
      LogWorkPush(Inbox(net, e), f, net.nodes[e].cursor, false);
    } else {
      assert Inbox(net, e) + [] == Inbox(net, e);
    }
  }

  lemma {:induction false} RouteWork(net: Net, f: SignalMsg, ds: seq<ServerId>)
    requires RowsDistinct(net.mgr) && RowsOk(net) && NodesOk(net) && FrameCall(f) == Some(net.cid) && NoRepeats(ds)
    ensures Work(net.(mgr := StepRoute(net.mgr, f)), ds) <=
              Work(net, ds) + if RouteTarget(f).Some? && RouteTarget(f).value in ds then FrameWork(f) else 0
  {
    if ds != [] {
      if ds[0] in net.nodes { RouteAdds(net, f, ds[0]); }
      RouteWork(net, f, ds[1..]);
    }
  }

  /** The manager has taken the next frame off `d`'s link. */
  function Taken(net: Net, d: ServerId): Net
    requires d in net.nodes
  {
    SetNode(net, d, net.nodes[d].(sent := net.nodes[d].sent + 1))
  }

  lemma TakenOk(net: Net, d: ServerId)
    requires RowsOk(net) && NodesOk(net) && d in net.nodes && net.nodes[d].sent < |net.nodes[d].out|
    ensures RowsOk(Taken(net, d)) && NodesOk(Taken(net, d))
  {
    ReplaceRows(net, d, net.nodes[d].(sent := net.nodes[d].sent + 1));
    forall e | e in net.nodes ensures ServerOk(Taken(net, d), e) {
      assert ServerOk(net, e);
      TakenServer(net, d, e);
    }
  }

  lemma TakenServer(net: Net, d: ServerId, e: ServerId)
    requires d in net.nodes && net.nodes[d].sent < |net.nodes[d].out| && ServerOk(net, e)
    ensures ServerOk(Taken(net, d), e)
  {
    assert Taken(net, d).nodes.Keys == net.nodes.Keys && Inbox(Taken(net, d), e) == Inbox(net, e);
  }

  lemma TakenWork(net: Net, d: ServerId, ds: seq<ServerId>)
    requires NoRepeats(ds) && d in ds && d in net.nodes && net.nodes[d].sent < |net.nodes[d].out|
    ensures Work(Taken(net, d), ds) == Work(net, ds) - FrameWork(net.nodes[d].out[net.nodes[d].sent]) - 1
  {
    WorkElsewhere(net, Taken(net, d), ds, d);
  }

  lemma ForwardLighter(net: Net, d: ServerId, ds: seq<ServerId>)
    requires RowsDistinct(net.mgr) && RowsOk(net) && NodesOk(net) && NoRepeats(ds) && d in ds
    requires d in net.nodes && net.nodes[d].sent < |net.nodes[d].out|
    ensures Work(ForwardFrame(net, d), ds) < Work(net, ds)
  {
    var f := net.nodes[d].out[net.nodes[d].sent];
    assert FrameCall(f) == Some(net.cid) by { assert ServerOk(net, d) && OutOk(net.cid, net.nodes.Keys, d, f); }
    TakenOk(net, d);
    TakenWork(net, d, ds);
    RouteWork(Taken(net, d), f, ds);
  }

  lemma ReceiveProgress(net: Net, d: ServerId, ok: bool, sdp: string, ds: seq<ServerId>)
    requires ServerOk(net, d) && net.nodes[d].cursor < |Inbox(net, d)| && net.nodes[d].todo == [] && NoRepeats(ds) && d in ds
    ensures Work(ReceiveFrame(net, d, ok, sdp), ds) < Work(net, ds)
  {
    ReceiveLighter(net.cid, d, net.nodes[d], Inbox(net, d), ok, sdp);
    WorkElsewhere(net, ReceiveFrame(net, d, ok, sdp), ds, d);
  }

  lemma DialProgress(net: Net, d: ServerId, ok: bool, sdp: string, ds: seq<ServerId>)
    requires ServerOk(net, d) && net.nodes[d].todo != [] && NoRepeats(ds) && d in ds
    ensures Work(DialNext(net, d, ok, sdp), ds) < Work(net, ds)
  {
    DialLighter(net.cid, d, net.nodes[d], Inbox(net, d), ok, sdp);
    WorkElsewhere(net, DialNext(net, d, ok, sdp), ds, d);
  }

  /** Handling an event always leaves less to do, whatever its outcome. */
  lemma HandlingProgress(net: Net, e: Event, ds: seq<ServerId>)
    requires RowsDistinct(net.mgr) && RowsOk(net) && NodesOk(net) && NoRepeats(ds)
    requires Handles(e) && Possible(net, e) && e.d in ds
    ensures Work(Next(net, e), ds) < Work(net, ds)
  {
    assert ServerOk(net, e.d);
    match e
    case Receive(d, ok, sdp) => ReceiveProgress(net, d, ok, sdp, ds);
    case Dial(d, ok, sdp) => DialProgress(net, d, ok, sdp, ds);
    case Forward(d) => ForwardLighter(net, d, ds);
  }

  // ── runs of handling ──────────────────────────────────────────────────

  /** Every event of the run happens, and handles something in flight. */
  predicate OnlyHandles(net: Net, es: seq<Event>)
    decreases |es|
  {
    es == [] || (Handles(es[0]) && Possible(net, es[0]) && OnlyHandles(Next(net, es[0]), es[1..]))
  }

  ghost predicate Lists(ds: seq<ServerId>, net: Net) { NoRepeats(ds) && forall d :: d in ds <==> d in net.nodes }

  lemma HandledNext(net: Net, e: Event, clean: bool)
    requires Inv(net, clean) && Handles(e) && Possible(net, e) && (clean && (e.Receive? || e.Dial?) ==> e.ok)
    ensures Inv(Next(net, e), clean) && Next(net, e).nodes.Keys == net.nodes.Keys
  {
    NextKeepsManager(net, e);
    NextRows(net, e);
    NextKeepsServers(net, e, clean);
    HandledKeys(net, e);
  }

  lemma HandledKeys(net: Net, e: Event)
    requires Handles(e) && Possible(net, e)
    ensures Next(net, e).nodes.Keys == net.nodes.Keys
  {
  }

  /** No run of handling is longer than the work that was in flight. */
  lemma {:induction false} HandlingBounded(net: Net, es: seq<Event>, ds: seq<ServerId>)
    requires Inv(net, false) && Lists(ds, net) && OnlyHandles(net, es)
    ensures |es| <= Work(net, ds)
    decreases |es|
  {
    if es != [] {
      HandlingProgress(net, es[0], ds);
      HandledNext(net, es[0], false);
      HandlingBounded(Next(net, es[0]), es[1..], ds);
    }
  }

  /**
   * Without new joins, roster changes or candidates, the servers fall silent: whatever
   * was interleaved so far, no run of handling is longer than the work in flight, in
   * whatever order and with whatever outcomes it is done.
   */
  lemma FallsSilent(net: Net, es: seq<Event>, handling: seq<Event>, ds: seq<ServerId>)
    requires Start(net) && Lists(ds, Play(net, es)) && OnlyHandles(Play(net, es), handling)
    ensures |handling| <= Work(Play(net, es), ds)
  {
    PlayKeeps(net, es, false);
    HandlingBounded(Play(net, es), handling, ds);
  }

  /** Something is left to handle as long as a server has not caught up. */
  lemma SomethingToDo(net: Net) returns (e: Event)
    requires NodesOk(net) && !Drained(net)
    ensures Handles(e) && Possible(net, e) && (e.Receive? || e.Dial? ==> e.ok)
  {
    var d :| d in net.nodes &&
      !(net.nodes[d].todo == [] && net.nodes[d].cursor == |Inbox(net, d)| && net.nodes[d].sent == |net.nodes[d].out|);
    assert ServerOk(net, d);
    e := if net.nodes[d].todo != [] then Dial(d, true, "")
         else if net.nodes[d].cursor < |Inbox(net, d)| then Receive(d, true, "")
         else Forward(d);
  }

  /** One more event in front of a run. */
  lemma OneMore(net: Net, e: Event, rest: seq<Event>)
    requires Handles(e) && Possible(net, e) && (e.Receive? || e.Dial? ==> e.ok)
    requires OnlyHandles(Next(net, e), rest) && Clean(rest)
    ensures OnlyHandles(net, [e] + rest) && Clean([e] + rest) && Play(net, [e] + rest) == Play(Next(net, e), rest)
  {
    var es := [e] + rest;
    assert es[0] == e && es[1..] == rest;
    assert OnlyHandles(net, es) <==> Handles(es[0]) && Possible(net, es[0]) && OnlyHandles(Next(net, es[0]), es[1..]);
  }

  /** Handling what is in flight, in some order, drains every link. */
  lemma {:induction false} Settles(net: Net, ds: seq<ServerId>) returns (es: seq<Event>)
    requires Inv(net, true) && Lists(ds, net)
    ensures OnlyHandles(net, es) && Clean(es) && Drained(Play(net, es)) && Play(net, es).nodes.Keys == net.nodes.Keys
    decreases Work(net, ds)
  {
    if Drained(net) {
      es := [];
    } else {
      var e := SomethingToDo(net);
      HandlingProgress(net, e, ds);
      HandledNext(net, e, true);
      var next := Next(net, e);
      var rest := Settles(next, ds);
      OneMore(net, e, rest);
      es := [e] + rest;
    }
  }

  lemma {:induction false} PlayConcat(net: Net, es: seq<Event>, fs: seq<Event>)
    ensures Play(net, es + fs) == Play(Play(net, es), fs)
    decreases |es|
  {
    if es == [] {
      assert es + fs == fs;
    } else {
      assert (es + fs)[1..] == es[1..] + fs;
      PlayConcat(Next(net, es[0]), es[1..], fs);
    }
  }

  lemma {:induction false} ListServers(known: set<ServerId>) returns (ds: seq<ServerId>)
    ensures NoRepeats(ds) && forall d :: d in ds <==> d in known
    decreases |known|
  {
    if known == {} {
      ds := [];
    } else {
      var d :| d in known;
      var rest := ListServers(known - {d});
      ds := [d] + rest;
      assert ds[1..] == rest;
    }
  }

  ghost predicate FullMesh(net: Net) {
    forall a, b :: a in net.nodes && b in net.nodes && a != b ==> b in net.nodes[a].mesh
  }

  lemma ReachedInv(net: Net, es: seq<Event>)
    requires Start(net) && Clean(es)
    ensures Inv(Play(net, es), true)
  {
    PlayKeeps(net, es, true);
  }

  lemma DrainedIsFull(net: Net, es: seq<Event>)
    requires Start(net) && Clean(es) && Drained(Play(net, es))
    ensures FullMesh(Play(net, es))
  {
    var n := Play(net, es);
    forall a, b | a in n.nodes && b in n.nodes && a != b ensures b in n.nodes[a].mesh {
      LexTrichotomy(a, b);
      if LexLess(a, b) { MeshComplete(net, es, a, b); } else { MeshComplete(net, es, b, a); }
    }
  }

  /**
   * Whatever was interleaved so far without a failed connection, handling what is in
   * flight is enough to reach a full mesh of all attached servers.
   */
  lemma MeshForms(net: Net, es: seq<Event>) returns (rest: seq<Event>)
    requires Start(net) && Clean(es)
    ensures var reached := Play(net, es);
            OnlyHandles(reached, rest) && Play(reached, rest).nodes.Keys == reached.nodes.Keys &&
            Drained(Play(reached, rest)) && FullMesh(Play(reached, rest))
  {
    var reached := Play(net, es);
    ReachedInv(net, es);
    var ds := ListServers(reached.nodes.Keys);
    assert Lists(ds, reached);
    rest := Settles(reached, ds);
    PlayConcat(net, es, rest);
    DrainedIsFull(net, es + rest);
  }
}
