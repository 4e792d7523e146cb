// What holds between any two servers of a mesh while it forms
// (crates/userserver/src/call/engine.rs).
//
// The invariant has three parts. `ManagerOk`: the manager is sound and its rows are
// the servers, each with its own channel. `NodesOk`: what a server has read and sent
// is about servers of the call. `PairsOk`: from a server's map over its outbound log
// and the manager to the other server's channel, offers and answers are counted
// alike on the way (`Exchange`), so that no pair ever sees a second offer. Each
// event is shown to keep the parts for one server or one pair first, and for all of
// them then.

module MeshPairs {
  import opened Options
  import opened Signal
  import opened ManagerSpec
  import opened CallRuns
  import opened MeshSpec

  // ── counting ──────────────────────────────────────────────────────────

  lemma {:induction false} SdpsMonotone(log: seq<SignalMsg>, j: nat, k: nat, from: ServerId, to: ServerId, answer: bool)
    requires j <= k
    ensures Sdps(log, j, from, to, answer) <= Sdps(log, k, from, to, answer)
    decreases k - j
  {
    if j < k { SdpsMonotone(log, j, k - 1, from, to, answer); }
  }

  /** Appending frames does not change what was counted before. */
  lemma {:induction false} SdpsKept(log: seq<SignalMsg>, extra: seq<SignalMsg>, k: nat, from: ServerId, to: ServerId, answer: bool)
    requires k <= |log|
    ensures Sdps(log + extra, k, from, to, answer) == Sdps(log, k, from, to, answer)
  {
    if k > 0 { SdpsKept(log, extra, k - 1, from, to, answer); }
  }

  lemma SdpsPush(log: seq<SignalMsg>, f: SignalMsg, from: ServerId, to: ServerId, answer: bool)
    ensures Sdps(log + [f], |log| + 1, from, to, answer)
            == Sdps(log, |log|, from, to, answer) + if IsSdp(f, from, to, answer) then 1 else 0
  {
    SdpsKept(log, [f], |log|, from, to, answer);
  }

  lemma {:induction false} SdpsNone(log: seq<SignalMsg>, extra: seq<SignalMsg>, from: ServerId, to: ServerId, answer: bool)
    requires forall i :: 0 <= i < |extra| ==> !IsSdp(extra[i], from, to, answer)
    ensures Sdps(log + extra, |log + extra|, from, to, answer) == Sdps(log, |log|, from, to, answer)
  {
    if extra == [] {
      assert log + extra == log;
    } else {
      var init, last := extra[..|extra| - 1], extra[|extra| - 1];
      SdpsNone(log, init, from, to, answer);
      SdpsPush(log + init, last, from, to, answer);
      assert log + init + [last] == log + extra;
    }
  }

  // ── invariant ─────────────────────────────────────────────────────────

  predicate OutOk(cid: CallId, known: set<ServerId>, d: ServerId, f: SignalMsg) {
    (f.Sdp? || f.Ice?) && f.callId == cid && f.from == d && (f.Sdp? ==> f.to in known && f.to != d)
  }

  predicate InOk(known: set<ServerId>, d: ServerId, f: SignalMsg) {
    (f.Roster? ==> forall i :: 0 <= i < |f.participants| ==> f.participants[i].server in known) &&
    (f.Sdp? ==> f.from in known && f.from != d && f.to == d)
  }

  ghost predicate NodeOk(cid: CallId, known: set<ServerId>, d: ServerId, n: Node, inbox: seq<SignalMsg>) {
    n.cursor <= |inbox| && n.sent <= |n.out| && n.mesh <= known - {d} &&
    (forall i :: 0 <= i < |n.todo| ==> n.todo[i] in known) &&
    (forall k :: 0 <= k < |n.out| ==> OutOk(cid, known, d, n.out[k])) &&
    (forall k :: 0 <= k < |inbox| ==> InOk(known, d, inbox[k]))
  }

  /** The offers from `a` and the answers from `b` to them, wherever they are. */
  ghost predicate Exchange(a: ServerId, na: Node, b: ServerId, nb: Node, inb: seq<SignalMsg>, clean: bool) {
    na.sent <= |na.out| && nb.cursor <= |inb| &&
    Sdps(inb, |inb|, a, b, false) == Sdps(na.out, na.sent, a, b, false) &&
    Sdps(inb, |inb|, a, b, true) == Sdps(na.out, na.sent, a, b, true) &&
    Sdps(na.out, |na.out|, a, b, false) == (if LexLess(a, b) && b in na.mesh then 1 else 0) &&
    Sdps(nb.out, |nb.out|, b, a, true) == (if LexLess(a, b) && a in nb.mesh then 1 else 0) &&
    Sdps(nb.out, |nb.out|, b, a, true) <= Sdps(inb, nb.cursor, a, b, false) &&
    (clean ==> Sdps(nb.out, |nb.out|, b, a, true) == Sdps(inb, nb.cursor, a, b, false))
  }

  predicate DialledOrDue(d: ServerId, n: Node, peer: ServerId) {
    LexLess(d, peer) ==> peer in n.mesh || peer in n.todo
  }

  /** Every larger server of a roster that was read is connected or still to be dialled. */
  ghost predicate Walked(d: ServerId, n: Node, inbox: seq<SignalMsg>) {
    n.cursor <= |inbox| &&
    forall k, i :: 0 <= k < n.cursor && inbox[k].Roster? && 0 <= i < |inbox[k].participants| ==>
      DialledOrDue(d, n, inbox[k].participants[i].server)
  }

  ghost predicate RowOf(net: Net, d: ServerId) {
    d in net.nodes && exists p :: Attached(net.mgr, net.cid, p) && p.domain == d && p.sink == net.nodes[d].sink
  }

  ghost predicate ManagerOk(net: Net) { Sound(net.mgr) && Converged(net.mgr, false) && RowsOk(net) }

  /** The servers of the mesh are the call's participants, each reading its own channel. */
  ghost predicate RowsOk(net: Net) {
    net.cid in net.mgr.calls && Domains(net.mgr.calls[net.cid].participants) == net.nodes.Keys &&
    forall d :: d in net.nodes ==> RowOf(net, d)
  }

  ghost predicate ServerOk(net: Net, d: ServerId) {
    d in net.nodes && NodeOk(net.cid, net.nodes.Keys, d, net.nodes[d], Inbox(net, d))
  }

  ghost predicate NodesOk(net: Net) {
    forall d {:trigger ServerOk(net, d)} :: d in net.nodes ==> ServerOk(net, d)
  }

  ghost predicate PairOk(net: Net, a: ServerId, b: ServerId, clean: bool) {
    a in net.nodes && b in net.nodes && Exchange(a, net.nodes[a], b, net.nodes[b], Inbox(net, b), clean)
  }

  ghost predicate PairsOk(net: Net, clean: bool) {
    forall a, b {:trigger PairOk(net, a, b, clean)} ::
      a in net.nodes && b in net.nodes && a != b ==> PairOk(net, a, b, clean)
  }

  ghost predicate WalkOk(net: Net, d: ServerId) {
    d in net.nodes && Walked(d, net.nodes[d], Inbox(net, d))
  }

  ghost predicate ServersOk(net: Net, clean: bool) {
    NodesOk(net) && PairsOk(net, clean) && (clean ==> forall d {:trigger WalkOk(net, d)} :: d in net.nodes ==> WalkOk(net, d))
  }

  ghost predicate Inv(net: Net, clean: bool) { ManagerOk(net) && ServersOk(net, clean) }

  // ── steps inside one server ───────────────────────────────────────────

  /** An offer can only arrive once, before any answer to it, at the larger domain. */
  lemma OfferIsFirst(a: ServerId, na: Node, b: ServerId, nb: Node, inb: seq<SignalMsg>, clean: bool)
    requires nb.cursor < |inb| && Exchange(a, na, b, nb, inb, clean)
    requires IsSdp(inb[nb.cursor], a, b, false)
    ensures LexLess(a, b) && a !in nb.mesh
    ensures Sdps(inb, nb.cursor, a, b, false) == 0 && Sdps(inb, nb.cursor + 1, a, b, false) == 1
    ensures Sdps(nb.out, |nb.out|, b, a, true) == 0
  {
    SdpsMonotone(inb, nb.cursor + 1, |inb|, a, b, false);
    SdpsMonotone(na.out, na.sent, |na.out|, a, b, false);
  }

  /** `b` moves past a frame that is no offer from `a`, perhaps answering somebody else. */
  lemma CalleePasses(a: ServerId, na: Node, b: ServerId, nb: Node, nb': Node, inb: seq<SignalMsg>, extra: seq<SignalMsg>, clean: bool)
    requires nb.cursor < |inb| && Exchange(a, na, b, nb, inb, clean)
    requires !IsSdp(inb[nb.cursor], a, b, false)
    requires nb'.cursor == nb.cursor + 1 && nb'.out == nb.out + extra && (a in nb'.mesh <==> a in nb.mesh)
    requires forall i :: 0 <= i < |extra| ==> !IsSdp(extra[i], b, a, true)
    ensures Exchange(a, na, b, nb', inb, clean)
  {
    SdpsNone(nb.out, extra, b, a, true);
  }

  /** `b` answers the offer of `a`. */
  lemma CalleeAnswers(cid: CallId, a: ServerId, na: Node, b: ServerId, nb: Node, nb': Node, inb: seq<SignalMsg>, sdp: string, clean: bool)
    requires nb.cursor < |inb| && Exchange(a, na, b, nb, inb, clean)
    requires IsSdp(inb[nb.cursor], a, b, false)
    requires nb'.cursor == nb.cursor + 1 && nb'.out == nb.out + [Sdp(cid, b, a, sdp, true)] && nb'.mesh == nb.mesh + {a}
    ensures Exchange(a, na, b, nb', inb, clean)
  {
    OfferIsFirst(a, na, b, nb, inb, clean);
    SdpsPush(nb.out, Sdp(cid, b, a, sdp, true), b, a, true);
  }

  /** `b` fails to answer the offer of `a`. */
  lemma CalleeFails(a: ServerId, na: Node, b: ServerId, nb: Node, nb': Node, inb: seq<SignalMsg>)
    requires nb.cursor < |inb| && Exchange(a, na, b, nb, inb, false)
    requires nb'.cursor == nb.cursor + 1 && nb'.out == nb.out && nb'.mesh == nb.mesh
    ensures Exchange(a, na, b, nb', inb, false)
  {
  }

  /** `b` handles a frame: its exchange with a possible caller `a`. */
  lemma ReceiveAsCallee(cid: CallId, known: set<ServerId>, a: ServerId, na: Node, b: ServerId, nb: Node,
                        inb: seq<SignalMsg>, ok: bool, sdp: string, clean: bool)
    requires nb.cursor < |inb| && InOk(known, b, inb[nb.cursor]) && a != b
    requires Exchange(a, na, b, nb, inb, clean) && (clean ==> ok)
    ensures Exchange(a, na, b, HandleFrame(cid, b, nb.(cursor := nb.cursor + 1), inb[nb.cursor], ok, sdp), inb, clean)
  {
    var f := inb[nb.cursor];
    var nb' := HandleFrame(cid, b, nb.(cursor := nb.cursor + 1), f, ok, sdp);
    if !f.Sdp? || f.answer || (f.from != a && !ok) {
      assert nb'.out == nb.out + [];
      CalleePasses(a, na, b, nb, nb', inb, [], clean);
    } else if f.from != a {
      CalleePasses(a, na, b, nb, nb', inb, [Sdp(cid, b, f.from, sdp, true)], clean);
    } else if ok {
      CalleeAnswers(cid, a, na, b, nb, nb', inb, sdp, clean);
    } else {
      CalleeFails(a, na, b, nb, nb', inb);
    }
  }

  /** `a` submits a frame that is no offer to `b`: its exchange as a caller of `b` stands. */
  lemma CallerSubmits(a: ServerId, na: Node, na': Node, b: ServerId, nb: Node, inb: seq<SignalMsg>, extra: seq<SignalMsg>, clean: bool)
    requires Exchange(a, na, b, nb, inb, clean) && na'.out == na.out + extra && na'.sent == na.sent
    requires forall i :: 0 <= i < |extra| ==> !IsSdp(extra[i], a, b, false)
    requires LexLess(a, b) ==> (b in na'.mesh <==> b in na.mesh)
    ensures Exchange(a, na', b, nb, inb, clean)
  {
    SdpsNone(na.out, extra, a, b, false);
    SdpsKept(na.out, extra, na.sent, a, b, false);
    SdpsKept(na.out, extra, na.sent, a, b, true);
  }

  /** `a` handles a frame: its exchange with a possible callee `b`. */
  lemma ReceiveAsCaller(cid: CallId, known: set<ServerId>, a: ServerId, na: Node, ina: seq<SignalMsg>, b: ServerId, nb: Node,
                        inb: seq<SignalMsg>, ok: bool, sdp: string, clean: bool)
    requires na.cursor < |ina| && InOk(known, a, ina[na.cursor]) && a != b
    requires Exchange(a, na, b, nb, inb, clean) && Exchange(b, nb, a, na, ina, clean)
    ensures Exchange(a, HandleFrame(cid, a, na.(cursor := na.cursor + 1), ina[na.cursor], ok, sdp), b, nb, inb, clean)
  {
    var f := ina[na.cursor];
    var na' := HandleFrame(cid, a, na.(cursor := na.cursor + 1), f, ok, sdp);
    if f.Sdp? && !f.answer && ok {
      if f.from == b {
        OfferIsFirst(b, nb, a, na, ina, clean);
        LexTrichotomy(a, b);
      }
      CallerSubmits(a, na, na', b, nb, inb, [Sdp(cid, a, f.from, sdp, true)], clean);
    } else {
      assert na'.out == na.out + [];
      CallerSubmits(a, na, na', b, nb, inb, [], clean);
    }
  }

  lemma HandleNode(cid: CallId, known: set<ServerId>, d: ServerId, n: Node, inbox: seq<SignalMsg>, ok: bool, sdp: string)
    requires NodeOk(cid, known, d, n, inbox) && n.cursor < |inbox|
    ensures NodeOk(cid, known, d, HandleFrame(cid, d, n.(cursor := n.cursor + 1), inbox[n.cursor], ok, sdp), inbox)
  {
  }

  lemma HandleWalk(cid: CallId, d: ServerId, n: Node, inbox: seq<SignalMsg>, ok: bool, sdp: string)
    requires n.cursor < |inbox| && n.todo == [] && Walked(d, n, inbox)
    ensures Walked(d, HandleFrame(cid, d, n.(cursor := n.cursor + 1), inbox[n.cursor], ok, sdp), inbox)
  {
    var f := inbox[n.cursor];
    if f.Roster? {
      assert forall i :: 0 <= i < |f.participants| ==> ServersOf(f.participants)[i] == f.participants[i].server;
    }
  }

  /** `a` submits a frame that is no answer to `b`: its exchange as a callee of `b` stands. */
  lemma CalleeSubmits(a: ServerId, na: Node, na': Node, b: ServerId, nb: Node, ina: seq<SignalMsg>, extra: seq<SignalMsg>, clean: bool)
    requires Exchange(b, nb, a, na, ina, clean) && na'.out == na.out + extra && na'.cursor == na.cursor
    requires forall i :: 0 <= i < |extra| ==> !IsSdp(extra[i], a, b, true)
    requires LexLess(b, a) ==> (b in na'.mesh <==> b in na.mesh)
    ensures Exchange(b, nb, a, na', ina, clean)
  {
    SdpsNone(na.out, extra, a, b, true);
  }

  /** Dialling one peer of the roster, for the pair it concerns and for all others. */
  lemma DialPair(cid: CallId, a: ServerId, na: Node, b: ServerId, nb: Node, ina: seq<SignalMsg>, inb: seq<SignalMsg>,
                 ok: bool, sdp: string, clean: bool)
    requires na.todo != [] && a != b
    requires Exchange(a, na, b, nb, inb, clean) && Exchange(b, nb, a, na, ina, clean)
    ensures var na' := DialPeer(cid, a, na.(todo := na.todo[1..]), na.todo[0], ok, sdp);
            Exchange(a, na', b, nb, inb, clean) && Exchange(b, nb, a, na', ina, clean)
  {
    var peer := na.todo[0];
    var na' := DialPeer(cid, a, na.(todo := na.todo[1..]), peer, ok, sdp);
    var offer := Sdp(cid, a, peer, sdp, false);
    if !LexLess(a, peer) || peer in na.mesh || !ok {
      assert na'.out == na.out + [];
      CallerSubmits(a, na, na', b, nb, inb, [], clean);
      CalleeSubmits(a, na, na', b, nb, ina, [], clean);
    } else {
      LexTrichotomy(a, peer);
      CalleeSubmits(a, na, na', b, nb, ina, [offer], clean);
      if peer != b {
        CallerSubmits(a, na, na', b, nb, inb, [offer], clean);
      } else {
        SdpsPush(na.out, offer, a, b, false);
        SdpsKept(na.out, [offer], na.sent, a, b, false);
        SdpsKept(na.out, [offer], na.sent, a, b, true);
      }
    }
  }

  lemma DialNode(cid: CallId, known: set<ServerId>, d: ServerId, n: Node, inbox: seq<SignalMsg>, ok: bool, sdp: string)
    requires NodeOk(cid, known, d, n, inbox) && n.todo != []
    ensures NodeOk(cid, known, d, DialPeer(cid, d, n.(todo := n.todo[1..]), n.todo[0], ok, sdp), inbox)
    ensures ok && Walked(d, n, inbox) ==> Walked(d, DialPeer(cid, d, n.(todo := n.todo[1..]), n.todo[0], ok, sdp), inbox)
  {
    LexTrichotomy(d, n.todo[0]);
    assert n.todo == [n.todo[0]] + n.todo[1..];
    assert forall s :: s in n.todo <==> s == n.todo[0] || s in n.todo[1..];
  }

  lemma TricklePair(cid: CallId, a: ServerId, na: Node, b: ServerId, nb: Node, ina: seq<SignalMsg>, inb: seq<SignalMsg>,
                    to: ServerId, candidate: string, clean: bool)
    requires Exchange(a, na, b, nb, inb, clean) && Exchange(b, nb, a, na, ina, clean)
    ensures var na' := na.(out := na.out + [Ice(cid, a, to, candidate)]);
            Exchange(a, na', b, nb, inb, clean) && Exchange(b, nb, a, na', ina, clean)
  {
    var ice := Ice(cid, a, to, candidate);
    CallerSubmits(a, na, na.(out := na.out + [ice]), b, nb, inb, [ice], clean);
    CalleeSubmits(a, na, na.(out := na.out + [ice]), b, nb, ina, [ice], clean);
  }

  lemma ReplaceRows(net: Net, d: ServerId, n: Node)
    requires RowsOk(net) && d in net.nodes && n.sink == net.nodes[d].sink
    ensures RowsOk(SetNode(net, d, n))
  {
  }

  lemma ReplaceNodes(net: Net, d: ServerId, n: Node)
    requires NodesOk(net) && d in net.nodes && n.sink == net.nodes[d].sink
    requires NodeOk(net.cid, net.nodes.Keys, d, n, Inbox(net, d))
    ensures NodesOk(SetNode(net, d, n))
  {
    assert SetNode(net, d, n).nodes.Keys == net.nodes.Keys;
    forall e | e in net.nodes ensures ServerOk(SetNode(net, d, n), e) { assert ServerOk(net, e); }
  }

  lemma ReplacePairs(net: Net, d: ServerId, n: Node, clean: bool)
    requires NodesOk(net) && PairsOk(net, clean) && d in net.nodes && n.sink == net.nodes[d].sink
    requires forall b :: b in net.nodes && b != d ==> PairWith(net, d, n, b, clean)
    ensures PairsOk(SetNode(net, d, n), clean)
  {
    var net' := SetNode(net, d, n);
    forall a, b | a in net'.nodes && b in net'.nodes && a != b ensures PairOk(net', a, b, clean) {
      if a == d {
        assert PairWith(net, d, n, b, clean);
      } else if b == d {
        assert PairWith(net, d, n, a, clean);
      } else {
        assert PairOk(net, a, b, clean);
      }
    }
  }

  /** With `n` in place of its node, `d` keeps both exchanges with `b`. */
  ghost predicate PairWith(net: Net, d: ServerId, n: Node, b: ServerId, clean: bool) {
    d in net.nodes && b in net.nodes &&
    Exchange(d, n, b, net.nodes[b], Inbox(net, b), clean) && Exchange(b, net.nodes[b], d, n, Inbox(net, d), clean)
  }

  /** `n` can take the place of `d`'s node. */
  ghost predicate Fits(net: Net, d: ServerId, n: Node, clean: bool) {
    d in net.nodes && n.sink == net.nodes[d].sink &&
    NodeOk(net.cid, net.nodes.Keys, d, n, Inbox(net, d)) && (clean ==> Walked(d, n, Inbox(net, d))) &&
    forall b {:trigger PairWith(net, d, n, b, clean)} :: b in net.nodes && b != d ==> PairWith(net, d, n, b, clean)
  }

  lemma Replace(net: Net, d: ServerId, n: Node, clean: bool)
    requires ServersOk(net, clean) && Fits(net, d, n, clean)
    ensures ServersOk(SetNode(net, d, n), clean)
  {
    ReplaceNodes(net, d, n);
    ReplacePairs(net, d, n, clean);
    if clean {
      forall e | e in net.nodes ensures WalkOk(SetNode(net, d, n), e) { assert WalkOk(net, e); }
    }
  }

  /** `d`'s node after its next frame. */
  function Received(net: Net, d: ServerId, ok: bool, sdp: string): Node
    requires d in net.nodes && net.nodes[d].cursor < |Inbox(net, d)|
  {
    var n := net.nodes[d];
    HandleFrame(net.cid, d, n.(cursor := n.cursor + 1), Inbox(net, d)[n.cursor], ok, sdp)
  }

  lemma ReceiveBoth(cid: CallId, known: set<ServerId>, d: ServerId, n: Node, inbox: seq<SignalMsg>, n': Node,
                    b: ServerId, nb: Node, inb: seq<SignalMsg>, ok: bool, sdp: string, clean: bool)
    requires n.cursor < |inbox| && InOk(known, d, inbox[n.cursor]) && d != b && (clean ==> ok)
    requires Exchange(d, n, b, nb, inb, clean) && Exchange(b, nb, d, n, inbox, clean)
    requires n' == HandleFrame(cid, d, n.(cursor := n.cursor + 1), inbox[n.cursor], ok, sdp)
    ensures Exchange(d, n', b, nb, inb, clean) && Exchange(b, nb, d, n', inbox, clean)
  {
    ReceiveAsCallee(cid, known, b, nb, d, n, inbox, ok, sdp, clean);
    ReceiveAsCaller(cid, known, d, n, inbox, b, nb, inb, ok, sdp, clean);
  }

  lemma ReceivePair(net: Net, d: ServerId, n': Node, b: ServerId, ok: bool, sdp: string, clean: bool)
    requires PairOk(net, b, d, clean) && PairOk(net, d, b, clean) && (clean ==> ok)
    requires net.nodes[d].cursor < |Inbox(net, d)| && InOk(net.nodes.Keys, d, Inbox(net, d)[net.nodes[d].cursor]) && b != d
    requires n' == Received(net, d, ok, sdp)
    ensures PairWith(net, d, n', b, clean)
  {
    ReceiveBoth(net.cid, net.nodes.Keys, d, net.nodes[d], Inbox(net, d), n', b, net.nodes[b], Inbox(net, b), ok, sdp, clean);
  }

  lemma ReceiveNode(net: Net, d: ServerId, ok: bool, sdp: string)
    requires ServerOk(net, d) && net.nodes[d].cursor < |Inbox(net, d)| && net.nodes[d].todo == []
    ensures Received(net, d, ok, sdp).sink == net.nodes[d].sink
    ensures NodeOk(net.cid, net.nodes.Keys, d, Received(net, d, ok, sdp), Inbox(net, d))
    ensures WalkOk(net, d) ==> Walked(d, Received(net, d, ok, sdp), Inbox(net, d))
  {
    HandleNode(net.cid, net.nodes.Keys, d, net.nodes[d], Inbox(net, d), ok, sdp);
    if WalkOk(net, d) { HandleWalk(net.cid, d, net.nodes[d], Inbox(net, d), ok, sdp); }
  }

  lemma ReceiveFits(net: Net, d: ServerId, ok: bool, sdp: string, clean: bool)
    requires ServersOk(net, clean) && (clean ==> ok)
    requires d in net.nodes && net.nodes[d].cursor < |Inbox(net, d)| && net.nodes[d].todo == []
    ensures Fits(net, d, Received(net, d, ok, sdp), clean)
  {
    assert ServerOk(net, d) && (clean ==> WalkOk(net, d));
    ReceiveNode(net, d, ok, sdp);
    forall b | b in net.nodes && b != d ensures PairWith(net, d, Received(net, d, ok, sdp), b, clean) {
      assert PairOk(net, b, d, clean) && PairOk(net, d, b, clean);
      assert InOk(net.nodes.Keys, d, Inbox(net, d)[net.nodes[d].cursor]);
      ReceivePair(net, d, Received(net, d, ok, sdp), b, ok, sdp, clean);
    }
  }

  lemma ReceiveKeeps(net: Net, d: ServerId, ok: bool, sdp: string, clean: bool)
    requires ServersOk(net, clean) && (clean ==> ok)
    requires d in net.nodes && net.nodes[d].cursor < |Inbox(net, d)| && net.nodes[d].todo == []
    ensures ServersOk(ReceiveFrame(net, d, ok, sdp), clean)
  {
    ReceiveFits(net, d, ok, sdp, clean);
    Replace(net, d, Received(net, d, ok, sdp), clean);
  }

  lemma DialKeeps(net: Net, d: ServerId, ok: bool, sdp: string, clean: bool)
    requires ServersOk(net, clean) && d in net.nodes && net.nodes[d].todo != [] && (clean ==> ok)
    ensures ServersOk(DialNext(net, d, ok, sdp), clean)
  {
    var n, inbox := net.nodes[d], Inbox(net, d);
    var n' := DialPeer(net.cid, d, n.(todo := n.todo[1..]), n.todo[0], ok, sdp);
    assert ServerOk(net, d) && (clean ==> WalkOk(net, d));
    DialNode(net.cid, net.nodes.Keys, d, n, inbox, ok, sdp);
    forall b | b in net.nodes && b != d ensures PairWith(net, d, n', b, clean) {
      assert PairOk(net, b, d, clean) && PairOk(net, d, b, clean);
      DialPair(net.cid, d, n, b, net.nodes[b], inbox, Inbox(net, b), ok, sdp, clean);
    }
    Replace(net, d, n', clean);
  }

  lemma TrickleKeeps(net: Net, d: ServerId, to: ServerId, candidate: string, clean: bool)
    requires ServersOk(net, clean) && d in net.nodes
    ensures ServersOk(TrickleIce(net, d, to, candidate), clean)
  {
    var n := net.nodes[d];
    var n' := n.(out := n.out + [Ice(net.cid, d, to, candidate)]);
    assert ServerOk(net, d) && (clean ==> WalkOk(net, d));
    forall b | b in net.nodes && b != d ensures PairWith(net, d, n', b, clean) {
      assert PairOk(net, b, d, clean) && PairOk(net, d, b, clean);
      TricklePair(net.cid, d, n, b, net.nodes[b], Inbox(net, d), Inbox(net, b), to, candidate, clean);
    }
    Replace(net, d, n', clean);
  }

  // ── steps of the manager ──────────────────────────────────────────────

  lemma NodeGrows(cid: CallId, known: set<ServerId>, known': set<ServerId>, d: ServerId, n: Node, sent: nat,
                  inbox: seq<SignalMsg>, extra: seq<SignalMsg>)
    requires NodeOk(cid, known, d, n, inbox) && known <= known' && sent <= |n.out|
    requires forall i :: 0 <= i < |extra| ==> InOk(known', d, extra[i])
    ensures NodeOk(cid, known', d, n.(sent := sent), inbox + extra)
    ensures Walked(d, n, inbox) ==> Walked(d, n.(sent := sent), inbox + extra)
  {
  }

  lemma {:induction false} SameSink(ps: seq<Participant>, p: Participant, q: Participant)
    requires Distinct(ps) && p in ps && q in ps && (p.sink == q.sink || p.domain == q.domain)
    ensures p == q
  {
    if p != ps[0] && q != ps[0] {
      SameSink(ps[1..], p, q);
    }
  }

  /** A routed offer, answer or candidate reaches the server it names and no other. */
  lemma RouteReaches(net: Net, f: SignalMsg, e: ServerId)
    requires RowsDistinct(net.mgr) && RowsOk(net) && (f.Sdp? || f.Ice?) && f.callId == net.cid && e in net.nodes
    ensures Reaches(net.mgr, f, net.nodes[e].sink) <==> e == f.to
  {
    var ps := net.mgr.calls[net.cid].participants;
    assert RowOf(net, e);
    var p :| p in ps && p.domain == e && p.sink == net.nodes[e].sink;
    if Reaches(net.mgr, f, net.nodes[e].sink) {
      var q :| q in ps && q.domain == f.to && q.sink == net.nodes[e].sink;
      SameSink(ps, p, q);
    }
  }

  /** The manager takes `f` from `d`'s link; it turns up, if anywhere, in the inbox it is addressed to. */
  ghost predicate Forwards(net: Net, net': Net, d: ServerId, f: SignalMsg) {
    net'.cid == net.cid && net'.nodes.Keys == net.nodes.Keys && d in net.nodes &&
    net.nodes[d].sent < |net.nodes[d].out| && f == net.nodes[d].out[net.nodes[d].sent] &&
    OutOk(net.cid, net.nodes.Keys, d, f) &&
    forall e {:trigger ForwardsTo(net, net', d, f, e)} :: e in net.nodes ==> ForwardsTo(net, net', d, f, e)
  }

  ghost predicate ForwardsTo(net: Net, net': Net, d: ServerId, f: SignalMsg, e: ServerId) {
    e in net.nodes && e in net'.nodes &&
    net'.nodes[e] == net.nodes[e].(sent := net.nodes[e].sent + if e == d then 1 else 0) &&
    (Inbox(net', e) == Inbox(net, e) + [f] || Inbox(net', e) == Inbox(net, e)) &&
    (f.Sdp? ==> Inbox(net', e) == Inbox(net, e) + if f.to == e then [f] else [])
  }

  lemma ForwardMoves(net: Net, d: ServerId)
    requires RowsDistinct(net.mgr) && RowsOk(net) && NodesOk(net)
    requires d in net.nodes && net.nodes[d].sent < |net.nodes[d].out|
    ensures Forwards(net, ForwardFrame(net, d), d, net.nodes[d].out[net.nodes[d].sent])
  {
    var f, net' := net.nodes[d].out[net.nodes[d].sent], ForwardFrame(net, d);
    assert ServerOk(net, d);
    assert OutOk(net.cid, net.nodes.Keys, d, f);
    forall e | e in net.nodes ensures ForwardsTo(net, net', d, f, e) {
      RouteLog(net.mgr, f, net.nodes[e].sink);
      if f.Sdp? { RouteReaches(net, f, e); }
    }
  }

  lemma ForwardPair(net: Net, net': Net, d: ServerId, f: SignalMsg, a: ServerId, b: ServerId, clean: bool)
    requires d in net.nodes && net.nodes[d].sent < |net.nodes[d].out| && f == net.nodes[d].out[net.nodes[d].sent]
    requires (f.Sdp? || f.Ice?) && f.from == d
    requires ForwardsTo(net, net', d, f, a) && ForwardsTo(net, net', d, f, b) && PairOk(net, a, b, clean)
    ensures PairOk(net', a, b, clean)
  {
    var extra := if Inbox(net', b) == Inbox(net, b) then [] else [f];
    assert Inbox(net', b) == Inbox(net, b) + extra;
    ForwardedPair(d, a, net.nodes[a], net'.nodes[a].sent, b, net.nodes[b], net'.nodes[b].sent, f, Inbox(net, b), extra, clean);
  }

  /** `f`, a frame of `d`, moves from its link to the inbox it is addressed to. */
  lemma ForwardedPair(d: ServerId, a: ServerId, na: Node, sentA: nat, b: ServerId, nb: Node, sentB: nat, f: SignalMsg,
                      inb: seq<SignalMsg>, extra: seq<SignalMsg>, clean: bool)
    requires Exchange(a, na, b, nb, inb, clean) && (f.Sdp? || f.Ice?) && f.from == d
    requires if a == d then sentA == na.sent + 1 && na.sent < |na.out| && na.out[na.sent] == f else sentA == na.sent
    requires (extra == [] || extra == [f]) && (f.Sdp? ==> (extra == [f] <==> f.to == b))
    ensures Exchange(a, na.(sent := sentA), b, nb.(sent := sentB), inb + extra, clean)
  {
    SdpsKept(inb, extra, nb.cursor, a, b, false);
    if IsSdp(f, a, b, false) || IsSdp(f, a, b, true) {
      SdpsPush(inb, f, a, b, false);
      SdpsPush(inb, f, a, b, true);
    } else {
      SdpsNone(inb, extra, a, b, false);
      SdpsNone(inb, extra, a, b, true);
    }
  }

  lemma ForwardNode(net: Net, net': Net, d: ServerId, f: SignalMsg, e: ServerId)
    requires Forwards(net, net', d, f) && NodesOk(net) && e in net.nodes
    ensures ServerOk(net', e) && (WalkOk(net, e) ==> WalkOk(net', e))
  {
    assert ForwardsTo(net, net', d, f, e) && ServerOk(net, e);
    var extra := Inbox(net', e)[|Inbox(net, e)|..];
    NodeGrows(net.cid, net.nodes.Keys, net.nodes.Keys, e, net.nodes[e], net'.nodes[e].sent, Inbox(net, e), extra);
  }

  lemma ForwardKeeps(net: Net, net': Net, d: ServerId, f: SignalMsg, clean: bool)
    requires ServersOk(net, clean) && Forwards(net, net', d, f)
    ensures ServersOk(net', clean)
  {
    forall e | e in net.nodes ensures ServerOk(net', e) && (WalkOk(net, e) ==> WalkOk(net', e)) {
      ForwardNode(net, net', d, f, e);
    }
    if clean {
      forall e | e in net.nodes ensures WalkOk(net', e) { assert WalkOk(net, e) && ServerOk(net', e); }
    }
    forall a, b | a in net.nodes && b in net.nodes && a != b ensures PairOk(net', a, b, clean) {
      assert PairOk(net, a, b, clean) && ForwardsTo(net, net', d, f, a) && ForwardsTo(net, net', d, f, b);
      ForwardPair(net, net', d, f, a, b, clean);
    }
  }

  /** Joins and member changes send only frames about servers that are now attached. */
  predicate Gossip(known: set<ServerId>, fs: seq<SignalMsg>) {
    forall i :: 0 <= i < |fs| ==>
      !fs[i].Sdp? && (fs[i].Roster? ==> forall k :: 0 <= k < |fs[i].participants| ==> fs[i].participants[k].server in known)
  }

  lemma RosterDomains(ps: seq<Participant>)
    ensures forall k :: 0 <= k < |RosterOf(ps)| ==> RosterOf(ps)[k].server in Domains(ps)
  {
  }

  /** What the call's servers hear of an operation that only edits rows of the call. */
  lemma EditGossips(m: Manager, op: Op, cid: CallId, s: SinkId)
    requires RowsDistinct(m) && cid in m.calls && (op.AddMember? || op.RemoveMember? || op.SetMuted?) && op.id == cid
    ensures Gossip(Domains(m.calls[cid].participants), Sent(m, op, s))
  {
    var ps := m.calls[cid].participants;
    if op.AddMember? {
      EditRows(ps, op.domain, AddOne(op.member));
      RosterDomains(EditFirst(ps, op.domain, AddOne(op.member)));
    } else if op.RemoveMember? {
      EditRows(ps, op.domain, DropOne(op.member));
      RosterDomains(EditFirst(ps, op.domain, DropOne(op.member)));
    }
  }

  /** Whatever happens to other calls, the channels of this one hear nothing of it. */
  lemma OthersSilent(m: Manager, op: Op, cid: CallId, s: SinkId)
    requires RowsDistinct(m) && SinksPrivate(m) && Enabled(m, op) && Bystands(cid, op)
    requires cid in m.calls && s in Sinks(m.calls[cid].participants)
    requires !((op.AddMember? || op.RemoveMember? || op.SetMuted?) && op.id == cid)
    ensures Sent(m, op, s) == []
  {
    assert s in m.queues;
    if op.Join? && op.id in m.calls { WithoutEffect(m.calls[op.id].participants, op.row.domain); }
    if op.Leave? && op.id in m.calls { WithoutEffect(m.calls[op.id].participants, op.domain); }
    if op.Route? && FrameCall(op.frame).Some? && FrameCall(op.frame).value in m.calls {
      assert Sinks(m.calls[FrameCall(op.frame).value].participants) !! Sinks(m.calls[cid].participants);
      assert forall p :: p in m.calls[FrameCall(op.frame).value].participants ==> p.sink in Sinks(m.calls[FrameCall(op.frame).value].participants);
    }
  }

  lemma BystandGossips(m: Manager, op: Op, cid: CallId, s: SinkId)
    requires RowsDistinct(m) && SinksPrivate(m) && Enabled(m, op) && Bystands(cid, op)
    requires cid in m.calls && s in Sinks(m.calls[cid].participants)
    ensures Gossip(Domains(m.calls[cid].participants), Sent(m, op, s))
  {
    if (op.AddMember? || op.RemoveMember? || op.SetMuted?) && op.id == cid {
      EditGossips(m, op, cid, s);
    } else {
      OthersSilent(m, op, cid, s);
    }
  }

  lemma GossipExchange(known: set<ServerId>, a: ServerId, na: Node, b: ServerId, nb: Node, inb: seq<SignalMsg>,
                       fs: seq<SignalMsg>, clean: bool)
    requires Exchange(a, na, b, nb, inb, clean) && Gossip(known, fs)
    ensures Exchange(a, na, b, nb, inb + fs, clean)
  {
    SdpsNone(inb, fs, a, b, false);
    SdpsNone(inb, fs, a, b, true);
    SdpsKept(inb, fs, nb.cursor, a, b, false);
  }

  /** The manager tells every server something that is no offer and no answer. */
  ghost predicate Gossips(net: Net, net': Net) {
    net'.cid == net.cid && net.nodes.Keys <= net'.nodes.Keys &&
    forall e :: e in net.nodes ==>
      net'.nodes[e] == net.nodes[e] && |Inbox(net, e)| <= |Inbox(net', e)| &&
      Inbox(net', e)[..|Inbox(net, e)|] == Inbox(net, e) &&
      Gossip(net'.nodes.Keys, Inbox(net', e)[|Inbox(net, e)|..])
  }

  lemma GossipNode(net: Net, net': Net, e: ServerId)
    requires NodesOk(net) && Gossips(net, net') && e in net.nodes
    ensures ServerOk(net', e) && (WalkOk(net, e) ==> WalkOk(net', e))
  {
    assert ServerOk(net, e);
    var extra := Inbox(net', e)[|Inbox(net, e)|..];
    assert Inbox(net', e) == Inbox(net, e) + extra;
    NodeGrows(net.cid, net.nodes.Keys, net'.nodes.Keys, e, net.nodes[e], net.nodes[e].sent, Inbox(net, e), extra);
  }

  lemma GossipPair(net: Net, net': Net, a: ServerId, b: ServerId, clean: bool)
    requires Gossips(net, net') && a in net.nodes && b in net.nodes && PairOk(net, a, b, clean)
    ensures PairOk(net', a, b, clean)
  {
    var extra := Inbox(net', b)[|Inbox(net, b)|..];
    assert Inbox(net', b) == Inbox(net, b) + extra;
    GossipExchange(net'.nodes.Keys, a, net.nodes[a], b, net.nodes[b], Inbox(net, b), extra, clean);
  }

  lemma ManageKeeps(net: Net, op: Op, clean: bool)
    requires Sound(net.mgr) && RowsOk(net) && ServersOk(net, clean) && Enabled(net.mgr, op) && Bystands(net.cid, op)
    ensures ServersOk(net.(mgr := Step(net.mgr, op)), clean)
  {
    var net' := net.(mgr := Step(net.mgr, op));
    assert Gossips(net, net') by {
      forall e | e in net.nodes
        ensures |Inbox(net, e)| <= |Inbox(net', e)| && Inbox(net', e)[..|Inbox(net, e)|] == Inbox(net, e)
        ensures Gossip(net.nodes.Keys, Inbox(net', e)[|Inbox(net, e)|..])
      {
        assert RowOf(net, e);
        StepLog(net.mgr, op, net.nodes[e].sink);
        BystandGossips(net.mgr, op, net.cid, net.nodes[e].sink);
      }
    }
    GossipServers(net, net', clean);
  }

  /** The rows of the call keep their servers and channels. */
  lemma BystandRows(m: Manager, op: Op, cid: CallId)
    requires RowsDistinct(m) && Enabled(m, op) && Bystands(cid, op) && cid in m.calls
    ensures cid in Step(m, op).calls && |Step(m, op).calls[cid].participants| == |m.calls[cid].participants|
    ensures forall i :: 0 <= i < |m.calls[cid].participants| ==>
              Step(m, op).calls[cid].participants[i].domain == m.calls[cid].participants[i].domain &&
              Step(m, op).calls[cid].participants[i].sink == m.calls[cid].participants[i].sink
  {
    if (op.AddMember? || op.RemoveMember? || op.SetMuted?) && op.id == cid {
      EditedRows(m, op, cid);
    } else {
      OtherRows(m, op, cid);
    }
  }

  lemma EditedRows(m: Manager, op: Op, cid: CallId)
    requires (op.AddMember? || op.RemoveMember? || op.SetMuted?) && op.id == cid && cid in m.calls
    ensures cid in Step(m, op).calls && |Step(m, op).calls[cid].participants| == |m.calls[cid].participants|
    ensures forall i :: 0 <= i < |m.calls[cid].participants| ==>
              Step(m, op).calls[cid].participants[i].domain == m.calls[cid].participants[i].domain &&
              Step(m, op).calls[cid].participants[i].sink == m.calls[cid].participants[i].sink
  {
    var ps := m.calls[cid].participants;
    match op
    case AddMember(_, d, u) => EditFirstKeeps(ps, d, AddOne(u));
    case RemoveMember(_, d, u) => EditFirstKeeps(ps, d, DropOne(u));
    case SetMuted(_, d, u, on) => EditFirstKeeps(ps, d, MuteOne(u, on));
  }

  lemma OtherRows(m: Manager, op: Op, cid: CallId)
    requires RowsDistinct(m) && Enabled(m, op) && Bystands(cid, op) && cid in m.calls
    requires !((op.AddMember? || op.RemoveMember? || op.SetMuted?) && op.id == cid)
    ensures cid in Step(m, op).calls && Step(m, op).calls[cid].participants == m.calls[cid].participants
  {
    assert cid in m.issued;
  }

  lemma ManageRows(net: Net, op: Op)
    requires RowsDistinct(net.mgr) && RowsOk(net) && Enabled(net.mgr, op) && Bystands(net.cid, op)
    ensures RowsOk(net.(mgr := Step(net.mgr, op)))
  {
    BystandRows(net.mgr, op, net.cid);
    SameRows(net, Step(net.mgr, op));
  }

  lemma SameRows(net: Net, m: Manager)
    requires RowsOk(net) && net.cid in m.calls && |m.calls[net.cid].participants| == |net.mgr.calls[net.cid].participants|
    requires var ps, ps' := net.mgr.calls[net.cid].participants, m.calls[net.cid].participants;
             forall i :: 0 <= i < |ps| ==> ps'[i].domain == ps[i].domain && ps'[i].sink == ps[i].sink
    ensures RowsOk(net.(mgr := m))
  {
    var ps, ps', net' := net.mgr.calls[net.cid].participants, m.calls[net.cid].participants, net.(mgr := m);
    SameKeysDistinct(ps, ps');
    forall e | e in net.nodes ensures RowOf(net', e) {
      assert RowOf(net, e);
      var i :| 0 <= i < |ps| && ps[i].domain == e && ps[i].sink == net.nodes[e].sink;
      assert Attached(net'.mgr, net.cid, ps'[i]);
    }
  }

  lemma GossipServers(net: Net, net': Net, clean: bool)
    requires ServersOk(net, clean) && Gossips(net, net') && net'.nodes.Keys == net.nodes.Keys
    ensures ServersOk(net', clean)
  {
    forall e | e in net.nodes
      ensures ServerOk(net', e) && (WalkOk(net, e) ==> WalkOk(net', e))
    {
      GossipNode(net, net', e);
    }
    forall a, b | a in net.nodes && b in net.nodes && a != b ensures PairOk(net', a, b, clean) {
      assert PairOk(net, a, b, clean);
      GossipPair(net, net', a, b, clean);
    }
  }

  // ── a server joins ────────────────────────────────────────────────────

  lemma JoinGossips(m: Manager, id: CallId, row: Participant, s: SinkId)
    requires id in m.calls
    ensures Gossip(Domains(m.calls[id].participants) + {row.domain}, SentJoin(m, id, row, s))
  {
    var kept := Without(m.calls[id].participants, row.domain);
    WithoutEffect(m.calls[id].participants, row.domain);
    MoreDomains(kept, row);
    RosterDomains(kept + [row]);
    RosterGossip(Domains(m.calls[id].participants) + {row.domain}, id, kept + [row]);
  }

  lemma RosterGossip(known: set<ServerId>, id: CallId, rows: seq<Participant>)
    requires Domains(rows) <= known
    ensures Gossip(known, [Roster(id, RosterOf(rows))])
    ensures forall d, ms :: Gossip(known, [ParticipantJoined(id, d, ms), Roster(id, RosterOf(rows))])
  {
    RosterDomains(rows);
  }

  lemma AttachRows(net: Net, d: ServerId, members: seq<ParticipantId>, sink: SinkId)
    requires RowsDistinct(net.mgr) && RowsOk(net) && d !in net.nodes && sink !in net.mgr.queues
    ensures RowsOk(AttachServer(net, d, members, sink))
  {
    var row := Participant(d, members, [], sink);
    var ps, net' := net.mgr.calls[net.cid].participants, AttachServer(net, d, members, sink);
    WithoutEffect(ps, d);
    assert net'.mgr.calls[net.cid].participants == ps + [row];
    MoreDomains(ps, row);
    assert RowOf(net', d) by { assert (ps + [row])[|ps|] == row; assert Attached(net'.mgr, net.cid, row); }
    forall e | e in net.nodes ensures RowOf(net', e) { RowKept(net, net', e, row); }
  }

  lemma MoreDomains(ps: seq<Participant>, row: Participant)
    ensures Domains(ps + [row]) == Domains(ps) + {row.domain}
  {
    assert forall p :: p in ps + [row] <==> p in ps || p == row;
  }

  lemma RowKept(net: Net, net': Net, e: ServerId, row: Participant)
    requires RowOf(net, e) && net'.cid == net.cid && net.cid in net.mgr.calls && net.cid in net'.mgr.calls
    requires net'.mgr.calls[net.cid].participants == net.mgr.calls[net.cid].participants + [row]
    requires e in net'.nodes && net'.nodes[e].sink == net.nodes[e].sink
    ensures RowOf(net', e)
  {
    var p :| Attached(net.mgr, net.cid, p) && p.domain == e && p.sink == net.nodes[e].sink;
    assert Attached(net'.mgr, net.cid, p);
  }

  /** A server that has just joined has exchanged nothing with anyone. */
  lemma NewPair(cid: CallId, known: set<ServerId>, d: ServerId, b: ServerId, nb: Node, inb: seq<SignalMsg>,
                newcomer: Node, first: seq<SignalMsg>, clean: bool)
    requires d !in known && b in known && nb.sent <= |nb.out| && nb.cursor <= |inb| && nb.mesh <= known
    requires forall k :: 0 <= k < |nb.out| ==> OutOk(cid, known, b, nb.out[k])
    requires forall k :: 0 <= k < |inb| && inb[k].Sdp? ==> inb[k].from in known
    requires newcomer.cursor == 0 && newcomer.mesh == {} && newcomer.out == [] && newcomer.sent == 0
    requires forall k :: 0 <= k < |first| ==> !first[k].Sdp?
    ensures Exchange(d, newcomer, b, nb, inb, clean) && Exchange(b, nb, d, newcomer, first, clean)
  {
    NothingSent(inb, d, b, false);
    NothingSent(inb, d, b, true);
    SdpsMonotone(inb, nb.cursor, |inb|, d, b, false);
    NothingSent(nb.out, b, d, false);
    NothingSent(nb.out, b, d, true);
    SdpsMonotone(nb.out, nb.sent, |nb.out|, b, d, false);
    SdpsMonotone(nb.out, nb.sent, |nb.out|, b, d, true);
    NothingSent(first, b, d, false);
    NothingSent(first, b, d, true);
  }

  lemma NothingSent(log: seq<SignalMsg>, from: ServerId, to: ServerId, answer: bool)
    requires forall i :: 0 <= i < |log| ==> !IsSdp(log[i], from, to, answer)
    ensures Sdps(log, |log|, from, to, answer) == 0
  {
    SdpsNone([], log, from, to, answer);
    assert [] + log == log;
  }

  /** `net'` is `net` with a new server `d` that has been sent `first`, the others having heard of it. */
  ghost predicate Admits(net: Net, net': Net, d: ServerId, first: seq<SignalMsg>) {
    Gossips(net, net') && d !in net.nodes && net'.nodes.Keys == net.nodes.Keys + {d} &&
    net'.nodes[d].cursor == 0 && net'.nodes[d].todo == [] && net'.nodes[d].mesh == {} && net'.nodes[d].out == [] &&
    net'.nodes[d].sent == 0 && Inbox(net', d) == first && Gossip(net'.nodes.Keys, first)
  }

  lemma AttachAdmits(net: Net, d: ServerId, members: seq<ParticipantId>, sink: SinkId)
    requires RowsDistinct(net.mgr) && RowsOk(net) && d !in net.nodes && sink !in net.mgr.queues
    ensures Admits(net, AttachServer(net, d, members, sink), d,
                   SentJoin(net.mgr, net.cid, Participant(d, members, [], sink), sink))
  {
    var row, net' := Participant(d, members, [], sink), AttachServer(net, d, members, sink);
    JoinLog(net.mgr, net.cid, row, sink);
    JoinGossips(net.mgr, net.cid, row, sink);
    forall e | e in net.nodes
      ensures |Inbox(net, e)| <= |Inbox(net', e)| && Inbox(net', e)[..|Inbox(net, e)|] == Inbox(net, e)
      ensures Gossip(net'.nodes.Keys, Inbox(net', e)[|Inbox(net, e)|..])
    {
      assert RowOf(net, e);
      JoinLog(net.mgr, net.cid, row, net.nodes[e].sink);
      JoinGossips(net.mgr, net.cid, row, net.nodes[e].sink);
    }
  }

  lemma AdmitPair(net: Net, net': Net, d: ServerId, first: seq<SignalMsg>, b: ServerId, clean: bool)
    requires NodesOk(net) && Admits(net, net', d, first) && b in net.nodes
    ensures PairOk(net', d, b, clean) && PairOk(net', b, d, clean)
  {
    assert ServerOk(net, b);
    GossipNode(net, net', b);
    assert ServerOk(net', b);
    var inb := Inbox(net', b);
    forall k | 0 <= k < |inb| && inb[k].Sdp? ensures inb[k].from in net.nodes.Keys {
      if k < |Inbox(net, b)| {
        assert inb[k] == Inbox(net, b)[k] && InOk(net.nodes.Keys, b, Inbox(net, b)[k]);
      }
    }
    NewPair(net.cid, net.nodes.Keys, d, b, net.nodes[b], inb, net'.nodes[d], first, clean);
  }

  lemma AdmitKeeps(net: Net, net': Net, d: ServerId, first: seq<SignalMsg>, clean: bool)
    requires ServersOk(net, clean) && Admits(net, net', d, first)
    ensures ServersOk(net', clean)
  {
    forall e | e in net'.nodes ensures ServerOk(net', e) && (clean ==> WalkOk(net', e)) {
      if e != d {
        assert clean ==> WalkOk(net, e);
        GossipNode(net, net', e);
      }
    }
    forall a, b | a in net'.nodes && b in net'.nodes && a != b ensures PairOk(net', a, b, clean) {
      if a == d {
        AdmitPair(net, net', d, first, b, clean);
      } else if b == d {
        AdmitPair(net, net', d, first, a, clean);
      } else {
        assert PairOk(net, a, b, clean);
        GossipPair(net, net', a, b, clean);
      }
    }
  }
}
