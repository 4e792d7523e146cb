// The server mesh of one call: participant servers that read their frames from
// the call manager in order, dial each other, and send frames back to it
// (crates/userserver/src/call/engine.rs, crates/userserver/src/call/ws.rs).
//
// A server's inbound channel is a manager channel read through a cursor; its
// outbound link is a log the manager consumes in order. A step is one stretch
// of a handler between two awaits, so a server that walks a roster can be
// overtaken between two of its peers.

module MeshSpec {
  import opened Options
  import opened Signal
  import opened ManagerSpec

  /** Rust's `<` on `str`: byte order of UTF-8, which is code point order. */
  predicate LexLess(a: string, b: string) {
    if b == "" then false
    else if a == "" then true
    else if a[0] != b[0] then a[0] < b[0]
    else LexLess(a[1..], b[1..])
  }

  lemma {:induction false} LexTrichotomy(a: string, b: string)
    ensures LexLess(a, b) ==> a != b && !LexLess(b, a)
    ensures a != b ==> LexLess(a, b) || LexLess(b, a)
  {
    if a != "" && b != "" && a[0] == b[0] {
      LexTrichotomy(a[1..], b[1..]);
      assert a == [a[0]] + a[1..] && b == [b[0]] + b[1..];
    }
  }

  /** The strings agree up to position `k`, where `a` ends or has the smaller character. */
  predicate SmallerFrom(a: string, b: string, k: nat) {
    k <= |a| && k < |b| && a[..k] == b[..k] && (k == |a| || a[k] < b[k])
  }

  /** The order is decided at the first difference. */
  lemma {:induction false} LexFirstDifference(a: string, b: string)
    ensures LexLess(a, b) <==> exists k: nat :: SmallerFrom(a, b, k)
  {
    if a != "" && b != "" && a[0] == b[0] {
      LexFirstDifference(a[1..], b[1..]);
      forall k: nat | SmallerFrom(a[1..], b[1..], k) ensures SmallerFrom(a, b, k + 1) {
        assert a[..k + 1] == [a[0]] + a[1..][..k] && b[..k + 1] == [b[0]] + b[1..][..k];
      }
      forall k: nat | SmallerFrom(a, b, k) ensures k > 0 && SmallerFrom(a[1..], b[1..], k - 1) {
        if k > 0 { assert a[1..][..k - 1] == a[..k][1..] && b[1..][..k - 1] == b[..k][1..]; }
      }
    } else if b != "" && (a == "" || a[0] < b[0]) {
      assert SmallerFrom(a, b, 0);
    } else if b != "" {
      forall k: nat | SmallerFrom(a, b, k) ensures k == 0 || a[0] == b[0] { SameStart(a, b, k); }
    }
  }

  lemma SameStart(a: string, b: string, k: nat)
    requires SmallerFrom(a, b, k)
    ensures k > 0 ==> a[0] == b[0]
  {
    if k > 0 { assert a[..k][0] == b[..k][0]; }
  }

  datatype Node = Node(
    sink: SinkId,            // the channel the manager sends into
    cursor: nat,             // how much of it has been handled
    todo: seq<ServerId>,     // servers of the roster being walked
    mesh: set<ServerId>,     // peers with a mesh connection
    out: seq<SignalMsg>,     // frames submitted to the manager
    sent: nat)               // how many of them it has handled

  datatype Net = Net(mgr: Manager, cid: CallId, nodes: map<ServerId, Node>)

  /** `ok` and `sdp` are what the foreign peer-connection library answers. */
  datatype Event =
    | Attach(d: ServerId, members: seq<ParticipantId>, sink: SinkId)
    | Receive(d: ServerId, ok: bool, sdp: string)
    | Dial(d: ServerId, ok: bool, sdp: string)
    | Trickle(d: ServerId, to: ServerId, candidate: string)
    | Forward(d: ServerId)
    | Manage(op: Op)

  function Inbox(net: Net, d: ServerId): seq<SignalMsg> {
    if d in net.nodes then Log(net.mgr.queues, net.nodes[d].sink) else []
  }

  /**
   * Whatever else the manager does meanwhile: members of this call come, go or are
   * muted, and anything happens to other calls. Servers of this call do not leave.
   */
  predicate Bystands(cid: CallId, op: Op) {
    match op
    case Join(id, _) => id != cid
    case Leave(id, _) => id != cid
    case End(id, _) => id != cid
    case Route(frame) => FrameCall(frame) != Some(cid)
    case _ => true
  }

  predicate Possible(net: Net, e: Event) {
    match e
    case Attach(d, _, sink) => d !in net.nodes && sink !in net.mgr.queues
    case Receive(d, _, _) => d in net.nodes && net.nodes[d].todo == [] && net.nodes[d].cursor < |Inbox(net, d)|
    case Dial(d, _, _) => d in net.nodes && net.nodes[d].todo != []
    case Trickle(d, _, _) => d in net.nodes
    case Forward(d) => d in net.nodes && net.nodes[d].sent < |net.nodes[d].out|
    case Manage(op) => Enabled(net.mgr, op) && Bystands(net.cid, op)
  }

  function ServersOf(entries: seq<RosterEntry>): seq<ServerId> {
    seq(|entries|, i requires 0 <= i < |entries| => entries[i].server)
  }

  /** Handling one frame from the manager. */
  function HandleFrame(cid: CallId, d: ServerId, n: Node, f: SignalMsg, ok: bool, sdp: string): Node {
    match f
    case Roster(_, entries) => n.(todo := ServersOf(entries))
    case Sdp(_, from, _, _, false) =>
      if ok then n.(mesh := n.mesh + {from}, out := n.out + [Sdp(cid, d, from, sdp, true)]) else n
    case _ => n
  }

  /** One round of the roster walk: only the smaller domain dials, and only once. */
  function DialPeer(cid: CallId, d: ServerId, n: Node, peer: ServerId, ok: bool, sdp: string): Node {
    if !LexLess(d, peer) || peer in n.mesh || !ok then n
    else n.(mesh := n.mesh + {peer}, out := n.out + [Sdp(cid, d, peer, sdp, false)])
  }

  /** The whole roster walk; `built[i]` is the offer for the i-th server, if its connection came up. */
  function DialAll(cid: CallId, d: ServerId, n: Node, servers: seq<ServerId>, built: seq<Option<string>>): Node
    requires |servers| == |built|
    decreases |servers|
  {
    if servers == [] then n
    else DialAll(cid, d, DialPeer(cid, d, n, servers[0], built[0].Some?, Offer(built[0])), servers[1..], built[1..])
  }

  function Offer(built: Option<string>): string { if built.Some? then built.value else "" }

  function AttachServer(net: Net, d: ServerId, members: seq<ParticipantId>, sink: SinkId): Net {
    net.(mgr := StepJoin(net.mgr, net.cid, Participant(d, members, [], sink)),
         nodes := net.nodes[d := Node(sink, 0, [], {}, [], 0)])
  }

  function ReceiveFrame(net: Net, d: ServerId, ok: bool, sdp: string): Net
    requires d in net.nodes && net.nodes[d].cursor < |Inbox(net, d)|
  {
    var n := net.nodes[d];
    SetNode(net, d, HandleFrame(net.cid, d, n.(cursor := n.cursor + 1), Inbox(net, d)[n.cursor], ok, sdp))
  }

  function DialNext(net: Net, d: ServerId, ok: bool, sdp: string): Net
    requires d in net.nodes && net.nodes[d].todo != []
  {
    var n := net.nodes[d];
    SetNode(net, d, DialPeer(net.cid, d, n.(todo := n.todo[1..]), n.todo[0], ok, sdp))
  }

  function TrickleIce(net: Net, d: ServerId, to: ServerId, candidate: string): Net
    requires d in net.nodes
  {
    SetNode(net, d, net.nodes[d].(out := net.nodes[d].out + [Ice(net.cid, d, to, candidate)]))
  }

  function ForwardFrame(net: Net, d: ServerId): Net
    requires d in net.nodes && net.nodes[d].sent < |net.nodes[d].out|
  {
    var n := net.nodes[d];
    SetNode(net, d, n.(sent := n.sent + 1)).(mgr := StepRoute(net.mgr, n.out[n.sent]))
  }

  /** An event that is not possible does not happen. */
  function Next(net: Net, e: Event): Net {
    if !Possible(net, e) then net
    else match e
    case Attach(d, members, sink) => AttachServer(net, d, members, sink)
    case Receive(d, ok, sdp) => ReceiveFrame(net, d, ok, sdp)
    case Dial(d, ok, sdp) => DialNext(net, d, ok, sdp)
    case Trickle(d, to, candidate) => TrickleIce(net, d, to, candidate)
    case Forward(d) => ForwardFrame(net, d)
    case Manage(op) => net.(mgr := Step(net.mgr, op))
  }

  function SetNode(net: Net, d: ServerId, n: Node): Net { net.(nodes := net.nodes[d := n]) }

  function Play(net: Net, es: seq<Event>): Net
    decreases |es|
  {
    if es == [] then net else Play(Next(net, es[0]), es[1..])
  }

  /** No peer connection failed to build or to negotiate. */
  predicate Clean(es: seq<Event>) {
    forall i :: 0 <= i < |es| && (es[i].Receive? || es[i].Dial?) ==> es[i].ok
  }

  /** Every frame has been handled at both ends. */
  predicate Drained(net: Net) {
    forall d :: d in net.nodes ==>
      net.nodes[d].todo == [] && net.nodes[d].cursor == |Inbox(net, d)| && net.nodes[d].sent == |net.nodes[d].out|
  }

  /** How many of the first `k` frames of `log` are offers (or answers) from one server to another. */
  function Sdps(log: seq<SignalMsg>, k: nat, from: ServerId, to: ServerId, answer: bool): nat {
    if k == 0 then 0
    else Sdps(log, k - 1, from, to, answer) + if k <= |log| && IsSdp(log[k - 1], from, to, answer) then 1 else 0
  }

  predicate IsSdp(f: SignalMsg, from: ServerId, to: ServerId, answer: bool) {
    f.Sdp? && f.from == from && f.to == to && f.answer == answer
  }
}
