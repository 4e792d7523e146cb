// The per-call media session of one user server, with peer connections reduced
// to their keys and origin keys (crates/userserver/src/call/engine.rs).

module Engine {
  import opened Options
  import opened Accounts
  import opened Signal
  import opened ManagerSpec
  import opened Sequences
  import opened MeshSpec
  import MeshPairs
  import AudioBridge

  /** Browser connections belong to registered users and carry their full ids. */
  predicate ClientsOk(domain: ServerId, users: map<UserId, string>, clients: map<UserId, string>) {
    forall u :: u in clients ==> u in users && clients[u] == FullId(users, u, domain)
  }

  class Session {
    const callId: CallId
    const myDomain: ServerId
    const users: map<UserId, string>   // registered users and their usernames
    var mesh: map<ServerId, string>    // peer domain -> origin key of its audio
    var clients: map<UserId, string>   // local user -> origin key of its audio
    var out: seq<SignalMsg>            // frames submitted to the call manager

    constructor (callId: CallId, myDomain: ServerId, users: map<UserId, string>)
      ensures this.callId == callId && this.myDomain == myDomain && this.users == users
      ensures Valid() && mesh == map[] && clients == map[] && out == []
    {
      this.callId, this.myDomain, this.users := callId, myDomain, users;
      mesh, clients, out := map[], map[], [];
    }

    /** Audio from a mesh peer carries that peer's domain, audio from a browser its user's full id. */
    ghost predicate Valid()
      reads this
    {
      (forall d :: d in mesh ==> mesh[d] == d) && ClientsOk(myDomain, users, clients)
    }

    /** The part of the mesh state machine this session holds. */
    ghost function View(): Node
      reads this
    {
      Node(0, 0, [], mesh.Keys, out, 0)
    }

    /** The roster changed: dial every larger server that has no connection yet. */
    method OnRoster(servers: seq<ServerId>, built: seq<Option<string>>)
      requires Valid() && |servers| == |built|
      modifies this
      ensures Valid() && clients == old(clients)
      ensures View() == DialAll(callId, myDomain, old(View()), servers, built)
    {
      for i := 0 to |servers|
        invariant Valid() && clients == old(clients)
        invariant DialAll(callId, myDomain, View(), servers[i..], built[i..])
                  == DialAll(callId, myDomain, old(View()), servers, built)
      {
        assert servers[i..][1..] == servers[i + 1..] && built[i..][1..] == built[i + 1..];
        var peer := servers[i];
        ghost var before := View();
        var less := LexLessThan(myDomain, peer);
        if less && peer !in mesh && built[i].Some? {
          mesh := mesh[peer := peer];
          out := out + [Sdp(callId, myDomain, peer, built[i].value, false)];
          assert mesh.Keys == before.mesh + {peer};
        }
        assert View() == DialPeer(callId, myDomain, before, peer, built[i].Some?, Offer(built[i]));
      }
      assert servers[|servers|..] == [] && built[|built|..] == [];
    }

    /** A frame of another server: an offer is answered, everything else only touches its connection. */
    method OnMeshSignal(sig: SignalMsg, answer: Option<string>)
      requires Valid() && (sig.Sdp? || sig.Ice?)
      modifies this
      ensures Valid() && clients == old(clients)
      ensures View() == HandleFrame(callId, myDomain, old(View()), sig, answer.Some?, Offer(answer))
      ensures var answered := sig.Sdp? && !sig.answer && answer.Some?;
              mesh.Keys == old(mesh.Keys) + (if answered then {sig.from} else {}) &&
              out == old(out) + if answered then [Sdp(callId, myDomain, sig.from, answer.value, true)] else []
    {
      if sig.Sdp? && !sig.answer && answer.Some? {
        mesh := mesh[sig.from := sig.from];
        out := out + [Sdp(callId, myDomain, sig.from, answer.value, true)];
      }
    }

    /** A browser's offer: its connection is keyed by user and tagged with the full user id. */
    method OnClientOffer(user: UserId, answered: bool)
      requires Valid() && user in users
      modifies this`clients
      ensures Valid()
      ensures clients.Keys == old(clients.Keys) + if answered then {user} else {}
    {
      var origin := users[user] + "@" + myDomain;
      if answered {
        clients := clients[user := origin];
      }
    }

    method Teardown()
      modifies this
      ensures Valid() && View() == old(View()).(mesh := {}) && clients == map[]
    {
      mesh, clients := map[], map[];
    }
  }

  // ── origin keys ───────────────────────────────────────────────────────

  /** Two browsers have one origin key only if they are one user's on one server; no browser has a server's key. */
  lemma OriginsDistinct(d: ServerId, users: map<UserId, string>, u: UserId, e: ServerId, others: map<UserId, string>, v: UserId)
    requires '@' !in d && '@' !in e && u in users && v in others
    requires d == e ==> users == others && UsernamesUnique(users)
    ensures FullId(users, u, d) == FullId(others, v, e) <==> d == e && u == v
    ensures FullId(users, u, d) != e
  {
    if FullId(users, u, d) == FullId(others, v, e) {
      assert users[u] + ['@'] + d == others[v] + ['@'] + e;
      LastSegment(users[u], others[v], '@', d, e);
    }
    assert FullId(users, u, d)[|users[u]|] == '@';
  }

  /** One server's part of a call: its user table and its browser connections. */
  datatype Media = Media(users: map<UserId, string>, clients: map<UserId, string>)

  /** The origin keys of a server's browsers, in some order. */
  ghost predicate Lists(keys: seq<string>, clients: map<UserId, string>) {
    Distinct(keys) && forall k :: k in keys <==> exists u :: u in clients && clients[u] == k
  }

  /**
   * The sessions of a call, as their connections build them, satisfy what the
   * forwarding theorems ask of a topology: origin keys tell all peers apart.
   */
  lemma SessionsFormTopology(servers: seq<ServerId>, at: map<ServerId, Media>, keys: map<ServerId, seq<string>>)
    requires Distinct(servers) && at.Keys == keys.Keys == set s | s in servers
    requires forall s :: s in servers ==>
      '@' !in s && UsernamesUnique(at[s].users) && ClientsOk(s, at[s].users, at[s].clients) && Lists(keys[s], at[s].clients)
    ensures AudioBridge.Valid(AudioBridge.Topology(servers, keys))
  {
    forall s, c | s in servers && c in keys[s] ensures '@' in c {
      var u :| u in at[s].clients && at[s].clients[u] == c;
      assert c[|at[s].users[u]|] == '@';
    }
    forall s, r, c | s in servers && r in servers && c in keys[s] && c in keys[r] ensures s == r {
      var u :| u in at[s].clients && at[s].clients[u] == c;
      var v :| v in at[r].clients && at[r].clients[v] == c;
      OriginsDistinct(s, at[s].users, u, r, at[r].users, v);
    }
  }

  // ── the roster loop ───────────────────────────────────────────────────

  /** Peer `e` is larger than us and its connection came up in the walk. */
  predicate CameUp(d: ServerId, servers: seq<ServerId>, built: seq<Option<string>>, e: ServerId) {
    LexLess(d, e) && exists i :: 0 <= i < |servers| && i < |built| && servers[i] == e && built[i].Some?
  }

  /**
   * A walk adds exactly the larger servers whose connection came up, and offers
   * itself once to each of those that had no connection before, and to nobody else.
   */
  lemma {:induction false} WalkEffect(cid: CallId, d: ServerId, n: Node, servers: seq<ServerId>, built: seq<Option<string>>, e: ServerId)
    requires |servers| == |built|
    ensures var after := DialAll(cid, d, n, servers, built);
            (e in after.mesh <==> e in n.mesh || CameUp(d, servers, built, e)) &&
            Sdps(after.out, |after.out|, d, e, false) ==
              Sdps(n.out, |n.out|, d, e, false) + (if e !in n.mesh && CameUp(d, servers, built, e) then 1 else 0)
    decreases |servers|
  {
    if servers != [] {
      var next := DialPeer(cid, d, n, servers[0], built[0].Some?, Offer(built[0]));
      MeshPairs.SdpsPush(n.out, Sdp(cid, d, servers[0], Offer(built[0]), false), d, e, false);
      WalkEffect(cid, d, next, servers[1..], built[1..], e);
      CameUpLater(d, servers, built, e);
    }
  }

  /** One frame a walk may submit: the offer that was built for a larger server without a connection. */
  predicate IsOffer(cid: CallId, d: ServerId, n: Node, servers: seq<ServerId>, built: seq<Option<string>>, f: SignalMsg) {
    exists i :: 0 <= i < |servers| && i < |built| && LexLess(d, servers[i]) && servers[i] !in n.mesh && built[i].Some? &&
                f == Sdp(cid, d, servers[i], built[i].value, false)
  }

  /** What a walk submits are the offers as they were built, behind what was submitted before; nothing else of the session changes. */
  lemma {:induction false} WalkSubmits(cid: CallId, d: ServerId, n: Node, servers: seq<ServerId>, built: seq<Option<string>>)
    requires |servers| == |built|
    ensures var after := DialAll(cid, d, n, servers, built);
            after == n.(mesh := after.mesh, out := after.out) && n.out <= after.out && n.mesh <= after.mesh &&
            forall k :: |n.out| <= k < |after.out| ==> IsOffer(cid, d, n, servers, built, after.out[k])
    decreases |servers|
  {
    if servers != [] {
      var next := DialPeer(cid, d, n, servers[0], built[0].Some?, Offer(built[0]));
      var after := DialAll(cid, d, n, servers, built);
      WalkSubmits(cid, d, next, servers[1..], built[1..]);
      forall k | |n.out| <= k < |after.out| ensures IsOffer(cid, d, n, servers, built, after.out[k]) {
        if k < |next.out| {
          assert after.out[k] == next.out[k];
          assert IsOffer(cid, d, n, servers, built, Sdp(cid, d, servers[0], built[0].value, false));
        } else {
          assert IsOffer(cid, d, next, servers[1..], built[1..], after.out[k]);
          OfferLater(cid, d, n, next, servers, built, after.out[k]);
        }
      }
    }
  }

  lemma OfferLater(cid: CallId, d: ServerId, n: Node, next: Node, servers: seq<ServerId>, built: seq<Option<string>>, f: SignalMsg)
    requires |servers| == |built| > 0 && n.mesh <= next.mesh && IsOffer(cid, d, next, servers[1..], built[1..], f)
    ensures IsOffer(cid, d, n, servers, built, f)
  {
    var i :| 0 <= i < |servers[1..]| && LexLess(d, servers[1..][i]) && servers[1..][i] !in next.mesh && built[1..][i].Some? &&
             f == Sdp(cid, d, servers[1..][i], built[1..][i].value, false);
    assert servers[i + 1] == servers[1..][i] && built[i + 1] == built[1..][i];
  }

  lemma CameUpLater(d: ServerId, servers: seq<ServerId>, built: seq<Option<string>>, e: ServerId)
    requires |servers| == |built| > 0
    ensures CameUp(d, servers, built, e) <==> CameUp(d, servers[1..], built[1..], e) || (LexLess(d, e) && servers[0] == e && built[0].Some?)
  {
    if CameUp(d, servers[1..], built[1..], e) {
      var i :| 0 <= i < |servers[1..]| && servers[1..][i] == e && built[1..][i].Some?;
      assert servers[i + 1] == e && built[i + 1].Some?;
    }
    if CameUp(d, servers, built, e) {
      var i :| 0 <= i < |servers| && servers[i] == e && built[i].Some?;
      if i > 0 { assert servers[1..][i - 1] == e && built[1..][i - 1].Some?; }
    }
  }

  /** After a teardown nothing is left of old connections: the next roster dials every larger server again, once. */
  lemma RedialAfterTeardown(cid: CallId, d: ServerId, n: Node, servers: seq<ServerId>, built: seq<Option<string>>, e: ServerId)
    requires |servers| == |built| && n.mesh == {}
    ensures var after := DialAll(cid, d, n, servers, built);
            (e in after.mesh <==> CameUp(d, servers, built, e)) &&
            Sdps(after.out, |after.out|, d, e, false) - Sdps(n.out, |n.out|, d, e, false) == if e in after.mesh then 1 else 0
  {
    WalkEffect(cid, d, n, servers, built, e);
  }

  /** `str`'s comparison, character by character. */
  method LexLessThan(a: string, b: string) returns (less: bool)
    ensures less <==> LexLess(a, b)
  {
    var i := 0;
    while i < |a| && i < |b| && a[i] == b[i]
      invariant 0 <= i <= |a| && i <= |b|
      invariant LexLess(a, b) <==> LexLess(a[i..], b[i..])
    {
      assert a[i..][1..] == a[i + 1..] && b[i..][1..] == b[i + 1..];
      i := i + 1;
    }
    less := i < |b| && (i == |a| || a[i] < b[i]);
  }

  /** The dial events of a roster walk that nothing interrupts. */
  function Dials(d: ServerId, built: seq<Option<string>>): seq<Event> {
    seq(|built|, i requires 0 <= i < |built| => Dial(d, built[i].Some?, Offer(built[i])))
  }

  /** The session's roster loop is the mesh state machine's sequence of dials. */
  lemma {:induction false} WalkIsDials(net: Net, d: ServerId, built: seq<Option<string>>)
    requires d in net.nodes && |net.nodes[d].todo| == |built|
    ensures d in Play(net, Dials(d, built)).nodes
    ensures Play(net, Dials(d, built)).nodes[d]
            == DialAll(net.cid, d, net.nodes[d], net.nodes[d].todo, built).(todo := [])
    decreases |built|
  {
    var n := net.nodes[d];
    if built == [] {
      assert n.todo == [];
    } else {
      var es := Dials(d, built);
      assert es[1..] == Dials(d, built[1..]);
      WalkIsDials(Next(net, es[0]), d, built[1..]);
      TodoUnread(net.cid, d, DialPeer(net.cid, d, n, n.todo[0], built[0].Some?, Offer(built[0])), n.todo[1..], built[1..], n.todo[1..]);
    }
  }

  /** Dialling does not look at the rest of the walk. */
  lemma {:induction false} TodoUnread(cid: CallId, d: ServerId, n: Node, servers: seq<ServerId>, built: seq<Option<string>>, todo: seq<ServerId>)
    requires |servers| == |built|
    ensures DialAll(cid, d, n.(todo := todo), servers, built) == DialAll(cid, d, n, servers, built).(todo := todo)
    decreases |servers|
  {
    if servers != [] {
      var m := DialPeer(cid, d, n, servers[0], built[0].Some?, Offer(built[0]));
      TodoUnread(cid, d, m, servers[1..], built[1..], todo);
    }
  }
}
