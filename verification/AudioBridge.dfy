// The audio forwarding rule (crates/userserver/src/call/engine.rs): every packet
// is tagged with the origin key of the peer it came in from, published on the
// server's bus, and written to every peer whose own origin key differs. Peers
// are the server's clients (key: user@domain) and, in a full mesh, every other
// server (key: its domain). The bus and the peer connections are lossless here.

module AudioBridge {
  import opened Sequences

  type Key = string

  /** The servers of one call and the clients attached to each of them. */
  datatype Topology = Topology(servers: seq<Key>, clients: map<Key, seq<Key>>)

  datatype Packet = Packet(sender: Key, id: nat)

  /** A packet published on a server's bus under an origin key. */
  datatype OnBus = OnBus(server: Key, src: Key, pkt: Packet)

  /** `pending` holds what is on the buses, `heard` who was written which packet. */
  datatype Bridge = Bridge(pending: seq<OnBus>, heard: seq<(Key, Packet)>)

  /** Domains contain no '@', full user ids do; nobody is attached to two servers. */
  predicate Valid(t: Topology) {
    Distinct(t.servers) && t.clients.Keys == (set s | s in t.servers) &&
    (forall s :: s in t.servers ==> '@' !in s && Distinct(t.clients[s]) && forall c :: c in t.clients[s] ==> '@' in c) &&
    (forall s, r, c :: s in t.servers && r in t.servers && c in t.clients[s] && c in t.clients[r] ==> s == r)
  }

  // ── one bus event ─────────────────────────────────────────────────────

  /** The clients whose outbound track is written: all but the origin. */
  function Listeners(clients: seq<Key>, src: Key, pkt: Packet): seq<(Key, Packet)> {
    if clients == [] then []
    else (if clients[0] == src then [] else [(clients[0], pkt)]) + Listeners(clients[1..], src, pkt)
  }

  /** The mesh peers that are written, each of which publishes the packet under our domain. */
  function Relays(servers: seq<Key>, me: Key, src: Key, pkt: Packet): seq<OnBus> {
    if servers == [] then []
    else (if servers[0] == me || servers[0] == src then [] else [OnBus(servers[0], me, pkt)])
         + Relays(servers[1..], me, src, pkt)
  }

  datatype Move = Speak(user: Key, home: Key, id: nat) | Deliver(i: nat)

  predicate Possible(t: Topology, b: Bridge, m: Move) {
    match m
    case Speak(user, home, _) => home in t.servers && home in t.clients && user in t.clients[home]
    case Deliver(i) => i < |b.pending| && b.pending[i].server in t.clients
  }

  /** A client speaks, or any one packet on any bus is handled. */
  function Next(t: Topology, b: Bridge, m: Move): Bridge
    requires Possible(t, b, m)
  {
    match m
    case Speak(user, home, id) => b.(pending := b.pending + [OnBus(home, user, Packet(user, id))])
    case Deliver(i) =>
      var e := b.pending[i];
      Bridge(b.pending[..i] + b.pending[i + 1..] + Relays(t.servers, e.server, e.src, e.pkt),
             b.heard + Listeners(t.clients[e.server], e.src, e.pkt))
  }

  ghost predicate Legal(t: Topology, b: Bridge, ms: seq<Move>)
    decreases |ms|
  {
    ms == [] || (Possible(t, b, ms[0]) && Legal(t, Next(t, b, ms[0]), ms[1..]))
  }

  ghost function Play(t: Topology, b: Bridge, ms: seq<Move>): Bridge
    requires Legal(t, b, ms)
    decreases |ms|
  {
    if ms == [] then b else Play(t, Next(t, b, ms[0]), ms[1..])
  }

  const Quiet: Bridge := Bridge([], [])

  // ── counting ──────────────────────────────────────────────────────────

  function Heard(h: seq<(Key, Packet)>, c: Key, p: Packet): nat {
    if h == [] then 0 else Heard(h[..|h| - 1], c, p) + if h[|h| - 1] == (c, p) then 1 else 0
  }

  lemma {:induction false} HeardConcat(g: seq<(Key, Packet)>, h: seq<(Key, Packet)>, c: Key, p: Packet)
    ensures Heard(g + h, c, p) == Heard(g, c, p) + Heard(h, c, p)
  {
    if h == [] {
      assert g + h == g;
    } else {
      assert (g + h)[..|g + h| - 1] == g + h[..|h| - 1];
      HeardConcat(g, h[..|h| - 1], c, p);
    }
  }

  function Spoken(ms: seq<Move>, p: Packet): nat {
    if ms == [] then 0
    else (if ms[0].Speak? && Packet(ms[0].user, ms[0].id) == p then 1 else 0) + Spoken(ms[1..], p)
  }

  /** With at most two servers: how often `c` will still hear `p` because of one bus event. */
  predicate WillHear(t: Topology, e: OnBus, c: Key, p: Packet) {
    e.pkt == p && c != p.sender && (e.src == p.sender || (e.server in t.clients && c in t.clients[e.server]))
  }

  function Due(t: Topology, pending: seq<OnBus>, c: Key, p: Packet): nat {
    if pending == [] then 0
    else (if WillHear(t, pending[0], c, p) then 1 else 0) + Due(t, pending[1..], c, p)
  }

  lemma {:induction false} DueConcat(t: Topology, a: seq<OnBus>, b: seq<OnBus>, c: Key, p: Packet)
    ensures Due(t, a + b, c, p) == Due(t, a, c, p) + Due(t, b, c, p)
  {
    if a == [] {
      assert a + b == b;
    } else {
      assert (a + b)[1..] == a[1..] + b;
      DueConcat(t, a[1..], b, c, p);
    }
  }

  // ── what one event does ───────────────────────────────────────────────

  lemma {:induction false} ListenersCount(clients: seq<Key>, src: Key, pkt: Packet, c: Key, p: Packet)
    requires Distinct(clients)
    ensures Heard(Listeners(clients, src, pkt), c, p) == if pkt == p && c in clients && c != src then 1 else 0
  {
    if clients != [] {
      var first: seq<(Key, Packet)> := if clients[0] == src then [] else [(clients[0], pkt)];
      assert forall i :: 1 <= i < |clients| ==> clients[i] == clients[1..][i - 1];
      ListenersCount(clients[1..], src, pkt, c, p);
      HeardConcat(first, Listeners(clients[1..], src, pkt), c, p);
      assert first != [] ==> first[..0] == [];
      assert c in clients <==> c == clients[0] || c in clients[1..];
    }
  }

  /** A bus event is relayed once to every server but the one it is on and the one it came from. */
  lemma {:induction false} RelaysExact(servers: seq<Key>, me: Key, src: Key, pkt: Packet)
    requires Distinct(servers)
    ensures forall e :: e in Relays(servers, me, src, pkt) <==>
              e == OnBus(e.server, me, pkt) && e.server in servers && e.server != me && e.server != src
    ensures forall i, j :: 0 <= i < j < |Relays(servers, me, src, pkt)| ==>
              Relays(servers, me, src, pkt)[i] != Relays(servers, me, src, pkt)[j]
    ensures |Relays(servers, me, src, pkt)| <= |servers|
  {
    if servers != [] {
      assert forall i :: 1 <= i < |servers| ==> servers[i] == servers[1..][i - 1];
      RelaysExact(servers[1..], me, src, pkt);
    }
  }

  /** Bus events carry the sender's own key on its home server, and a foreign domain elsewhere. */
  predicate Tagged(t: Topology, e: OnBus) {
    e.server in t.servers &&
    (if e.src == e.pkt.sender then e.server in t.clients && e.src in t.clients[e.server]
     else e.src in t.servers && e.src != e.server && '@' in e.pkt.sender)
  }

  predicate AllTagged(t: Topology, pending: seq<OnBus>) { forall i :: 0 <= i < |pending| ==> Tagged(t, pending[i]) }

  lemma RelaysTagged(t: Topology, e: OnBus)
    requires Valid(t) && Tagged(t, e)
    ensures AllTagged(t, Relays(t.servers, e.server, e.src, e.pkt))
  {
    RelaysExact(t.servers, e.server, e.src, e.pkt);
    var r := Relays(t.servers, e.server, e.src, e.pkt);
    forall i | 0 <= i < |r| ensures Tagged(t, r[i]) { assert r[i] in r; }
  }

  lemma NextTagged(t: Topology, b: Bridge, m: Move)
    requires Valid(t) && AllTagged(t, b.pending) && Possible(t, b, m)
    ensures AllTagged(t, Next(t, b, m).pending)
  {
    if m.Deliver? { RelaysTagged(t, b.pending[m.i]); }
  }

  /** The task that feeds one peer's outbound track from the bus. */
  method WriteOut(bus: seq<(Key, Packet)>, mine: Key) returns (track: seq<Packet>)
    ensures track == Track(bus, mine)
  {
    track := [];
    for i := 0 to |bus|
      invariant track + Track(bus[i..], mine) == Track(bus, mine)
    {
      assert bus[i..][1..] == bus[i + 1..];
      if bus[i].0 != mine {
        track := track + [bus[i].1];
      }
    }
    assert bus[|bus|..] == [];
  }

  function Track(bus: seq<(Key, Packet)>, mine: Key): seq<Packet> {
    if bus == [] then []
    else if bus[0].0 == mine then Track(bus[1..], mine)
    else [bus[0].1] + Track(bus[1..], mine)
  }

  /** How many of the first `i` packets on the bus came from others. */
  function Foreign(bus: seq<(Key, Packet)>, mine: Key, i: nat): nat
    requires i <= |bus|
  {
    if i == 0 then 0 else Foreign(bus, mine, i - 1) + if bus[i - 1].0 != mine then 1 else 0
  }

  lemma {:induction false} TrackLast(bus: seq<(Key, Packet)>, x: (Key, Packet), mine: Key)
    ensures Track(bus + [x], mine) == Track(bus, mine) + if x.0 == mine then [] else [x.1]
  {
    if bus == [] {
      assert (bus + [x])[1..] == [];
    } else {
      assert (bus + [x])[1..] == bus[1..] + [x];
      TrackLast(bus[1..], x, mine);
    }
  }

  lemma {:induction false} ForeignLast(bus: seq<(Key, Packet)>, x: (Key, Packet), mine: Key, i: nat)
    requires i <= |bus|
    ensures Foreign(bus + [x], mine, i) == Foreign(bus, mine, i)
  {
    if i > 0 { ForeignLast(bus, x, mine, i - 1); }
  }

  /** A track is the packets of other origins, each once and in the order of the bus: where one stands is how many came before it. */
  lemma {:induction false} TrackInOrder(bus: seq<(Key, Packet)>, mine: Key)
    ensures |Track(bus, mine)| == Foreign(bus, mine, |bus|)
    ensures forall i :: 0 <= i < |bus| && bus[i].0 != mine ==>
              Foreign(bus, mine, i) < |Track(bus, mine)| && Track(bus, mine)[Foreign(bus, mine, i)] == bus[i].1
    decreases |bus|
  {
    if bus != [] {
      var n, x := |bus| - 1, bus[|bus| - 1];
      var rest := bus[..n];
      assert rest + [x] == bus;
      TrackInOrder(rest, mine);
      TrackLast(rest, x, mine);
      forall i | 0 <= i <= n ensures Foreign(bus, mine, i) == Foreign(rest, mine, i) { ForeignLast(rest, x, mine, i); }
    }
  }

  /** Everything the clients of one server are written while its bus carries `bus`. */
  function Heardings(clients: seq<Key>, bus: seq<(Key, Packet)>): seq<(Key, Packet)> {
    if bus == [] then [] else Listeners(clients, bus[0].0, bus[0].1) + Heardings(clients, bus[1..])
  }

  function PacketCount(track: seq<Packet>, p: Packet): nat {
    if track == [] then 0 else (if track[0] == p then 1 else 0) + PacketCount(track[1..], p)
  }

  /** One task per client writes each client's track exactly what the bus events let it hear. */
  lemma {:induction false} TracksAgree(clients: seq<Key>, bus: seq<(Key, Packet)>, c: Key, p: Packet)
    requires Distinct(clients) && c in clients
    ensures PacketCount(Track(bus, c), p) == Heard(Heardings(clients, bus), c, p)
  {
    if bus != [] {
      TracksAgree(clients, bus[1..], c, p);
      ListenersCount(clients, bus[0].0, bus[0].1, c, p);
      HeardConcat(Listeners(clients, bus[0].0, bus[0].1), Heardings(clients, bus[1..]), c, p);
      assert bus[0].0 != c ==> Track(bus, c)[1..] == Track(bus[1..], c);
      assert c in clients;
    }
  }

  // ── two servers ───────────────────────────────────────────────────────

  lemma AtMostTwo(t: Topology, a: Key, b: Key, c: Key)
    requires Valid(t) && |t.servers| <= 2 && a in t.servers && b in t.servers && c in t.servers
    ensures a == b || a == c || b == c
  {
  }

  /** Every server but two relays. */
  lemma {:induction false} RelaysCount(servers: seq<Key>, me: Key, src: Key, pkt: Packet)
    requires Distinct(servers)
    ensures |Relays(servers, me, src, pkt)|
            == |servers| - (if me in servers then 1 else 0) - (if src in servers && src != me then 1 else 0)
  {
    if servers != [] {
      var rest := servers[1..];
      assert forall i :: 0 <= i < |rest| ==> rest[i] == servers[i + 1];
      assert servers[0] !in rest;
      assert forall s :: s in servers <==> s == servers[0] || s in rest;
      RelaysCount(rest, me, src, pkt);
    }
  }

  /** With at most two servers there is at most one relay, and none for a relayed packet. */
  lemma FewRelays(t: Topology, e: OnBus)
    requires Valid(t) && |t.servers| <= 2 && Tagged(t, e)
    ensures |Relays(t.servers, e.server, e.src, e.pkt)| <= if e.src == e.pkt.sender then 1 else 0
  {
    RelaysCount(t.servers, e.server, e.src, e.pkt);
  }

  /** With at most two servers, a relayed packet came straight from its speaker's home. */
  predicate FromHome(t: Topology, e: OnBus) {
    Tagged(t, e) && (e.src != e.pkt.sender ==> e.src in t.clients && e.pkt.sender in t.clients[e.src])
  }

  predicate AllFromHome(t: Topology, pending: seq<OnBus>) { forall i :: 0 <= i < |pending| ==> FromHome(t, pending[i]) }

  /** The one relay of a speaker's packet: to the other server, if there is one. */
  lemma OneRelay(t: Topology, e: OnBus, home: Key)
    requires Valid(t) && |t.servers| <= 2 && Tagged(t, e) && e.src == e.pkt.sender && home in t.servers
    ensures Relays(t.servers, e.server, e.src, e.pkt) == [] ==> home == e.server
    ensures var r := Relays(t.servers, e.server, e.src, e.pkt);
            |r| <= 1 &&
            (|r| == 1 ==> r == [OnBus(r[0].server, e.server, e.pkt)] && r[0].server in t.servers && r[0].server != e.server) &&
            (|r| == 1 && home != e.server ==> r[0].server == home)
  {
    var r := Relays(t.servers, e.server, e.src, e.pkt);
    FewRelays(t, e);
    RelaysExact(t.servers, e.server, e.src, e.pkt);
    assert '@' in e.src && '@' !in home;
    if home != e.server { assert OnBus(home, e.server, e.pkt) in r; }
    if |r| == 1 { assert r[0] in r; }
  }

  lemma RelaysFromHome(t: Topology, e: OnBus)
    requires Valid(t) && |t.servers| <= 2 && FromHome(t, e)
    ensures AllFromHome(t, Relays(t.servers, e.server, e.src, e.pkt))
  {
    FewRelays(t, e);
    RelaysTagged(t, e);
    if e.src == e.pkt.sender { OneRelay(t, e, e.server); }
  }

  lemma NextFromHome(t: Topology, b: Bridge, m: Move)
    requires Valid(t) && |t.servers| <= 2 && AllFromHome(t, b.pending) && Possible(t, b, m)
    ensures AllFromHome(t, Next(t, b, m).pending)
  {
    if m.Deliver? {
      assert FromHome(t, b.pending[m.i]);
      RelaysFromHome(t, b.pending[m.i]);
    }
  }

  /** Handling a bus event turns what was due because of it into what was heard and what is relayed. */
  lemma EventConserves(t: Topology, e: OnBus, home: Key, c: Key, p: Packet)
    requires Valid(t) && |t.servers| <= 2 && FromHome(t, e) && home in t.servers && c in t.clients[home]
    ensures Heard(Listeners(t.clients[e.server], e.src, e.pkt), c, p) + Due(t, Relays(t.servers, e.server, e.src, e.pkt), c, p)
            == if WillHear(t, e, c, p) then 1 else 0
  {
    ListenersCount(t.clients[e.server], e.src, e.pkt, c, p);
    if e.src == e.pkt.sender {
      SpeakerRelays(t, e, home, c, p);
    } else {
      FewRelays(t, e);
      assert '@' in c && '@' !in e.src;
      assert c in t.clients[e.server] ==> c != e.pkt.sender;
    }
  }

  /** What the one relay of a speaker's packet still owes to `c`. */
  lemma SpeakerRelays(t: Topology, e: OnBus, home: Key, c: Key, p: Packet)
    requires Valid(t) && |t.servers| <= 2 && Tagged(t, e) && e.src == e.pkt.sender && home in t.servers && c in t.clients[home]
    ensures Due(t, Relays(t.servers, e.server, e.src, e.pkt), c, p)
            == if e.pkt == p && c != p.sender && home != e.server then 1 else 0
  {
    var r := Relays(t.servers, e.server, e.src, e.pkt);
    OneRelay(t, e, home);
    assert '@' in e.src && '@' !in e.server && '@' !in home;
    if |r| == 1 {
      AtMostTwo(t, r[0].server, e.server, home);
      OneDue(t, r[0], c, p);
    }
  }

  lemma OneDue(t: Topology, e: OnBus, c: Key, p: Packet)
    ensures Due(t, [e], c, p) == if WillHear(t, e, c, p) then 1 else 0
  {
    assert [e][1..] == [] && [e][..0] == [];
  }

  /** Heard so far plus still due. */
  function Balance(t: Topology, b: Bridge, c: Key, p: Packet): nat { Heard(b.heard, c, p) + Due(t, b.pending, c, p) }

  lemma SpeakConserves(t: Topology, b: Bridge, user: Key, h: Key, id: nat, c: Key, p: Packet)
    requires Possible(t, b, Speak(user, h, id))
    ensures Balance(t, Next(t, b, Speak(user, h, id)), c, p)
            == Balance(t, b, c, p) + if c != p.sender && Packet(user, id) == p then 1 else 0
  {
    var e := OnBus(h, user, Packet(user, id));
    DueConcat(t, b.pending, [e], c, p);
    assert Due(t, [e], c, p) == if WillHear(t, e, c, p) then 1 else 0 by { assert [e][1..] == []; }
  }

  lemma DeliverConserves(t: Topology, b: Bridge, i: nat, home: Key, c: Key, p: Packet)
    requires Valid(t) && |t.servers| <= 2 && AllFromHome(t, b.pending) && Possible(t, b, Deliver(i))
    requires home in t.servers && c in t.clients[home]
    ensures Balance(t, Next(t, b, Deliver(i)), c, p) == Balance(t, b, c, p)
  {
    var e := b.pending[i];
    assert FromHome(t, e);
    EventConserves(t, e, home, c, p);
    HeardConcat(b.heard, Listeners(t.clients[e.server], e.src, e.pkt), c, p);
    DueTakeOut(t, b.pending, i, c, p);
    DueConcat(t, b.pending[..i] + b.pending[i + 1..], Relays(t.servers, e.server, e.src, e.pkt), c, p);
  }

  lemma DueTakeOut(t: Topology, a: seq<OnBus>, i: nat, c: Key, p: Packet)
    requires i < |a|
    ensures Due(t, a, c, p) == Due(t, a[..i] + a[i + 1..], c, p) + if WillHear(t, a[i], c, p) then 1 else 0
  {
    assert a == a[..i] + ([a[i]] + a[i + 1..]);
    DueConcat(t, a[..i], [a[i]] + a[i + 1..], c, p);
    assert ([a[i]] + a[i + 1..])[1..] == a[i + 1..];
    DueConcat(t, a[..i], a[i + 1..], c, p);
  }

  /** Conservation over any interleaving: heard plus due is what was spoken, for everyone but the speaker. */
  lemma {:induction false} Conservation(t: Topology, b: Bridge, ms: seq<Move>, home: Key, c: Key, p: Packet)
    requires Valid(t) && |t.servers| <= 2 && AllFromHome(t, b.pending) && Legal(t, b, ms) && home in t.servers && c in t.clients[home]
    ensures var n := Play(t, b, ms);
            Balance(t, n, c, p) == Balance(t, b, c, p) + if c == p.sender then 0 else Spoken(ms, p)
    decreases |ms|
  {
    if ms != [] {
      NextFromHome(t, b, ms[0]);
      match ms[0]
      case Speak(user, h, id) => SpeakConserves(t, b, user, h, id, c, p);
      case Deliver(i) => DeliverConserves(t, b, i, home, c, p);
    }
    if ms != [] {
      Conservation(t, Next(t, b, ms[0]), ms[1..], home, c, p);
    }
  }

  /**
   * With at most two servers, once the buses are empty every client has heard each
   * packet exactly as often as it was spoken, and no client has heard its own.
   */
  lemma ExactlyOnce(t: Topology, ms: seq<Move>, home: Key, c: Key, p: Packet)
    requires Valid(t) && |t.servers| <= 2 && Legal(t, Quiet, ms) && Play(t, Quiet, ms).pending == []
    requires home in t.servers && c in t.clients[home]
    ensures Heard(Play(t, Quiet, ms).heard, c, p) == if c == p.sender then 0 else Spoken(ms, p)
  {
    Conservation(t, Quiet, ms, home, c, p);
  }

  /** Bus events still to come: a packet from a client is relayed at most once more. */
  function Work(pending: seq<OnBus>): nat {
    if pending == [] then 0 else (if pending[0].src == pending[0].pkt.sender then 2 else 1) + Work(pending[1..])
  }

  lemma {:induction false} WorkConcat(a: seq<OnBus>, b: seq<OnBus>)
    ensures Work(a + b) == Work(a) + Work(b)
  {
    if a == [] {
      assert a + b == b;
    } else {
      assert (a + b)[1..] == a[1..] + b;
      WorkConcat(a[1..], b);
    }
  }

  lemma {:induction false} TakeOut(a: seq<OnBus>, i: nat)
    requires i < |a|
    ensures Work(a) == Work(a[..i] + a[i + 1..]) + Work([a[i]])
  {
    assert a == a[..i] + ([a[i]] + a[i + 1..]);
    WorkConcat(a[..i], [a[i]] + a[i + 1..]);
    WorkConcat([a[i]], a[i + 1..]);
    WorkConcat(a[..i], a[i + 1..]);
  }

  lemma RelayedWork(t: Topology, e: OnBus)
    requires Valid(t) && |t.servers| <= 2 && Tagged(t, e)
    ensures Work(Relays(t.servers, e.server, e.src, e.pkt)) < Work([e])
  {
    var r := Relays(t.servers, e.server, e.src, e.pkt);
    FewRelays(t, e);
    RelaysExact(t.servers, e.server, e.src, e.pkt);
    assert [e][1..] == [];
    if |r| == 1 {
      assert r[0] in r && r[1..] == [];
      assert '@' in e.pkt.sender && '@' !in e.server;
    }
  }

  /** Forwarding stops: every handled event brings the end of the work nearer. */
  lemma DeliverProgress(t: Topology, b: Bridge, i: nat)
    requires Valid(t) && |t.servers| <= 2 && AllTagged(t, b.pending) && Possible(t, b, Deliver(i))
    ensures Work(Next(t, b, Deliver(i)).pending) < Work(b.pending)
  {
    var e := b.pending[i];
    TakeOut(b.pending, i);
    RelayedWork(t, e);
    WorkConcat(b.pending[..i] + b.pending[i + 1..], Relays(t.servers, e.server, e.src, e.pkt));
  }

  /** Handling the oldest event first always drains the buses. */
  lemma {:induction false} Drains(t: Topology, b: Bridge) returns (ms: seq<Move>)
    requires Valid(t) && |t.servers| <= 2 && AllTagged(t, b.pending)
    ensures Legal(t, b, ms) && Play(t, b, ms).pending == [] && |ms| <= Work(b.pending)
    decreases Work(b.pending)
  {
    if b.pending == [] {
      ms := [];
    } else {
      assert Tagged(t, b.pending[0]);
      DeliverProgress(t, b, 0);
      NextTagged(t, b, Deliver(0));
      var rest := Drains(t, Next(t, b, Deliver(0)));
      ms := [Deliver(0)] + rest;
      assert ms[1..] == rest;
    }
  }

  // ── three servers and more ────────────────────────────────────────────

  /** With three servers there is always somebody left to relay to. */
  lemma AlwaysRelays(t: Topology, e: OnBus)
    requires Valid(t) && |t.servers| >= 3
    ensures |Relays(t.servers, e.server, e.src, e.pkt)| >= 1
  {
    RelaysCount(t.servers, e.server, e.src, e.pkt);
  }

  /** With three or more servers a spoken packet never leaves the buses again. */
  lemma {:induction false} NeverDrains(t: Topology, b: Bridge, ms: seq<Move>)
    requires Valid(t) && |t.servers| >= 3 && AllTagged(t, b.pending) && b.pending != [] && Legal(t, b, ms)
    ensures Play(t, b, ms).pending != []
    decreases |ms|
  {
    if ms != [] {
      NextTagged(t, b, ms[0]);
      if ms[0].Deliver? { AlwaysRelays(t, b.pending[ms[0].i]); }
      NeverDrains(t, Next(t, b, ms[0]), ms[1..]);
    }
  }

  /** The exact bound of the rule: a packet can leave the buses if and only if the call has at most two servers. */
  lemma BridgeBound(t: Topology, user: Key, home: Key, id: nat)
    requires Valid(t) && home in t.servers && user in t.clients[home]
    ensures var b := Next(t, Quiet, Speak(user, home, id));
            |t.servers| <= 2 <==> exists ms :: Legal(t, b, ms) && Play(t, b, ms).pending == []
  {
    var b := Next(t, Quiet, Speak(user, home, id));
    NextTagged(t, Quiet, Speak(user, home, id));
    if |t.servers| <= 2 {
      var ms := Drains(t, b);
    } else {
      forall ms | Legal(t, b, ms) ensures Play(t, b, ms).pending != [] { NeverDrains(t, b, ms); }
    }
  }

  /** Handling `e` puts a relay to `d` on the buses and writes the packet to a listening client `c`. */
  lemma HandleOne(t: Topology, b: Bridge, e: OnBus, d: Key, c: Key) returns (i: nat)
    requires Valid(t) && e in b.pending && e.server in t.servers
    requires d in t.servers && d != e.server && d != e.src
    ensures Possible(t, b, Deliver(i)) && OnBus(d, e.server, e.pkt) in Next(t, b, Deliver(i)).pending
    ensures c in t.clients[e.server] && c != e.src ==> Heard(Next(t, b, Deliver(i)).heard, c, e.pkt) > 0
  {
    i :| 0 <= i < |b.pending| && b.pending[i] == e;
    RelaysExact(t.servers, e.server, e.src, e.pkt);
    assert OnBus(d, e.server, e.pkt) in Relays(t.servers, e.server, e.src, e.pkt);
    ListenersCount(t.clients[e.server], e.src, e.pkt, c, e.pkt);
    HeardConcat(b.heard, Listeners(t.clients[e.server], e.src, e.pkt), c, e.pkt);
  }

  /** A way over the servers on which nobody relays back to where the packet came from. */
  predicate Walk(t: Topology, at: Key, src: Key, route: seq<Key>)
    decreases |route|
  {
    route == [] ||
    (route[0] in t.servers && route[0] != at && route[0] != src && Walk(t, route[0], at, route[1..]))
  }

  /** The bus event a packet is once it has walked `route`. */
  function Arrived(e: OnBus, route: seq<Key>): OnBus
    decreases |route|
  {
    if route == [] then e else Arrived(OnBus(route[0], e.server, e.pkt), route[1..])
  }

  /** Handling one relay after the other moves a packet along any such way. */
  lemma {:induction false} Travel(t: Topology, b: Bridge, e: OnBus, route: seq<Key>) returns (ms: seq<Move>)
    requires Valid(t) && e in b.pending && e.server in t.servers && Walk(t, e.server, e.src, route)
    ensures Legal(t, b, ms) && Arrived(e, route) in Play(t, b, ms).pending
    decreases |route|
  {
    if route == [] {
      ms := [];
    } else {
      var i := HandleOne(t, b, e, route[0], "");
      var rest := Travel(t, Next(t, b, Deliver(i)), OnBus(route[0], e.server, e.pkt), route[1..]);
      ms := Prepend(t, b, Deliver(i), rest);
    }
  }

  /** With three servers a client can hear its own packet: it comes back by way of the other two. */
  lemma Echo(t: Topology, user: Key, home: Key, id: nat, x: Key, y: Key) returns (ms: seq<Move>)
    requires Valid(t) && home in t.servers && x in t.servers && y in t.servers && user in t.clients[home]
    requires home != x && home != y && x != y
    ensures Legal(t, Quiet, ms) && Heard(Play(t, Quiet, ms).heard, user, Packet(user, id)) > 0
  {
    var pkt, spoken := Packet(user, id), Next(t, Quiet, Speak(user, home, id));
    assert '@' in user && '@' !in home && '@' !in x && '@' !in y;
    EchoRoute(t, user, home, x, y, pkt);
    assert spoken.pending[0] == OnBus(home, user, pkt);
    var there := Travel(t, spoken, OnBus(home, user, pkt), [x, y, home]);
    var back := Play(t, spoken, there);
    var i := HandleOne(t, back, OnBus(home, y, pkt), x, user);
    var last := Append(t, spoken, there, Deliver(i));
    ms := Prepend(t, Quiet, Speak(user, home, id), last);
  }

  lemma EchoRoute(t: Topology, user: Key, home: Key, x: Key, y: Key, pkt: Packet)
    requires home in t.servers && x in t.servers && y in t.servers && home != x && home != y && x != y
    requires user != x && user != y && user != home
    ensures Walk(t, home, user, [x, y, home]) && Arrived(OnBus(home, user, pkt), [x, y, home]) == OnBus(home, y, pkt)
  {
    assert [x, y, home][1..] == [y, home] && [y, home][1..] == [home] && [home][1..] == [];
    assert Walk(t, y, x, [home]) && Walk(t, x, home, [y, home]);
    assert Arrived(OnBus(x, home, pkt), [y, home]) == Arrived(OnBus(y, x, pkt), [home]) == Arrived(OnBus(home, y, pkt), []);
  }

  lemma {:induction false} Append(t: Topology, b: Bridge, ms: seq<Move>, m: Move) returns (all: seq<Move>)
    requires Legal(t, b, ms) && Possible(t, Play(t, b, ms), m)
    ensures Legal(t, b, all) && Play(t, b, all) == Next(t, Play(t, b, ms), m)
    decreases |ms|
  {
    if ms == [] {
      all := Prepend(t, b, m, []);
    } else {
      var rest := Append(t, Next(t, b, ms[0]), ms[1..], m);
      all := Prepend(t, b, ms[0], rest);
    }
  }

  lemma Prepend(t: Topology, b: Bridge, m: Move, rest: seq<Move>) returns (ms: seq<Move>)
    requires Possible(t, b, m) && Legal(t, Next(t, b, m), rest)
    ensures ms == [m] + rest && Legal(t, b, ms) && Play(t, b, ms) == Play(t, Next(t, b, m), rest)
  {
    ms := [m] + rest;
    assert ms[1..] == rest;
  }
}
