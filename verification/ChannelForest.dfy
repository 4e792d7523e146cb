// The channel tree of a guild: parents, paths and deletion
// (crates/channelserver/src/routes/channels.rs), and the voice rooms keyed by
// path (crates/channelserver/src/routes/voice.rs).

module ChannelForest {
  import opened Options
  import opened Sequences
  import opened GuildDb
  import opened GuildSpec
  import opened GuildLaws
  import opened Signal
  import Calls = ManagerSpec
  import CallRuns

  // ── chains ────────────────────────────────────────────────────────────

  /** The ids from the root down to `c`. */
  function Chain(db: Db, c: ChannelId): seq<ChannelId>
    decreases if c in db.channels then |db.channels[c].path| else 0
  {
    if c !in db.channels then []
    else
      var p := db.channels[c].parent;
      (if p.Some? && p.value in db.channels && |db.channels[p.value].path| < |db.channels[c].path| then Chain(db, p.value) else []) + [c]
  }

  /** Each id after a '#'. */
  function Spell(ids: seq<ChannelId>): string { if ids == [] then "" else Spell(ids[..|ids| - 1]) + "#" + ids[|ids| - 1] }

  lemma {:induction false} PathSpells(db: Db, c: ChannelId)
    requires Tree(db) && c in db.channels
    ensures db.channels[c].path == RootPath(db, db.channels[c].guild) + Spell(Chain(db, c))
    decreases |db.channels[c].path|
  {
    assert Hangs(db, c);
    var ids, p := Chain(db, c), db.channels[c].parent;
    assert ids[..|ids| - 1] == if p.Some? then Chain(db, p.value) else [];
    assert Spell(ids) == Spell(ids[..|ids| - 1]) + "#" + c;
    if p.Some? {
      PathSpells(db, p.value);
      assert db.channels[c].path == RootPath(db, db.channels[c].guild) + Spell(Chain(db, p.value)) + "#" + c;
    }
  }

  /** A channel's path is its server and guild followed by the ids of its chain. */
  lemma PathSpellsChain(db: Db, c: ChannelId)
    requires Tree(db) && c in db.channels
    ensures db.channels[c].path == db.domain + "#" + db.channels[c].guild + Spell(Chain(db, c))
  {
    PathSpells(db, c);
  }

  /** Walking up from `c` meets exactly the channels of its chain. */
  lemma {:induction false} UnderIsChain(db: Db, c: ChannelId, root: ChannelId)
    ensures Under(db, c, root) <==> root in Chain(db, c)
    decreases if c in db.channels then |db.channels[c].path| else 0
  {
    if c in db.channels {
      var p := db.channels[c].parent;
      if p.Some? && p.value in db.channels && |db.channels[p.value].path| < |db.channels[c].path| {
        UnderIsChain(db, p.value, root);
      }
    }
  }

  /** No channel is met twice on the way up: the parent relation has no cycle. */
  lemma {:induction false} ChainDistinct(db: Db, c: ChannelId, i: nat, j: nat)
    requires Tree(db) && c in db.channels && i < j < |Chain(db, c)|
    ensures Chain(db, c)[i] in db.channels && Chain(db, c)[j] in db.channels
    ensures |db.channels[Chain(db, c)[i]].path| < |db.channels[Chain(db, c)[j]].path|
    ensures db.channels[Chain(db, c)[i]].guild == db.channels[c].guild
    decreases |db.channels[c].path|
  {
    assert Hangs(db, c);
    var p := db.channels[c].parent;
    if p.Some? {
      if j < |Chain(db, c)| - 1 {
        ChainDistinct(db, p.value, i, j);
      } else if i < |Chain(db, c)| - 2 {
        ChainDistinct(db, p.value, i, |Chain(db, p.value)| - 1);
      }
    }
  }

  /** In every run: a parent exists, in the same guild, and the path extends its path. */
  lemma ChannelsHang(domain: string, creators: set<UserId>, calls: seq<Call>, c: ChannelId)
    requires AllDrawn(Empty(domain, creators), calls)
    requires c in ServeAll(Empty(domain, creators), calls).channels
    ensures Hangs(ServeAll(Empty(domain, creators), calls), c)
  {
    ReachableGood(domain, creators, calls);
  }

  // ── deletion ──────────────────────────────────────────────────────────

  /** Deleting a channel takes exactly the channels below it, with their override rows, and nothing else. */
  lemma DeleteExact(db: Db, u: UserId, g: GuildId, c: ChannelId, d: ChannelId)
    requires GuildSpec.May(db, u, g, ManageChannels) && c in db.channels && db.channels[c].guild == g
    ensures var db' := DeleteChannel(db, u, g, c).0;
            (d in db'.channels <==> d in db.channels && c !in Chain(db, d)) &&
            (d in db'.channels ==> db'.channels[d] == db.channels[d] && ScopeOf(db', d) == ScopeOf(db, d)) &&
            (d in db.channels && c in Chain(db, d) ==> d !in db'.overrides)
  {
    UnderIsChain(db, d, c);
  }

  // ── paths tell channels apart ─────────────────────────────────────────

  lemma PathsInjective(db: Db, c: ChannelId, d: ChannelId)
    requires Tree(db) && c in db.channels && d in db.channels && db.channels[c].path == db.channels[d].path
    ensures c == d
  {
    assert Hangs(db, c) && Hangs(db, d);
    var a := if db.channels[c].parent.Some? then db.channels[db.channels[c].parent.value].path else RootPath(db, db.channels[c].guild);
    var b := if db.channels[d].parent.Some? then db.channels[db.channels[d].parent.value].path else RootPath(db, db.channels[d].guild);
    LastSegment(a, b, '#', c, d);
  }

  /**
   * Whatever happened to the guilds and to the calls, the rooms of two live channels
   * are different calls.
   */
  lemma RoomsNotShared(domain: string, creators: set<UserId>, calls: seq<Call>, ops: seq<Calls.Op>, c: ChannelId, d: ChannelId)
    requires AllDrawn(Empty(domain, creators), calls) && Calls.Legal(Calls.Init, ops)
    requires var db, m := ServeAll(Empty(domain, creators), calls), Calls.Run(Calls.Init, ops);
             c in db.channels && d in db.channels && c != d &&
             db.channels[c].path in m.rooms && db.channels[d].path in m.rooms
    ensures var db, m := ServeAll(Empty(domain, creators), calls), Calls.Run(Calls.Init, ops);
            m.rooms[db.channels[c].path] != m.rooms[db.channels[d].path]
  {
    var db := ServeAll(Empty(domain, creators), calls);
    ReachableGood(domain, creators, calls);
    if db.channels[c].path == db.channels[d].path { PathsInjective(db, c, d); }
    CallRuns.RoomsDistinct(ops, db.channels[c].path, db.channels[d].path);
  }
}
