// What every run of the guild routes keeps
// (crates/channelserver/src/routes/{guilds,roles,members,invites,channels}.rs).

module GuildLaws {
  import opened Options
  import opened GuildDb
  import opened Perms
  import opened PermLaws
  import opened GuildSpec

  // ── invariant ─────────────────────────────────────────────────────────

  /** No row refers to a row that is gone, roles are only held where they belong, and the owner is a member. */
  predicate Refs(db: Db) {
    (forall m :: m in db.members ==> m.0 in db.guilds) &&
    (forall g :: g in db.guilds ==> (g, db.guilds[g]) in db.members) &&
    (forall r :: r in db.roles ==> db.roles[r].guild in db.guilds) &&
    (forall m :: m in db.memberRoles ==> Assignable(db, m.0, m.2)) &&
    (forall c :: c in db.channels ==> db.channels[c].guild in db.guilds) &&
    db.overrides.Keys <= db.channels.Keys &&
    forall i :: i in db.invites ==> db.invites[i].guild in db.guilds
  }

  ghost predicate HasEveryone(db: Db, g: GuildId) { exists r :: EveryoneIn(db, g, r) }

  ghost predicate SameEveryone(db: Db) {
    forall r, s :: r in db.roles && EveryoneIn(db, db.roles[r].guild, r) && EveryoneIn(db, db.roles[r].guild, s) ==> r == s
  }

  /** Every live guild has exactly one @everyone role. */
  ghost predicate OneEveryone(db: Db) { (forall g :: g in db.guilds ==> HasEveryone(db, g)) && SameEveryone(db) }

  /** A channel hangs under a channel of its own guild, or at the top; its path is spelled accordingly. */
  predicate Hangs(db: Db, c: ChannelId) {
    c in db.channels && '#' !in c &&
    var ch := db.channels[c];
    if ch.parent.None? then ch.path == RootPath(db, ch.guild) + "#" + c
    else
      ch.parent.value in db.channels && db.channels[ch.parent.value].guild == ch.guild &&
      ch.path == db.channels[ch.parent.value].path + "#" + c
  }

  ghost predicate Tree(db: Db) { forall c {:trigger Hangs(db, c)} :: c in db.channels ==> Hangs(db, c) }

  /** An invite is never used more often than it allows. */
  predicate InviteOk(i: Invite) { i.uses >= 0 && (i.maxUses.Some? ==> i.uses == 0 || i.uses <= i.maxUses.value) }

  predicate InvitesOk(db: Db) { forall i :: i in db.invites ==> InviteOk(db.invites[i]) }

  ghost predicate Good(db: Db) { Refs(db) && OneEveryone(db) && MasksWithin(db) && Tree(db) && InvitesOk(db) }

  // ── one request ───────────────────────────────────────────────────────

  lemma DropGuildRefs(db: Db, g: GuildId)
    requires Refs(db) && ChannelsIn(db, g) <= SubtreeOf(db, ChannelsIn(db, g))
    ensures Refs(DropGuild(db, g))
  {
  }

  lemma DropChannelsRefs(db: Db, gone: set<ChannelId>)
    requires Refs(db)
    ensures Refs(DropChannels(db, gone))
  {
  }

  lemma DropRoleRefs(db: Db, gone: set<RoleId>)
    requires Refs(db)
    ensures Refs(DropRoles(db, gone))
  {
  }

  lemma RootsInSubtree(db: Db, roots: set<ChannelId>)
    requires roots <= db.channels.Keys
    ensures roots <= SubtreeOf(db, roots)
  {
  }

  lemma ServeRefs(db: Db, u: UserId, q: Request)
    requires Refs(db) && Drawn(db, q)
    ensures Refs(Serve(db, u, q).0)
  {
    if q.GuildDelete? {
      RootsInSubtree(db, ChannelsIn(db, q.g));
      DropGuildRefs(db, q.g);
    } else if q.ChannelDelete? {
      DropChannelsRefs(db, SubtreeOf(db, {q.c}));
    } else if q.RoleDelete? {
      DropRoleRefs(db, {q.r});
    } else {
      AddKeepsRefs(db, u, q);
    }
  }

  lemma AddKeepsRefs(db: Db, u: UserId, q: Request)
    requires Refs(db) && Drawn(db, q) && !q.GuildDelete? && !q.ChannelDelete? && !q.RoleDelete?
    ensures Refs(Serve(db, u, q).0)
  {
    if q.GuildCreate? {
      GuildRefs(db, u, q);
    } else if q.RoleCreate? || q.RolePatch? {
      RoleRefs(db, u, q);
    } else if q.MemberPatch? || q.MemberRemove? {
      MemberRefs(db, u, q);
    } else if q.InviteAccept? {
      AcceptRefs(db, u, q);
    } else {
      OtherRefs(db, u, q);
    }
  }

  lemma GuildRefs(db: Db, u: UserId, q: Request)
    requires Refs(db) && Drawn(db, q) && q.GuildCreate?
    ensures Refs(Serve(db, u, q).0)
  {
  }

  lemma RoleRefs(db: Db, u: UserId, q: Request)
    requires Refs(db) && Drawn(db, q) && (q.RoleCreate? || q.RolePatch?)
    ensures Refs(Serve(db, u, q).0)
  {
    if May(db, u, q.g, ManageRoles) { MayLive(db, u, q.g, ManageRoles); }
  }

  lemma MemberRefs(db: Db, u: UserId, q: Request)
    requires Refs(db) && (q.MemberPatch? || q.MemberRemove?)
    ensures Refs(Serve(db, u, q).0)
  {
  }

  lemma JoinedRefs(db: Db, g: GuildId, u: UserId)
    requires Refs(db) && g in db.guilds
    ensures Refs(db.(members := db.members + {(g, u)}))
  {
  }

  lemma RepairedRefs(db: Db, g: GuildId, drawn: RoleId)
    requires Refs(db) && g in db.guilds && drawn !in db.roles
    ensures Refs(Repaired(db, g, drawn))
  {
  }

  lemma UsedRefs(db: Db, code: string)
    requires Refs(db)
    ensures Refs(Used(db, code))
  {
  }

  lemma AcceptRefs(db: Db, u: UserId, q: Request)
    requires Refs(db) && Drawn(db, q) && q.InviteAccept?
    ensures Refs(Serve(db, u, q).0)
  {
    if Resolve(db, q.code, q.now) == Done {
      var g := db.invites[q.code].guild;
      var joined := db.(members := db.members + {(g, u)});
      JoinedRefs(db, g, u);
      RepairedRefs(joined, g, q.newRole);
      UsedRefs(Repaired(joined, g, q.newRole), q.code);
    }
  }

  lemma OtherRefs(db: Db, u: UserId, q: Request)
    requires Refs(db) && Drawn(db, q) && (q.InviteCreate? || q.InviteDelete? || q.ChannelCreate? || q.OverridePut?)
    ensures Refs(Serve(db, u, q).0)
  {
    if q.ChannelCreate? { ChannelRefs(db, u, q); } else if q.OverridePut? { OverrideRefs(db, u, q); } else { InviteRefs(db, u, q); }
  }

  lemma InviteRefs(db: Db, u: UserId, q: Request)
    requires Refs(db) && (q.InviteCreate? || q.InviteDelete?)
    ensures Refs(Serve(db, u, q).0)
  {
    if q.InviteCreate? && May(db, u, q.g, Flag.CreateInvite) { MayLive(db, u, q.g, Flag.CreateInvite); }
  }

  lemma ChannelRefs(db: Db, u: UserId, q: Request)
    requires Refs(db) && q.ChannelCreate?
    ensures Refs(Serve(db, u, q).0)
  {
    if May(db, u, q.g, ManageChannels) { MayLive(db, u, q.g, ManageChannels); }
  }

  lemma OverrideRefs(db: Db, u: UserId, q: Request)
    requires Refs(db) && q.OverridePut?
    ensures Refs(Serve(db, u, q).0)
  {
  }

  /** Nobody may do anything in a guild that does not exist. */
  lemma MayLive(db: Db, u: UserId, g: GuildId, f: Flag)
    requires Refs(db) && May(db, u, g, f)
    ensures g in db.guilds
  {
  }

  // ── @everyone ─────────────────────────────────────────────────────────

  /** Roles came or went, but no guild of `db'` lost or gained an @everyone role. */
  lemma EveryoneKept(db: Db, db': Db)
    requires OneEveryone(db) && db'.guilds.Keys <= db.guilds.Keys
    requires forall r, g :: EveryoneIn(db', g, r) ==> EveryoneIn(db, g, r)
    requires forall r, g :: g in db'.guilds && EveryoneIn(db, g, r) ==> EveryoneIn(db', g, r)
    ensures OneEveryone(db')
  {
  }

  lemma ServeEveryone(db: Db, u: UserId, q: Request)
    requires Refs(db) && OneEveryone(db) && Drawn(db, q)
    ensures OneEveryone(Serve(db, u, q).0)
  {
    if q.GuildCreate? {
      NewEveryone(db, u, q);
    } else if q.GuildDelete? || q.RoleCreate? || q.RolePatch? || q.RoleDelete? {
      RoleEveryone(db, u, q);
    } else {
      var db' := Serve(db, u, q).0;
      RolesAlone(db, u, q);
      EveryoneKept(db, db');
    }
  }

  lemma RoleEveryone(db: Db, u: UserId, q: Request)
    requires Refs(db) && OneEveryone(db) && Drawn(db, q)
    requires q.GuildDelete? || q.RoleCreate? || q.RolePatch? || q.RoleDelete?
    ensures OneEveryone(Serve(db, u, q).0)
  {
    if q.GuildDelete? || q.RoleDelete? { DropEveryone(db, u, q); } else { PutEveryone(db, u, q); }
  }

  lemma DropEveryone(db: Db, u: UserId, q: Request)
    requires OneEveryone(db) && (q.GuildDelete? || q.RoleDelete?)
    ensures OneEveryone(Serve(db, u, q).0)
  {
    EveryoneKept(db, Serve(db, u, q).0);
  }

  lemma PutEveryone(db: Db, u: UserId, q: Request)
    requires OneEveryone(db) && Drawn(db, q) && (q.RoleCreate? || q.RolePatch?)
    ensures OneEveryone(Serve(db, u, q).0)
  {
    EveryoneKept(db, Serve(db, u, q).0);
  }

  /** Only creating or deleting a guild and the role routes touch roles; the repair on joining has nothing to do. */
  lemma RolesAlone(db: Db, u: UserId, q: Request)
    requires OneEveryone(db)
    requires !q.GuildCreate? && !q.GuildDelete? && !q.RoleCreate? && !q.RolePatch? && !q.RoleDelete?
    ensures Serve(db, u, q).0.roles == db.roles && Serve(db, u, q).0.guilds == db.guilds
  {
    if q.InviteAccept? && Resolve(db, q.code, q.now) == Done { assert HasEveryone(db, db.invites[q.code].guild); }
  }

  lemma NewEveryone(db: Db, u: UserId, q: Request)
    requires Refs(db) && OneEveryone(db) && Drawn(db, q) && q.GuildCreate?
    ensures OneEveryone(Serve(db, u, q).0)
  {
    var db' := Serve(db, u, q).0;
    forall g | g in db'.guilds ensures HasEveryone(db', g) {
      if g in db.guilds {
        assert HasEveryone(db, g);
        var r :| EveryoneIn(db, g, r);
        assert EveryoneIn(db', g, r);
      } else {
        assert EveryoneIn(db', g, q.everyone);
      }
    }
    forall r, s | r in db'.roles && EveryoneIn(db', db'.roles[r].guild, r) && EveryoneIn(db', db'.roles[r].guild, s) ensures r == s {
      if r in db.roles && s in db.roles { assert EveryoneIn(db, db.roles[r].guild, r) && EveryoneIn(db, db.roles[r].guild, s); }
    }
  }

  lemma ServeMasks(db: Db, u: UserId, q: Request)
    requires MasksWithin(db)
    ensures MasksWithin(Serve(db, u, q).0)
  {
    if q.RoleCreate? || q.RolePatch? || q.OverridePut? { PutMasks(db, u, q); } else { OtherMasks(db, u, q); }
  }

  /** The other requests store the default mask at most. */
  lemma OtherMasks(db: Db, u: UserId, q: Request)
    requires MasksWithin(db) && !q.RoleCreate? && !q.RolePatch? && !q.OverridePut?
    ensures MasksWithin(Serve(db, u, q).0)
  {
  }

  /** Whatever is stored was first cut down to `ALL`. */
  lemma PutMasks(db: Db, u: UserId, q: Request)
    requires MasksWithin(db) && (q.RoleCreate? || q.RolePatch? || q.OverridePut?)
    ensures MasksWithin(Serve(db, u, q).0)
  {
  }

  lemma ServeInvites(db: Db, u: UserId, q: Request)
    requires InvitesOk(db)
    ensures InvitesOk(Serve(db, u, q).0)
  {
  }

  // ── the forest ────────────────────────────────────────────────────────

  /** A channel's parent has a shorter path. */
  lemma ParentShorter(db: Db, c: ChannelId)
    requires Hangs(db, c) && db.channels[c].parent.Some?
    ensures |db.channels[db.channels[c].parent.value].path| < |db.channels[c].path|
  {
  }

  /** Being below a channel depends on the channels alone. */
  lemma {:induction false} SameUnder(db: Db, db': Db, c: ChannelId, r: ChannelId)
    requires db'.channels == db.channels
    ensures Under(db', c, r) == Under(db, c, r)
    decreases if c in db.channels then |db.channels[c].path| else 0
  {
    if c in db.channels && c != r {
      var p := db.channels[c].parent;
      if p.Some? && p.value in db.channels && |db.channels[p.value].path| < |db.channels[c].path| {
        SameUnder(db, db', p.value, r);
      }
    }
  }

  lemma SameSubtree(db: Db, db': Db, roots: set<ChannelId>)
    requires db'.channels == db.channels
    ensures SubtreeOf(db', roots) == SubtreeOf(db, roots)
  {
    forall c, r ensures Under(db', c, r) == Under(db, c, r) { SameUnder(db, db', c, r); }
  }

  lemma DropTree(db: Db, roots: set<ChannelId>, db': Db)
    requires Tree(db) && db'.channels == db.channels - SubtreeOf(db, roots) && db'.domain == db.domain
    ensures Tree(db')
  {
    forall c | c in db'.channels ensures Hangs(db', c) {
      assert Hangs(db, c);
      var p := db.channels[c].parent;
      if p.Some? {
        forall r | r in roots && Under(db, p.value, r) ensures Under(db, c, r) { ParentShorter(db, c); }
      }
    }
  }

  lemma GrowTree(db: Db, db': Db)
    requires Tree(db) && db'.domain == db.domain
    requires forall c :: c in db.channels ==> c in db'.channels && db'.channels[c] == db.channels[c]
    requires forall c :: c in db'.channels && c !in db.channels ==> Hangs(db', c)
    ensures Tree(db')
  {
    forall c | c in db'.channels ensures Hangs(db', c) {
      if c in db.channels { assert Hangs(db, c); }
    }
  }

  lemma ServeTree(db: Db, u: UserId, q: Request)
    requires Tree(db) && Drawn(db, q)
    ensures Tree(Serve(db, u, q).0)
  {
    var db' := Serve(db, u, q).0;
    if q.GuildDelete? {
      if q.g in db.guilds && db.guilds[q.g] == u { DropTree(db, ChannelsIn(db, q.g), db'); }
    } else if q.ChannelDelete? {
      if May(db, u, q.g, ManageChannels) && q.c in db.channels && db.channels[q.c].guild == q.g { DropTree(db, {q.c}, db'); }
    } else if q.GuildCreate? || q.ChannelCreate? {
      MoreTree(db, u, q);
    } else {
      ChannelsAlone(db, u, q);
      GrowTree(db, db');
    }
  }

  lemma MoreTree(db: Db, u: UserId, q: Request)
    requires Tree(db) && Drawn(db, q) && (q.GuildCreate? || q.ChannelCreate?)
    ensures Tree(Serve(db, u, q).0)
  {
    GrowTree(db, Serve(db, u, q).0);
  }

  lemma ChannelsAlone(db: Db, u: UserId, q: Request)
    requires !q.GuildDelete? && !q.ChannelDelete? && !q.GuildCreate? && !q.ChannelCreate?
    ensures Serve(db, u, q).0.channels == db.channels && Serve(db, u, q).0.domain == db.domain
  {
  }

  // ── every run ─────────────────────────────────────────────────────────

  lemma ServeGood(db: Db, u: UserId, q: Request)
    requires Good(db) && Drawn(db, q)
    ensures Good(Serve(db, u, q).0)
  {
    ServeRefs(db, u, q);
    ServeEveryone(db, u, q);
    ServeMasks(db, u, q);
    ServeTree(db, u, q);
    ServeInvites(db, u, q);
  }

  /** Every run keeps the tables consistent. */
  lemma {:induction false} RunGood(db: Db, calls: seq<Call>)
    requires Good(db) && AllDrawn(db, calls)
    ensures Good(ServeAll(db, calls))
    decreases |calls|
  {
    if calls != [] {
      ServeGood(db, calls[0].actor, calls[0].q);
      RunGood(Serve(db, calls[0].actor, calls[0].q).0, calls[1..]);
    }
  }

  lemma ReachableGood(domain: string, creators: set<UserId>, calls: seq<Call>)
    requires AllDrawn(Empty(domain, creators), calls)
    ensures Good(ServeAll(Empty(domain, creators), calls))
  {
    RunGood(Empty(domain, creators), calls);
  }

  /** Whatever was done before, a live guild has one @everyone role and no second one. */
  lemma OneEveryoneRole(domain: string, creators: set<UserId>, calls: seq<Call>, g: GuildId)
    requires AllDrawn(Empty(domain, creators), calls) && g in ServeAll(Empty(domain, creators), calls).guilds
    ensures var db := ServeAll(Empty(domain, creators), calls);
            exists r :: EveryoneIn(db, g, r) && forall s :: EveryoneIn(db, g, s) ==> s == r
  {
    ReachableGood(domain, creators, calls);
    var db := ServeAll(Empty(domain, creators), calls);
    assert HasEveryone(db, g);
    var r :| EveryoneIn(db, g, r);
  }

  // ── authority ─────────────────────────────────────────────────────────

  /** Everything any role of the guild grants. */
  function Authority(db: Db, g: GuildId): Mask { PermsOf(db, RolesIn(db, g)) }

  /** What a caller who is neither owner nor administrator has comes from the roles. */
  lemma CallerInAuthority(db: Db, g: GuildId, u: UserId)
    requires Administrator !in Effective(db, g, u, None)
    ensures Effective(db, g, u, None) <= Authority(db, g)
  {
  }

  lemma OutsiderInAuthority(db: Db, g: GuildId, u: UserId)
    requires !Owns(db, g, u) && Administrator !in Authority(db, g)
    ensures Administrator !in Effective(db, g, u, None)
  {
  }

  /** A new or changed role only carries what the caller already had. */
  lemma GrantInAuthority(db: Db, u: UserId, q: Request, g: GuildId)
    requires (q.RoleCreate? || q.RolePatch?) && Administrator !in Effective(db, g, u, None)
    ensures Authority(Serve(db, u, q).0, g) <= Authority(db, g)
  {
    CallerInAuthority(db, g, u);
  }

  lemma DropInAuthority(db: Db, u: UserId, q: Request, g: GuildId)
    requires q.GuildDelete? || q.RoleDelete?
    ensures Authority(Serve(db, u, q).0, g) <= Authority(db, g)
  {
  }

  /** No request of a caller without ADMINISTRATOR adds to what the guild's roles grant, nor touches the guild's owner. */
  lemma ServeAuthority(db: Db, u: UserId, q: Request, g: GuildId)
    requires OneEveryone(db) && Drawn(db, q) && g in db.guilds && Administrator !in Effective(db, g, u, None)
    ensures Authority(Serve(db, u, q).0, g) <= Authority(db, g)
    ensures g in Serve(db, u, q).0.guilds && Serve(db, u, q).0.guilds[g] == db.guilds[g]
  {
    if q.RoleCreate? || q.RolePatch? {
      GrantInAuthority(db, u, q, g);
    } else if q.GuildDelete? || q.RoleDelete? {
      DropInAuthority(db, u, q, g);
    } else if q.GuildCreate? {
      NewGuildAuthority(db, u, q, g);
    } else {
      RolesAlone(db, u, q);
    }
  }

  lemma NewGuildAuthority(db: Db, u: UserId, q: Request, g: GuildId)
    requires q.GuildCreate? && Drawn(db, q) && g in db.guilds
    ensures Authority(Serve(db, u, q).0, g) == Authority(db, g)
    ensures g in Serve(db, u, q).0.guilds && Serve(db, u, q).0.guilds[g] == db.guilds[g]
  {
    assert RolesIn(Serve(db, u, q).0, g) == RolesIn(db, g);
  }

  /**
   * The condition is exact: where some defined flag is missing from the roles,
   * asking for a role with everything adds a bit if and only if the caller has
   * ADMINISTRATOR in the guild, as its owner always does.
   */
  lemma OnlyAdministratorsExtend(db: Db, u: UserId, g: GuildId, r: RoleId)
    requires OneEveryone(db) && g in db.guilds && r !in db.roles && !(ALL <= Authority(db, g))
    ensures !(Authority(Serve(db, u, RoleCreate(g, true, ALL, r)).0, g) <= Authority(db, g)) <==>
              Administrator in Effective(db, g, u, None)
  {
    var q := RoleCreate(g, true, ALL, r);
    if Administrator in Effective(db, g, u, None) {
      var db' := Serve(db, u, q).0;
      assert db'.roles[r].permissions == ALL * ALL == ALL && r in RolesIn(db', g);
      var f :| f in ALL && f !in Authority(db, g);
      assert f in Authority(db', g);
    } else {
      ServeAuthority(db, u, q, g);
    }
  }

  /**
   * Authority closure: in a guild where no role carries ADMINISTRATOR, no run of
   * requests by anybody but the owner adds a bit to the union of the role masks, so
   * nobody's guild permissions ever exceed that union either.
   */
  lemma {:induction false} AuthorityClosure(db: Db, calls: seq<Call>, g: GuildId, u: UserId)
    requires Good(db) && AllDrawn(db, calls) && g in db.guilds && Administrator !in Authority(db, g)
    requires db.guilds[g] != u && forall i :: 0 <= i < |calls| ==> calls[i].actor != db.guilds[g]
    ensures Authority(ServeAll(db, calls), g) <= Authority(db, g)
    ensures Effective(ServeAll(db, calls), g, u, None) <= Authority(db, g)
    decreases |calls|
  {
    if calls == [] {
      OutsiderInAuthority(db, g, u);
      CallerInAuthority(db, g, u);
    } else {
      ServeGood(db, calls[0].actor, calls[0].q);
      OutsiderInAuthority(db, g, calls[0].actor);
      ServeAuthority(db, calls[0].actor, calls[0].q, g);
      AuthorityClosure(Serve(db, calls[0].actor, calls[0].q).0, calls[1..], g, u);
    }
  }

  // ── invites ───────────────────────────────────────────────────────────

  /** Joining costs exactly one use; accepting again as a member costs none. */
  lemma AcceptCounts(db: Db, u: UserId, code: string, now: real, drawn: RoleId)
    requires code in db.invites
    ensures var (after, reply) := AcceptInvite(db, u, code, now, drawn);
            var g := db.invites[code].guild;
            code in after.invites &&
            after.invites[code].uses == db.invites[code].uses + (if reply == Done && (g, u) !in db.members then 1 else 0) &&
            (reply == Done <==> g in db.guilds && (db.invites[code].expiresAt.Some? ==> now <= db.invites[code].expiresAt.value)
                                && (db.invites[code].maxUses.Some? ==> db.invites[code].uses < db.invites[code].maxUses.value)) &&
            (reply == Done ==> after.members == db.members + {(g, u)}) &&
            AcceptInvite(after, u, code, now, drawn).0 == after
  {
  }

  /** In every run, an invite was used at most as often as it allows. */
  lemma InviteUsesBounded(domain: string, creators: set<UserId>, calls: seq<Call>, code: string)
    requires AllDrawn(Empty(domain, creators), calls) && code in ServeAll(Empty(domain, creators), calls).invites
    ensures InviteOk(ServeAll(Empty(domain, creators), calls).invites[code])
  {
    ReachableGood(domain, creators, calls);
  }
}
