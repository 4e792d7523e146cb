// What each guild route demands, and what it leaves in the tables
// (crates/channelserver/src/routes/{guilds,roles,members,invites,channels}.rs).

module GuildRoutes {
  import opened Options
  import opened GuildDb
  import opened Perms
  import opened PermLaws
  import opened GuildSpec
  import opened GuildLaws
  import opened ChannelForest

  // ── who may do what ───────────────────────────────────────────────────

  /** The owner, or a member with a role that carries the flag or ADMINISTRATOR. */
  predicate Authorized(db: Db, u: UserId, g: GuildId, f: Flag) {
    (g in db.guilds && db.guilds[g] == u) ||
    ((g, u) in db.members && (RoleGives(db, g, u, f) || RoleGives(db, g, u, Administrator)))
  }

  lemma MayIs(db: Db, u: UserId, g: GuildId, f: Flag)
    requires !f.Unused?
    ensures May(db, u, g, f) <==> Authorized(db, u, g, f)
  {
    GuildFlag(db, g, u, f);
    GuildFlag(db, g, u, Administrator);
  }

  /**
   * A channel is guarded likewise, by what reaches the member there. A row that allows
   * ADMINISTRATOR on a channel lets its member through every guard on that channel.
   */
  lemma ChannelGuard(db: Db, g: GuildId, u: UserId, c: ChannelId, f: Flag)
    requires !f.Unused?
    ensures Has(Effective(db, g, u, Some(c)), f) <==>
              (g in db.guilds && db.guilds[g] == u) ||
              ((g, u) in db.members &&
               (RoleGives(db, g, u, Administrator) ||
                (Reaching(db, g, u, c, ViewChannel) && (Reaching(db, g, u, c, f) || Reaching(db, g, u, c, Administrator)))))
  {
    ChannelFlag(db, g, u, c, f);
    ChannelFlag(db, g, u, c, Administrator);
  }

  /** The guild and the flag a request is checked against, if it is. */
  function Demand(db: Db, u: UserId, q: Request): Option<(GuildId, Flag)> {
    match q
    case RoleCreate(g, _, _, _) => Some((g, ManageRoles))
    case RolePatch(g, _, _) => Some((g, ManageRoles))
    case RoleDelete(g, _) => Some((g, ManageRoles))
    case MemberPatch(g, _, _) => Some((g, ManageRoles))
    case MemberRemove(g, target) => if target == u then None else Some((g, KickMembers))
    case InviteCreate(g, _, _, _) => Some((g, Flag.CreateInvite))
    case InviteDelete(g, _) => Some((g, ManageGuild))
    case ChannelCreate(g, _, _, _, _) => Some((g, ManageChannels))
    case ChannelDelete(g, _) => Some((g, ManageChannels))
    case OverridePut(c, _, _, _, _) => if c in db.channels then Some((db.channels[c].guild, ManageRoles)) else None
    case _ => None
  }

  /** Everybody may ask for these; two have a rule of their own. */
  predicate Barred(db: Db, u: UserId, q: Request) {
    match q
    case GuildCreate(_, _, _, _, _) => u !in db.creators
    case GuildDelete(g) => g in db.guilds && db.guilds[g] != u
    case _ => Demand(db, u, q).Some? && !Authorized(db, u, Demand(db, u, q).value.0, Demand(db, u, q).value.1)
  }

  /** A request is refused exactly to those who lack the flag its route is guarded by. */
  lemma RefusedExactly(db: Db, u: UserId, q: Request)
    ensures Serve(db, u, q).1 == Refused <==> Barred(db, u, q)
  {
    if Demand(db, u, q).Some? {
      MayIs(db, u, Demand(db, u, q).value.0, Demand(db, u, q).value.1);
    }
  }

  /** What a request must get right besides. */
  predicate InOrder(db: Db, u: UserId, q: Request) {
    match q
    case GuildCreate(named, _, _, _, _) => named
    case GuildDelete(g) => g in db.guilds
    case RoleCreate(_, named, _, _) => named
    case RolePatch(g, r, _) => r in db.roles && db.roles[r].guild == g
    case RoleDelete(g, r) => r in db.roles && db.roles[r].guild == g && !db.roles[r].isEveryone
    case MemberRemove(g, target) => g in db.guilds && db.guilds[g] != target
    case InviteAccept(code, now, _) =>
      code in db.invites && db.invites[code].guild in db.guilds &&
      (db.invites[code].expiresAt.Some? ==> now <= db.invites[code].expiresAt.value) &&
      (db.invites[code].maxUses.Some? ==> db.invites[code].uses < db.invites[code].maxUses.value)
    case ChannelCreate(g, named, kind, parent, _) =>
      named && (kind == "text" || kind == "voice" || kind == "category") &&
      (parent.Some? ==> parent.value in db.channels && db.channels[parent.value].guild == g)
    case OverridePut(c, kind, _, _, _) => c in db.channels && (kind == "role" || kind == "member")
    case _ => true
  }

  /** A request succeeds exactly if the caller may make it and it is in order; otherwise nothing changes. */
  lemma DoneExactly(db: Db, u: UserId, q: Request)
    ensures Serve(db, u, q).1 == Done <==> !Barred(db, u, q) && InOrder(db, u, q)
    ensures Serve(db, u, q).1 != Done ==> Serve(db, u, q).0 == db
  {
    RefusedExactly(db, u, q);
  }

  /** What a request names and is not there. */
  predicate NamesNothing(db: Db, q: Request) {
    match q
    case GuildDelete(g) => g !in db.guilds
    case RolePatch(g, r, _) => r !in db.roles || db.roles[r].guild != g
    case RoleDelete(g, r) => r !in db.roles || db.roles[r].guild != g
    case MemberRemove(g, _) => g !in db.guilds
    case InviteAccept(code, now, _) => code !in db.invites || (db.invites[code].guild !in db.guilds && !RunOut(db.invites[code], now))
    case ChannelCreate(_, named, kind, parent, _) =>
      named && (kind == "text" || kind == "voice" || kind == "category") && parent.Some? && parent.value !in db.channels
    case OverridePut(c, _, _, _, _) => c !in db.channels
    case _ => false
  }

  predicate RunOut(i: Invite, now: real) {
    (i.expiresAt.Some? && i.expiresAt.value < now) || (i.maxUses.Some? && i.maxUses.value <= i.uses)
  }

  /** Which answer a request gets that is neither refused nor done. */
  lemma FailureExactly(db: Db, u: UserId, q: Request)
    ensures Serve(db, u, q).1 == Missing <==> !Barred(db, u, q) && NamesNothing(db, q)
    ensures Serve(db, u, q).1 == Expired <==> q.InviteAccept? && q.code in db.invites && RunOut(db.invites[q.code], q.now)
  {
    RefusedExactly(db, u, q);
  }

  /** Which tables a request can change at all: who belongs, and with which roles. */
  lemma PeopleTouched(db: Db, u: UserId, q: Request)
    ensures var db' := Serve(db, u, q).0;
            (!q.GuildCreate? && !q.GuildDelete? ==> db'.guilds == db.guilds) &&
            (!q.GuildCreate? && !q.GuildDelete? && !q.MemberRemove? && !q.InviteAccept? ==> db'.members == db.members) &&
            (!q.GuildDelete? && !q.RoleDelete? && !q.MemberPatch? && !q.MemberRemove? ==> db'.memberRoles == db.memberRoles)
  {
  }

  /** None changes the server's name or who may make guilds. */
  lemma ServerStays(db: Db, u: UserId, q: Request)
    ensures Serve(db, u, q).0.domain == db.domain && Serve(db, u, q).0.creators == db.creators
  {
  }

  /** Where things are said. */
  lemma ChannelsTouched(db: Db, u: UserId, q: Request)
    ensures var db' := Serve(db, u, q).0;
            (!q.GuildCreate? && !q.GuildDelete? && !q.ChannelCreate? && !q.ChannelDelete? ==> db'.channels == db.channels) &&
            (!q.GuildDelete? && !q.ChannelDelete? && !q.OverridePut? ==> db'.overrides == db.overrides)
  {
  }

  /** How one comes in, and as what. */
  lemma RolesTouched(db: Db, u: UserId, q: Request)
    ensures !q.GuildDelete? && !q.InviteCreate? && !q.InviteDelete? && !q.InviteAccept? ==> Serve(db, u, q).0.invites == db.invites
    ensures q.GuildCreate? || q.GuildDelete? || q.RoleCreate? || q.RolePatch? || q.RoleDelete? || q.InviteAccept? ||
            Serve(db, u, q).0.roles == db.roles
  {
  }

  // ── what is stored ────────────────────────────────────────────────────

  /** A changed role keeps its guild and kind, and carries the wanted, defined flags the caller has, or all of them if the caller is an administrator. */
  lemma PatchedMask(db: Db, u: UserId, g: GuildId, r: RoleId, wanted: Option<Mask>, f: Flag)
    requires PatchRole(db, u, g, r, wanted).1 == Done
    ensures var db' := PatchRole(db, u, g, r, wanted).0;
            r in db.roles && r in db'.roles && db'.roles[r].guild == g && db'.roles[r].isEveryone == db.roles[r].isEveryone &&
            db' == db.(roles := db.roles[r := db'.roles[r]]) &&
            (f in db'.roles[r].permissions <==>
               if wanted.None? then f in db.roles[r].permissions
               else f in wanted.value && !f.Unused? && Authorized(db, u, g, f))
  {
    DefinedFlags(f);
    GuildFlag(db, g, u, f);
    GuildFlag(db, g, u, Administrator);
    assert wanted.None? ==> db.roles[r := db.roles[r]] == db.roles;
  }

  /** A deleted role is nobody's any more; every other role is had by the same members, with the same flags. */
  lemma DeletedRoleOnly(db: Db, u: UserId, g: GuildId, r: RoleId, g2: GuildId, v: UserId, r2: RoleId)
    requires DeleteRole(db, u, g, r).1 == Done
    ensures var db' := DeleteRole(db, u, g, r).0;
            (Holds(db', g2, v, r2) <==> Holds(db, g2, v, r2) && r2 != r) &&
            (r2 in db.roles && r2 != r ==> r2 in db'.roles && db'.roles[r2] == db.roles[r2])
  {
  }

  /**
   * A new channel hangs where it was asked for: its chain is its parent's with one more
   * id, it has no rows of its own, and nothing else in the tables changes.
   */
  lemma NewChannel(db: Db, u: UserId, g: GuildId, named: bool, kind: string, parent: Option<ChannelId>, c: ChannelId)
    requires Tree(db) && Refs(db) && c !in db.channels && CreateChannel(db, u, g, named, kind, parent, c).1 == Done
    ensures var db' := CreateChannel(db, u, g, named, kind, parent, c).0;
            c in db'.channels && db' == db.(channels := db.channels[c := db'.channels[c]]) &&
            db'.channels[c].guild == g && db'.channels[c].parent == parent && db'.channels[c].kind == kind &&
            Chain(db', c) == (if parent.Some? then Chain(db, parent.value) else []) + [c] && c !in db'.overrides
  {
    var db' := CreateChannel(db, u, g, named, kind, parent, c).0;
    if parent.Some? {
      SameChain(db, db', parent.value, c);
      assert |db'.channels[parent.value].path| < |db'.channels[c].path|;
    }
  }

  lemma {:induction false} SameChain(db: Db, db': Db, d: ChannelId, c: ChannelId)
    requires Tree(db) && c !in db.channels && c in db'.channels && d in db.channels && db'.channels == db.channels[c := db'.channels[c]]
    ensures Chain(db', d) == Chain(db, d)
    decreases |db.channels[d].path|
  {
    assert Hangs(db, d);
    if db.channels[d].parent.Some? { SameChain(db, db', db.channels[d].parent.value, c); }
  }

  /** So it is hidden with its category, and goes when any channel above it is deleted. */
  lemma NewChannelBelow(db: Db, u: UserId, g: GuildId, named: bool, kind: string, k: ChannelId, c: ChannelId, top: ChannelId)
    requires Tree(db) && Refs(db) && c !in db.channels && CreateChannel(db, u, g, named, kind, Some(k), c).1 == Done
    requires top in Chain(db, k)
    ensures var db' := CreateChannel(db, u, g, named, kind, Some(k), c).0;
            ParentOf(db', c) == Some(k) && c in SubtreeOf(db', {top})
  {
    NewChannel(db, u, g, named, kind, Some(k), c);
    var db' := CreateChannel(db, u, g, named, kind, Some(k), c).0;
    assert top in Chain(db', c);
    UnderIsChain(db', c, top);
  }

  /** A new guild: its owner is its one member, its one role is @everyone, and its channels are one text and one voice channel. */
  lemma NewGuildTables(db: Db, u: UserId, named: bool, g: GuildId, everyone: RoleId, text: ChannelId, voice: ChannelId)
    requires Refs(db) && Drawn(db, GuildCreate(named, g, everyone, text, voice))
    requires CreateGuild(db, u, named, g, everyone, text, voice).1 == Done
    ensures var db' := CreateGuild(db, u, named, g, everyone, text, voice).0;
            g in db'.guilds && db'.guilds[g] == u && (forall v :: (g, v) in db'.members <==> v == u) &&
            RolesIn(db', g) == {everyone} && db'.roles[everyone].isEveryone && ChannelsIn(db', g) == {text, voice} &&
            db'.channels[text].kind == "text" && db'.channels[voice].kind == "voice" &&
            db'.channels[text].parent.None? && db'.channels[voice].parent.None?
    ensures forall f :: f in CreateGuild(db, u, named, g, everyone, text, voice).0.roles[everyone].permissions <==>
                        f.ViewChannel? || f.SendMessages? || f.Connect? || f.Speak? || f.CreateInvite?
  {
  }

  /** A new invite is unused and lets a stranger in until it expires, unless it allows no use at all. */
  lemma NewInvite(db: Db, u: UserId, g: GuildId, code: string, maxUses: Option<int>, expiresAt: Option<real>, v: UserId, now: real, drawn: RoleId)
    requires GuildSpec.CreateInvite(db, u, g, code, maxUses, expiresAt).1 == Done && g in db.guilds && (g, v) !in db.members
    ensures var db' := GuildSpec.CreateInvite(db, u, g, code, maxUses, expiresAt).0;
            var (after, reply) := AcceptInvite(db', v, code, now, drawn);
            ((g, v) in after.members <==> (expiresAt.Some? ==> now <= expiresAt.value) && (maxUses.Some? ==> maxUses.value > 0)) &&
            forall i :: i in db.invites && i != code ==> i in db'.invites && db'.invites[i] == db.invites[i]
  {
  }

  /** A deleted invite is gone, if it is the guild's; no other goes. */
  lemma DeletedInvite(db: Db, u: UserId, g: GuildId, code: string, i: string)
    requires DeleteInvite(db, u, g, code).1 == Done
    ensures var db' := DeleteInvite(db, u, g, code).0;
            (i in db'.invites <==> i in db.invites && !(i == code && db.invites[i].guild == g)) &&
            (i in db'.invites ==> db'.invites[i] == db.invites[i]) && db' == db.(invites := db'.invites)
  {
  }

  /** Whoever joins finds an @everyone role, and joining brings no role but that. */
  lemma JoinedRoles(db: Db, u: UserId, code: string, now: real, drawn: RoleId, r: RoleId)
    requires Refs(db) && drawn !in db.roles && code in db.invites && (db.invites[code].guild, u) !in db.members
    requires AcceptInvite(db, u, code, now, drawn).1 == Done
    ensures var db' := AcceptInvite(db, u, code, now, drawn).0;
            var g := db.invites[code].guild;
            HasEveryone(db', g) && (r in db'.roles && db'.roles[r].isEveryone && db'.roles[r].guild == g ==> Holds(db', g, u, r)) &&
            db'.memberRoles == db.memberRoles
  {
    var db' := AcceptInvite(db, u, code, now, drawn).0;
    var g := db.invites[code].guild;
    if HasEveryone(db, g) {
      var e :| EveryoneIn(db, g, e);
      assert EveryoneIn(db', g, e);
    } else {
      assert forall e :: EveryoneIn(db.(members := db.members + {(g, u)}), g, e) ==> EveryoneIn(db, g, e);
      assert EveryoneIn(db', g, drawn);
    }
  }
}
