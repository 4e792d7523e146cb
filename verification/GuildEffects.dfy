// What the guild routes mean for what users may do afterwards
// (crates/channelserver/src/routes/{guilds,roles,members,invites,channels}.rs seen
// through crates/channelserver/src/perms.rs).

module GuildEffects {
  import opened Options
  import opened GuildDb
  import opened Perms
  import opened PermLaws
  import opened GuildSpec
  import opened GuildLaws

  function EveryoneRoles(db: Db, g: GuildId): set<RoleId> { set r | r in db.roles && EveryoneIn(db, g, r) }

  /** Permissions depend on nothing but these. */
  predicate SameFor(db: Db, db': Db, g: GuildId, u: UserId) {
    (Owns(db', g, u) <==> Owns(db, g, u)) && ((g, u) in db'.members <==> (g, u) in db.members) &&
    MyRoles(db', g, u) == MyRoles(db, g, u) && Base(db', g, u) == Base(db, g, u) &&
    db'.channels == db.channels && db'.overrides == db.overrides
  }

  lemma SameEffective(db: Db, db': Db, g: GuildId, u: UserId, c: Option<ChannelId>)
    requires SameFor(db, db', g, u)
    ensures Effective(db', g, u, c) == Effective(db, g, u, c)
  {
  }

  // ── roles ─────────────────────────────────────────────────────────────

  /** A new role carries exactly the wanted, defined flags, unless the caller is no administrator: then only the caller's own among them. */
  lemma NewRoleMask(db: Db, u: UserId, g: GuildId, named: bool, wanted: Mask, r: RoleId, f: Flag)
    requires CreateRole(db, u, g, named, wanted, r).1 == Done
    ensures var db' := CreateRole(db, u, g, named, wanted, r).0;
            r in db'.roles && db'.roles[r].guild == g && !db'.roles[r].isEveryone &&
            (f in db'.roles[r].permissions <==>
               f in wanted && f in ALL && (f in Effective(db, g, u, None) || Administrator in Effective(db, g, u, None)))
  {
  }

  /** After its role set was replaced, a user holds exactly @everyone and the requested assignable roles; nobody else's roles change. */
  lemma PatchedRoles(db: Db, u: UserId, g: GuildId, target: UserId, wanted: seq<RoleId>, g2: GuildId, v: UserId)
    requires PatchMember(db, u, g, target, wanted).1 == Done
    ensures var db' := PatchMember(db, u, g, target, wanted).0;
            MyRoles(db', g2, v) ==
              if g2 == g && v == target then EveryoneRoles(db, g) + set r | r in wanted && Assignable(db, g, r)
              else MyRoles(db, g2, v)
  {
  }

  /** Deleting a role takes it from everybody and can only take permissions away in the guild. */
  lemma DeletedRole(db: Db, u: UserId, g: GuildId, r: RoleId, g2: GuildId, v: UserId)
    requires DeleteRole(db, u, g, r).1 == Done
    ensures var db' := DeleteRole(db, u, g, r).0;
            MyRoles(db', g2, v) == MyRoles(db, g2, v) - {r} && Base(db', g2, v) <= Base(db, g2, v) &&
            EveryoneRoles(db', g2) == EveryoneRoles(db, g2)
  {
  }

  // ── members ───────────────────────────────────────────────────────────

  /** Whoever was removed may do nothing any more, and nobody else notices. */
  lemma RemovedMember(db: Db, u: UserId, g: GuildId, target: UserId, g2: GuildId, v: UserId, c: Option<ChannelId>)
    requires RemoveMember(db, u, g, target).1 == Done
    ensures var db' := RemoveMember(db, u, g, target).0;
            Effective(db', g2, v, c) == if g2 == g && v == target then {} else Effective(db, g2, v, c)
  {
    var db' := RemoveMember(db, u, g, target).0;
    if !(g2 == g && v == target) {
      assert MyRoles(db', g2, v) == MyRoles(db, g2, v);
      assert Base(db', g2, v) == Base(db, g2, v);
      SameEffective(db, db', g2, v, c);
    }
  }

  /** What a member without assigned roles has in the guild. */
  function EveryonePerms(db: Db, g: GuildId): Mask { PermsOf(db, EveryoneRoles(db, g)) }

  lemma Rejoined(db: Db, u: UserId, g: GuildId, target: UserId, code: string, now: real, drawn: RoleId)
    requires OneEveryone(db) && drawn !in db.roles && RemoveMember(db, u, g, target).1 == Done
    requires var removed := RemoveMember(db, u, g, target).0;
             AcceptInvite(removed, target, code, now, drawn).1 == Done && code in db.invites && db.invites[code].guild == g
    ensures var again := AcceptInvite(RemoveMember(db, u, g, target).0, target, code, now, drawn).0;
            (g, target) in again.members && !Owns(again, g, target) && MyRoles(again, g, target) == EveryoneRoles(db, g) &&
            Base(again, g, target) == EveryonePerms(db, g) && again.channels == db.channels && again.overrides == db.overrides
  {
    var removed := RemoveMember(db, u, g, target).0;
    var again := AcceptInvite(removed, target, code, now, drawn).0;
    assert HasEveryone(db, g);
    var e :| EveryoneIn(db, g, e);
    assert EveryoneIn(removed, g, e);
    assert again.roles == db.roles && again.memberRoles == removed.memberRoles;
  }

  /**
   * Removing and joining again does not bring roles back, and does not clear the rows
   * about the user: in the guild the user has @everyone's permissions, and on a channel
   * those of @everyone's rows and the user's own rows, which apply again as they stood.
   */
  lemma RejoinStartsOver(db: Db, u: UserId, g: GuildId, target: UserId, code: string, now: real, drawn: RoleId, c: ChannelId)
    requires OneEveryone(db) && drawn !in db.roles && RemoveMember(db, u, g, target).1 == Done
    requires var removed := RemoveMember(db, u, g, target).0;
             AcceptInvite(removed, target, code, now, drawn).1 == Done && code in db.invites && db.invites[code].guild == g
    ensures var again := AcceptInvite(RemoveMember(db, u, g, target).0, target, code, now, drawn).0;
            (g, target) in again.members && MyRoles(again, g, target) == EveryoneRoles(db, g) &&
            Effective(again, g, target, None) ==
              (if Administrator in EveryonePerms(db, g) then ALL else EveryonePerms(db, g)) &&
            Effective(again, g, target, Some(c)) ==
              (if Administrator in EveryonePerms(db, g) then ALL
               else Gate(Through(db, EveryoneRoles(db, g), target, c, EveryonePerms(db, g))))
  {
    var again := AcceptInvite(RemoveMember(db, u, g, target).0, target, code, now, drawn).0;
    Rejoined(db, u, g, target, code, now, drawn);
    SameThrough(db, again, EveryoneRoles(db, g), target, c, EveryonePerms(db, g));
  }

  lemma SameThrough(db: Db, db': Db, mine: set<RoleId>, u: UserId, c: ChannelId, p: Mask)
    requires db'.channels == db.channels && db'.overrides == db.overrides
    ensures Through(db', mine, u, c, p) == Through(db, mine, u, c, p)
  {
    assert ParentOf(db', c) == ParentOf(db, c) && ScopeOf(db', c) == ScopeOf(db, c);
  }

  /** So what a channel's row allowed a user before, it allows again, unless the channel stays hidden. */
  lemma OwnRowReturns(db: Db, mine: set<RoleId>, u: UserId, c: ChannelId, p: Mask)
    ensures Gate(Through(db, mine, u, c, p)) == {} || RowAt(ScopeOf(db, c), MemberTarget(u)).allow <= Gate(Through(db, mine, u, c, p))
    ensures ViewChannel in RowAt(ScopeOf(db, c), MemberTarget(u)).allow ==> ViewChannel in Gate(Through(db, mine, u, c, p))
  {
  }

  // ── guilds ────────────────────────────────────────────────────────────

  /** In a new guild the creator may do everything, and another user who joins exactly what @everyone starts with, also in both channels. */
  lemma NewGuildPermissions(db: Db, u: UserId, named: bool, g: GuildId, everyone: RoleId, text: ChannelId, voice: ChannelId, v: UserId, c: ChannelId)
    requires Refs(db) && Drawn(db, GuildCreate(named, g, everyone, text, voice)) && CreateGuild(db, u, named, g, everyone, text, voice).1 == Done
    requires v != u && (c == text || c == voice)
    ensures var db' := CreateGuild(db, u, named, g, everyone, text, voice).0;
            var joined := db'.(members := db'.members + {(g, v)});
            Effective(db', g, u, Some(c)) == ALL && Effective(db', g, v, None) == {} &&
            Effective(joined, g, v, None) == EVERYONE_DEFAULT && Effective(joined, g, v, Some(c)) == EVERYONE_DEFAULT
  {
    var db' := CreateGuild(db, u, named, g, everyone, text, voice).0;
    NewcomerBase(db, u, named, g, everyone, text, voice, v, c);
    LayerNothing({everyone}, v, EVERYONE_DEFAULT);
  }

  lemma NewcomerBase(db: Db, u: UserId, named: bool, g: GuildId, everyone: RoleId, text: ChannelId, voice: ChannelId, v: UserId, c: ChannelId)
    requires Refs(db) && Drawn(db, GuildCreate(named, g, everyone, text, voice)) && CreateGuild(db, u, named, g, everyone, text, voice).1 == Done
    requires c == text || c == voice
    ensures var db' := CreateGuild(db, u, named, g, everyone, text, voice).0;
            var joined := db'.(members := db'.members + {(g, v)});
            MyRoles(joined, g, v) == {everyone} && Base(joined, g, v) == EVERYONE_DEFAULT &&
            ScopeOf(joined, c) == map[] && ParentOf(joined, c).None? && (g, v) !in db.members
  {
  }

  lemma {:induction false} BelowSameGuild(db: Db, c: ChannelId, r: ChannelId)
    requires Tree(db) && Under(db, c, r)
    ensures r in db.channels && db.channels[c].guild == db.channels[r].guild
    decreases |db.channels[c].path|
  {
    assert Hangs(db, c);
    if c != r { BelowSameGuild(db, db.channels[c].parent.value, r); }
  }

  /** What hangs below a guild's channels is the guild's. */
  lemma GuildSubtree(db: Db, g: GuildId)
    requires Tree(db)
    ensures SubtreeOf(db, ChannelsIn(db, g)) == ChannelsIn(db, g)
  {
    RootsInSubtree(db, ChannelsIn(db, g));
    forall c, r | r in ChannelsIn(db, g) && Under(db, c, r) ensures c in ChannelsIn(db, g) { BelowSameGuild(db, c, r); }
  }

  lemma DroppedRows(db: Db, g: GuildId)
    requires Refs(db)
    ensures var db' := DropGuild(db, g);
            g !in db'.guilds && RolesIn(db', g) == {} &&
            (forall v :: (g, v) !in db'.members) && (forall m :: m in db'.memberRoles ==> m.0 != g) &&
            (forall r :: r in db.roles && db.roles[r].guild != g ==> r in db'.roles && db'.roles[r] == db.roles[r]) &&
            (forall i :: i in db'.invites <==> i in db.invites && db.invites[i].guild != g)
  {
  }

  lemma DroppedChannels(db: Db, g: GuildId)
    requires Tree(db)
    ensures DropGuild(db, g).channels == db.channels - ChannelsIn(db, g)
    ensures DropGuild(db, g).overrides == db.overrides - ChannelsIn(db, g)
  {
    GuildSubtree(db, g);
    SameSubtree(db, DropRoles(db, RolesIn(db, g)), ChannelsIn(db, g));
  }

  /** A deleted guild leaves nothing behind, and the rows of every other guild are as they were. */
  lemma DeletedGuild(db: Db, u: UserId, g: GuildId)
    requires Refs(db) && Tree(db) && DeleteGuild(db, u, g).1 == Done
    ensures var db' := DeleteGuild(db, u, g).0;
            g !in db'.guilds && RolesIn(db', g) == {} && ChannelsIn(db', g) == {} &&
            (forall v :: (g, v) !in db'.members) && (forall m :: m in db'.memberRoles ==> m.0 != g) &&
            (forall r :: r in db.roles && db.roles[r].guild != g ==> r in db'.roles && db'.roles[r] == db.roles[r]) &&
            (forall c :: c in db.channels && db.channels[c].guild != g ==>
               c in db'.channels && db'.channels[c] == db.channels[c] && ScopeOf(db', c) == ScopeOf(db, c)) &&
            (forall i :: i in db'.invites <==> i in db.invites && db.invites[i].guild != g)
  {
    DroppedRows(db, g);
    DroppedChannels(db, g);
  }

  // ── overrides ─────────────────────────────────────────────────────────

  /** A stored override row is what a later look-up finds, cut down to the defined flags, and none is kept if nothing is left of it; no other row of any channel changes. */
  lemma StoredOverride(db: Db, u: UserId, c: ChannelId, kind: string, id: string, allow: Mask, deny: Mask, d: ChannelId, t: Target)
    requires PutOverride(db, u, c, kind, id, allow, deny).1 == Done
    ensures var db' := PutOverride(db, u, c, kind, id, allow, deny).0;
            var target := if kind == "role" then RoleTarget(id) else MemberTarget(id);
            RowAt(ScopeOf(db', d), t) == (if d == c && t == target then Override(allow * ALL, deny * ALL) else RowAt(ScopeOf(db, d), t)) &&
            (t in ScopeOf(db', d) <==> if d == c && t == target then (allow + deny) * ALL != {} else t in ScopeOf(db, d))
  {
  }

  /** A row that denies viewing to one member hides the channel from exactly that member, if nothing was there for members before. */
  lemma MemberDenied(db: Db, u: UserId, c: ChannelId, target: UserId, v: UserId, g: GuildId)
    requires PutOverride(db, u, c, "member", target, {}, {ViewChannel}).1 == Done && MemberTarget(target) !in ScopeOf(db, c)
    requires ParentOf(db, c) != Some(c)
    ensures var db' := PutOverride(db, u, c, "member", target, {}, {ViewChannel}).0;
            Effective(db', g, v, Some(c)) ==
              if v == target && !Owns(db, g, v) && Administrator !in Base(db, g, v) then {} else Effective(db, g, v, Some(c))
  {
    var db' := PutOverride(db, u, c, "member", target, {}, {ViewChannel}).0;
    var mine, p, parent := MyRoles(db, g, v), Base(db, g, v), ParentOf(db, c);
    assert MyRoles(db', g, v) == mine && Base(db', g, v) == p;
    var before, after := ScopeOf(db, c), ScopeOf(db', c);
    var none, view: Mask := {}, {ViewChannel};
    assert none * ALL == none && view * ALL == view && ViewChannel in view;
    assert after == before[MemberTarget(target) := Override({}, {ViewChannel})];
    SameRoleRow(before, after, mine);
    if parent.Some? { assert ScopeOf(db', parent.value) == ScopeOf(db, parent.value); }
  }

  lemma SameRoleRow(before: Scope, after: Scope, mine: set<RoleId>)
    requires forall t: Target :: t.RoleTarget? ==> (t in after <==> t in before) && (t in before ==> after[t] == before[t])
    ensures RoleRow(after, mine) == RoleRow(before, mine)
  {
  }
}
