// What the guild routes do to the tables, one transition per handler
// (crates/channelserver/src/routes/{guilds,roles,members,invites,channels}.rs).
// A handler is one atomic step; ids, codes and the clock are passed in.

module GuildSpec {
  import opened Options
  import opened GuildDb
  import opened Perms

  datatype Reply = Done | Refused | Missing | Invalid | Expired

  /** What a handler leaves behind and what it answers. */
  type Answer = (Db, Reply)

  /** `guard` without a channel. */
  predicate May(db: Db, u: UserId, g: GuildId, f: Flag) { Has(Effective(db, g, u, None), f) }

  predicate EveryoneIn(db: Db, g: GuildId, r: RoleId) { r in db.roles && db.roles[r].guild == g && db.roles[r].isEveryone }

  // ── guilds ────────────────────────────────────────────────────────────

  function RootPath(db: Db, g: GuildId): string { db.domain + "#" + g }

  function NewGuild(db: Db, u: UserId, g: GuildId, everyone: RoleId, text: ChannelId, voice: ChannelId): Db {
    db.(guilds := db.guilds[g := u],
        members := db.members + {(g, u)},
        roles := db.roles[everyone := Role(g, EVERYONE_DEFAULT, true)],
        channels := db.channels[text := Channel(g, None, "text", RootPath(db, g) + "#" + text)]
                               [voice := Channel(g, None, "voice", RootPath(db, g) + "#" + voice)])
  }

  function CreateGuild(db: Db, u: UserId, named: bool, g: GuildId, everyone: RoleId, text: ChannelId, voice: ChannelId): Answer {
    if u !in db.creators then (db, Refused)
    else if !named then (db, Invalid)
    else (NewGuild(db, u, g, everyone, text, voice), Done)
  }

  /** A deleted row takes every row that references it along. */
  function DropRoles(db: Db, gone: set<RoleId>): Db {
    db.(roles := db.roles - gone, memberRoles := (set m | m in db.memberRoles && m.2 !in gone))
  }

  function DropChannels(db: Db, gone: set<ChannelId>): Db {
    db.(channels := db.channels - gone, overrides := db.overrides - gone)
  }

  function RolesIn(db: Db, g: GuildId): set<RoleId> { set r | r in db.roles && db.roles[r].guild == g }

  function ChannelsIn(db: Db, g: GuildId): set<ChannelId> { set c | c in db.channels && db.channels[c].guild == g }

  function DropGuild(db: Db, g: GuildId): Db {
    DropChannels(DropRoles(db, RolesIn(db, g)), SubtreeOf(db, ChannelsIn(db, g)))
      .(guilds := db.guilds - {g},
        members := (set m | m in db.members && m.0 != g),
        invites := (map i | i in db.invites && db.invites[i].guild != g :: db.invites[i]))
  }

  function DeleteGuild(db: Db, u: UserId, g: GuildId): Answer {
    if g !in db.guilds then (db, Missing)
    else if db.guilds[g] != u then (db, Refused)
    else (DropGuild(db, g), Done)
  }

  // ── roles ─────────────────────────────────────────────────────────────

  /** The part of the requested permissions the caller may hand out. */
  function Grantable(caller: Mask, wanted: Mask): Mask {
    (if Has(caller, Administrator) then wanted else wanted * caller) * ALL
  }

  function CreateRole(db: Db, u: UserId, g: GuildId, named: bool, wanted: Mask, r: RoleId): Answer {
    if !May(db, u, g, ManageRoles) then (db, Refused)
    else if !named then (db, Invalid)
    else (db.(roles := db.roles[r := Role(g, Grantable(Effective(db, g, u, None), wanted), false)]), Done)
  }

  function PatchRole(db: Db, u: UserId, g: GuildId, r: RoleId, wanted: Option<Mask>): Answer {
    if !May(db, u, g, ManageRoles) then (db, Refused)
    else if r !in db.roles || db.roles[r].guild != g then (db, Missing)
    else if wanted.None? then (db, Done)
    else (db.(roles := db.roles[r := db.roles[r].(permissions := Grantable(Effective(db, g, u, None), wanted.value))]), Done)
  }

  function DeleteRole(db: Db, u: UserId, g: GuildId, r: RoleId): Answer {
    if !May(db, u, g, ManageRoles) then (db, Refused)
    else if r !in db.roles || db.roles[r].guild != g then (db, Missing)
    else if db.roles[r].isEveryone then (db, Invalid)
    else (DropRoles(db, {r}), Done)
  }

  // ── members ───────────────────────────────────────────────────────────

  predicate Assignable(db: Db, g: GuildId, r: RoleId) { r in db.roles && db.roles[r].guild == g && !db.roles[r].isEveryone }

  function Granted(roles: map<RoleId, Role>, g: GuildId, target: UserId, wanted: seq<RoleId>): set<(GuildId, UserId, RoleId)> {
    set r | r in wanted && r in roles && roles[r].guild == g && !roles[r].isEveryone :: (g, target, r)
  }

  /** The target's role set is replaced by the assignable ones among `wanted`. */
  function PatchMember(db: Db, u: UserId, g: GuildId, target: UserId, wanted: seq<RoleId>): Answer {
    if !May(db, u, g, ManageRoles) then (db, Refused)
    else (db.(memberRoles := (set m | m in db.memberRoles && !(m.0 == g && m.1 == target)) +
                             Granted(db.roles, g, target, wanted)), Done)
  }

  function RemoveMember(db: Db, u: UserId, g: GuildId, target: UserId): Answer {
    if target != u && !May(db, u, g, KickMembers) then (db, Refused)
    else if g !in db.guilds then (db, Missing)
    else if db.guilds[g] == target then (db, Invalid)
    else (db.(members := db.members - {(g, target)},
              memberRoles := (set m | m in db.memberRoles && !(m.0 == g && m.1 == target))), Done)
  }

  // ── invites ───────────────────────────────────────────────────────────

  function CreateInvite(db: Db, u: UserId, g: GuildId, code: string, maxUses: Option<int>, expiresAt: Option<real>): Answer {
    if !May(db, u, g, Flag.CreateInvite) then (db, Refused)
    else (db.(invites := db.invites[code := Invite(g, 0, maxUses, expiresAt)]), Done)
  }

  function DeleteInvite(db: Db, u: UserId, g: GuildId, code: string): Answer {
    if !May(db, u, g, ManageGuild) then (db, Refused)
    else if code in db.invites && db.invites[code].guild == g then (db.(invites := db.invites - {code}), Done)
    else (db, Done)
  }

  /** `resolve_invite`: why an invite does not work, or `Done`. */
  function Resolve(db: Db, code: string, now: real): Reply {
    if code !in db.invites then Missing
    else
      var i := db.invites[code];
      if (i.expiresAt.Some? && i.expiresAt.value < now) || (i.maxUses.Some? && i.uses >= i.maxUses.value) then Expired
      else if i.guild !in db.guilds then Missing
      else Done
  }

  function AcceptInvite(db: Db, u: UserId, code: string, now: real, drawn: RoleId): Answer {
    if Resolve(db, code, now) != Done then (db, Resolve(db, code, now))
    else
      var g := if code in db.invites then db.invites[code].guild else "";
      if (g, u) in db.members then (db, Done)
      else (Used(Repaired(db.(members := db.members + {(g, u)}), g, drawn), code), Done)
  }

  /** A guild without an @everyone role gets one. */
  function Repaired(db: Db, g: GuildId, drawn: RoleId): Db {
    if exists r :: r in db.roles && EveryoneIn(db, g, r) then db else db.(roles := db.roles[drawn := Role(g, EVERYONE_DEFAULT, true)])
  }

  function Used(db: Db, code: string): Db {
    if code in db.invites then db.(invites := db.invites[code := db.invites[code].(uses := db.invites[code].uses + 1)]) else db
  }

  // ── channels ──────────────────────────────────────────────────────────

  function CreateChannel(db: Db, u: UserId, g: GuildId, named: bool, kind: string, parent: Option<ChannelId>, c: ChannelId): Answer {
    if !May(db, u, g, ManageChannels) then (db, Refused)
    else if !named || kind !in ["text", "voice", "category"] then (db, Invalid)
    else if parent.Some? && parent.value !in db.channels then (db, Missing)
    else if parent.Some? && db.channels[parent.value].guild != g then (db, Invalid)
    else
      var above := if parent.Some? then db.channels[parent.value].path else RootPath(db, g);
      (db.(channels := db.channels[c := Channel(g, parent, kind, above + "#" + c)]), Done)
  }

  /** `c` is `root` or below it. Parents have shorter paths, so the walk up ends. */
  predicate Under(db: Db, c: ChannelId, root: ChannelId)
    decreases if c in db.channels then |db.channels[c].path| else 0
  {
    c in db.channels &&
    (c == root ||
     (var p := db.channels[c].parent;
      p.Some? && p.value in db.channels && |db.channels[p.value].path| < |db.channels[c].path| && Under(db, p.value, root)))
  }

  /** The channels a delete of all `roots` takes away. */
  function SubtreeOf(db: Db, roots: set<ChannelId>): set<ChannelId> {
    set c | c in db.channels && exists r :: r in roots && Under(db, c, r)
  }

  function DeleteChannel(db: Db, u: UserId, g: GuildId, c: ChannelId): Answer {
    if !May(db, u, g, ManageChannels) then (db, Refused)
    else if c in db.channels && db.channels[c].guild == g then (DropChannels(db, SubtreeOf(db, {c})), Done)
    else (db, Done)
  }

  function PutOverride(db: Db, u: UserId, c: ChannelId, kind: string, id: string, allow: Mask, deny: Mask): Answer {
    if c !in db.channels then (db, Missing)
    else if !May(db, u, db.channels[c].guild, ManageRoles) then (db, Refused)
    else if kind !in ["role", "member"] then (db, Invalid)
    else
      var target := if kind == "role" then RoleTarget(id) else MemberTarget(id);
      var row := Override(allow * ALL, deny * ALL);
      (db.(overrides := db.overrides[c := if row == Override({}, {}) then ScopeOf(db, c) - {target}
                                          else ScopeOf(db, c)[target := row]]), Done)
  }

  // ── requests ──────────────────────────────────────────────────────────

  datatype Request =
    | GuildCreate(named: bool, newGuild: GuildId, everyone: RoleId, text: ChannelId, voice: ChannelId)
    | GuildDelete(g: GuildId)
    | RoleCreate(g: GuildId, named: bool, wanted: Mask, newRole: RoleId)
    | RolePatch(g: GuildId, r: RoleId, perms: Option<Mask>)
    | RoleDelete(g: GuildId, r: RoleId)
    | MemberPatch(g: GuildId, target: UserId, roles: seq<RoleId>)
    | MemberRemove(g: GuildId, target: UserId)
    | InviteCreate(g: GuildId, code: string, maxUses: Option<int>, expiresAt: Option<real>)
    | InviteDelete(g: GuildId, code: string)
    | InviteAccept(code: string, now: real, newRole: RoleId)
    | ChannelCreate(g: GuildId, named: bool, kind: string, parent: Option<ChannelId>, newChannel: ChannelId)
    | ChannelDelete(g: GuildId, c: ChannelId)
    | OverridePut(c: ChannelId, kind: string, id: string, allow: Mask, deny: Mask)

  predicate NewChannelId(db: Db, c: ChannelId) { c !in db.channels && '#' !in c }

  /** Drawn ids are new, and a uuid has no '#' in it. */
  predicate Drawn(db: Db, q: Request) {
    match q
    case GuildCreate(_, g, everyone, text, voice) =>
      g !in db.guilds && everyone !in db.roles && NewChannelId(db, text) && NewChannelId(db, voice) && text != voice
    case RoleCreate(_, _, _, r) => r !in db.roles
    case InviteCreate(_, code, _, _) => code !in db.invites
    case InviteAccept(_, _, r) => r !in db.roles
    case ChannelCreate(_, _, _, _, c) => NewChannelId(db, c)
    case _ => true
  }

  function Serve(db: Db, u: UserId, q: Request): Answer {
    match q
    case GuildCreate(named, g, everyone, text, voice) => CreateGuild(db, u, named, g, everyone, text, voice)
    case GuildDelete(g) => DeleteGuild(db, u, g)
    case RoleCreate(g, named, wanted, r) => CreateRole(db, u, g, named, wanted, r)
    case RolePatch(g, r, perms) => PatchRole(db, u, g, r, perms)
    case RoleDelete(g, r) => DeleteRole(db, u, g, r)
    case MemberPatch(g, target, roles) => PatchMember(db, u, g, target, roles)
    case MemberRemove(g, target) => RemoveMember(db, u, g, target)
    case InviteCreate(g, code, maxUses, expiresAt) => CreateInvite(db, u, g, code, maxUses, expiresAt)
    case InviteDelete(g, code) => DeleteInvite(db, u, g, code)
    case InviteAccept(code, now, r) => AcceptInvite(db, u, code, now, r)
    case ChannelCreate(g, named, kind, parent, c) => CreateChannel(db, u, g, named, kind, parent, c)
    case ChannelDelete(g, c) => DeleteChannel(db, u, g, c)
    case OverridePut(c, kind, id, allow, deny) => PutOverride(db, u, c, kind, id, allow, deny)
  }

  // ── runs ──────────────────────────────────────────────────────────────

  /** A request and who makes it. */
  datatype Call = Call(actor: UserId, q: Request)

  function ServeAll(db: Db, calls: seq<Call>): Db
    decreases |calls|
  {
    if calls == [] then db else ServeAll(Serve(db, calls[0].actor, calls[0].q).0, calls[1..])
  }

  predicate AllDrawn(db: Db, calls: seq<Call>)
    decreases |calls|
  {
    calls == [] || (Drawn(db, calls[0].q) && AllDrawn(Serve(db, calls[0].actor, calls[0].q).0, calls[1..]))
  }

  function Empty(domain: string, creators: set<UserId>): Db {
    Db(domain, creators, map[], {}, map[], {}, map[], map[], map[])
  }
}
