// The guild tables of a channel server (crates/channelserver/migrations/0002_guilds.sql),
// one map or set per table, keyed by its primary key.

module GuildDb {
  import opened Options

  datatype Flag =
    | ViewChannel | SendMessages | ManageMessages | Connect | Speak | ManageChannels | ManageRoles
    | ManageGuild | KickMembers | CreateInvite | Administrator
    | Unused(bit: nat)   // the bits above the eleven defined ones

  /** A permission mask, as the set of its flags. */
  type Mask = set<Flag>

  type GuildId = string
  type RoleId = string
  type ChannelId = string
  type UserId = string   // user@domain

  datatype Role = Role(guild: GuildId, permissions: Mask, isEveryone: bool)

  datatype Channel = Channel(guild: GuildId, parent: Option<ChannelId>, kind: string, path: string)

  /** Whom an override row is about; the row's key within its channel. */
  datatype Target = RoleTarget(id: string) | MemberTarget(id: string)

  datatype Override = Override(allow: Mask, deny: Mask)

  type Scope = map<Target, Override>

  datatype Invite = Invite(guild: GuildId, uses: int, maxUses: Option<int>, expiresAt: Option<real>)

  datatype Db = Db(
    domain: string,
    creators: set<UserId>,
    guilds: map<GuildId, UserId>,                  // guild to owner
    members: set<(GuildId, UserId)>,
    roles: map<RoleId, Role>,
    memberRoles: set<(GuildId, UserId, RoleId)>,
    channels: map<ChannelId, Channel>,
    overrides: map<ChannelId, Scope>,
    invites: map<string, Invite>)

  function ScopeOf(db: Db, c: ChannelId): Scope { if c in db.overrides then db.overrides[c] else map[] }

  function ParentOf(db: Db, c: ChannelId): Option<ChannelId> { if c in db.channels then db.channels[c].parent else None }

  predicate Owns(db: Db, g: GuildId, u: UserId) { g in db.guilds && db.guilds[g] == u }
}
