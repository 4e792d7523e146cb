// The guild routes over mutable tables
// (crates/channelserver/src/routes/{guilds,roles,members,invites,channels,voice}.rs).
// Each method is proved against the transition of GuildSpec it performs.

module GuildServers {
  import opened Options
  import opened Sequences
  import opened GuildDb
  import opened Perms
  import opened GuildSpec
  import opened GuildLaws
  import Signal
  import Calls = ManagerSpec
  import opened CallManagers

  class GuildServer {
    const domain: string
    var creators: set<UserId>
    var guilds: map<GuildId, UserId>
    var members: set<(GuildId, UserId)>
    var roles: map<RoleId, Role>
    var memberRoles: set<(GuildId, UserId, RoleId)>
    var channels: map<ChannelId, Channel>
    var overrides: map<ChannelId, Scope>
    var invites: map<string, Invite>

    function State(): Db
      reads this
    {
      Db(domain, creators, guilds, members, roles, memberRoles, channels, overrides, invites)
    }

    constructor (domain: string, creators: set<UserId>)
      ensures State() == Empty(domain, creators)
    {
      this.domain, this.creators := domain, creators;
      guilds, members, roles, memberRoles := map[], {}, map[], {};
      channels, overrides, invites := map[], map[], map[];
    }

    // ── guard ───────────────────────────────────────────────────────────

    method Guard(u: UserId, g: GuildId, c: Option<ChannelId>, need: Flag) returns (ok: bool, caller: Mask)
      ensures caller == Effective(State(), g, u, c) && ok == Has(caller, need)
    {
      caller := EffectiveOf(State(), g, u, c);
      ok := Has(caller, need);
    }

    // ── guilds ──────────────────────────────────────────────────────────

    /** `ids` are the ids drawn for the two default channels. */
    method CreateGuild(u: UserId, named: bool, g: GuildId, everyone: RoleId, ids: seq<ChannelId>) returns (reply: Reply)
      requires |ids| == 2
      modifies this
      ensures (State(), reply) == GuildSpec.CreateGuild(old(State()), u, named, g, everyone, ids[0], ids[1])
    {
      if u !in creators {
        return Refused;
      }
      if !named {
        return Invalid;
      }
      guilds := guilds[g := u];
      members := members + {(g, u)};
      roles := roles[everyone := Role(g, EVERYONE_DEFAULT, true)];
      var kinds := ["text", "voice"];
      ghost var before := channels;
      for i := 0 to 2
        invariant State() == old(State()).(guilds := guilds, members := members, roles := roles, channels := channels)
        invariant guilds == old(guilds)[g := u] && members == old(members) + {(g, u)}
        invariant roles == old(roles)[everyone := Role(g, EVERYONE_DEFAULT, true)]
        invariant i == 0 ==> channels == before
        invariant i == 1 ==> channels == before[ids[0] := Channel(g, None, "text", domain + "#" + g + "#" + ids[0])]
        invariant i == 2 ==> channels == before[ids[0] := Channel(g, None, "text", domain + "#" + g + "#" + ids[0])]
                                               [ids[1] := Channel(g, None, "voice", domain + "#" + g + "#" + ids[1])]
      {
        channels := channels[ids[i] := Channel(g, None, kinds[i], domain + "#" + g + "#" + ids[i])];
      }
      reply := Done;
    }

    /** The rows a cascading delete of `roots` reaches, child by child. */
    method Cascade(roots: set<ChannelId>) returns (gone: set<ChannelId>)
      requires Tree(State())
      ensures gone == SubtreeOf(State(), roots)
    {
      gone := set c | c in roots && c in channels;
      assert forall c :: c in gone ==> Under(State(), c, c);
      while exists c :: c in channels && c !in gone && HasParentIn(State(), c, gone)
        invariant gone <= SubtreeOf(State(), roots)
        invariant forall c :: c in roots && c in channels ==> c in gone
        decreases channels.Keys - gone
      {
        var c :| c in channels && c !in gone && HasParentIn(State(), c, gone);
        ChildReached(State(), roots, c);
        gone := gone + {c};
      }
      ClosedSubtree(State(), roots, gone);
    }

    method DeleteGuild(u: UserId, g: GuildId) returns (reply: Reply)
      requires Tree(State())
      modifies this
      ensures (State(), reply) == GuildSpec.DeleteGuild(old(State()), u, g)
    {
      if g !in guilds {
        return Missing;
      }
      if guilds[g] != u {
        return Refused;
      }
      var goneRoles, roots := RolesIn(State(), g), ChannelsIn(State(), g);
      var gone := Cascade(roots);
      guilds := guilds - {g};
      members := set m | m in members && m.0 != g;
      roles := roles - goneRoles;
      memberRoles := set m | m in memberRoles && m.2 !in goneRoles;
      channels, overrides := channels - gone, overrides - gone;
      invites := map i | i in invites && invites[i].guild != g :: invites[i];
      SameSubtree(old(State()), DropRoles(old(State()), goneRoles), roots);
      reply := Done;
    }

    /** The channels the caller may see, each with the caller's permissions in it. */
    method Detail(u: UserId, g: GuildId) returns (reply: Reply, mine: Mask, visible: seq<(ChannelId, Mask)>)
      ensures reply == if g !in guilds then Missing else if (g, u) !in members && guilds[g] != u then Refused else Done
      ensures reply == Done ==> mine == Effective(State(), g, u, None)
      ensures reply == Done ==> forall c, p :: (c, p) in visible <==>
                c in channels && channels[c].guild == g && p == Effective(State(), g, u, Some(c)) && ViewChannel in p
      ensures reply != Done ==> visible == []
    {
      mine, visible := {}, [];
      if g !in guilds {
        return Missing, mine, visible;
      }
      if (g, u) !in members && guilds[g] != u {
        return Refused, mine, visible;
      }
      mine := EffectiveOf(State(), g, u, None);
      var rows := Select(ChannelsIn(State(), g));
      for i := 0 to |rows|
        invariant forall c, p :: (c, p) in visible <==>
                    c in rows[..i] && p == Effective(State(), g, u, Some(c)) && ViewChannel in p
      {
        assert rows[..i + 1] == rows[..i] + [rows[i]];
        var p := EffectiveOf(State(), g, u, Some(rows[i]));
        if Has(p, ViewChannel) {
          visible := visible + [(rows[i], p)];
        }
      }
      assert rows[..|rows|] == rows;
      reply := Done;
    }

    // ── roles ───────────────────────────────────────────────────────────

    method CreateRole(u: UserId, g: GuildId, named: bool, wanted: Mask, r: RoleId) returns (reply: Reply)
      modifies this
      ensures (State(), reply) == GuildSpec.CreateRole(old(State()), u, g, named, wanted, r)
    {
      var ok, caller := Guard(u, g, None, ManageRoles);
      if !ok {
        return Refused;
      }
      var perms := if Has(caller, Administrator) then wanted else wanted * caller;
      if !named {
        return Invalid;
      }
      roles := roles[r := Role(g, perms * ALL, false)];
      reply := Done;
    }

    method PatchRole(u: UserId, g: GuildId, r: RoleId, wanted: Option<Mask>) returns (reply: Reply)
      modifies this
      ensures (State(), reply) == GuildSpec.PatchRole(old(State()), u, g, r, wanted)
    {
      var ok, caller := Guard(u, g, None, ManageRoles);
      if !ok {
        return Refused;
      }
      if r !in roles || roles[r].guild != g {
        return Missing;
      }
      if wanted.Some? {
        var p := if Has(caller, Administrator) then wanted.value else wanted.value * caller;
        roles := roles[r := roles[r].(permissions := p * ALL)];
      }
      reply := Done;
    }

    method DeleteRole(u: UserId, g: GuildId, r: RoleId) returns (reply: Reply)
      modifies this
      ensures (State(), reply) == GuildSpec.DeleteRole(old(State()), u, g, r)
    {
      var ok, _ := Guard(u, g, None, ManageRoles);
      if !ok {
        return Refused;
      }
      if r !in roles || roles[r].guild != g {
        return Missing;
      }
      if roles[r].isEveryone {
        return Invalid;
      }
      var gone := {r};
      roles := roles - gone;
      memberRoles := set m | m in memberRoles && m.2 !in gone;
      reply := Done;
    }

    // ── members ─────────────────────────────────────────────────────────

    method PatchMember(u: UserId, g: GuildId, target: UserId, wanted: seq<RoleId>) returns (reply: Reply)
      modifies this
      ensures (State(), reply) == GuildSpec.PatchMember(old(State()), u, g, target, wanted)
    {
      var ok, _ := Guard(u, g, None, ManageRoles);
      if !ok {
        return Refused;
      }
      memberRoles := set m | m in memberRoles && !(m.0 == g && m.1 == target);
      InsertRoles(g, target, wanted);
      reply := Done;
    }

    method InsertRoles(g: GuildId, target: UserId, wanted: seq<RoleId>)
      modifies this`memberRoles
      ensures memberRoles == old(memberRoles) + Granted(roles, g, target, wanted)
    {
      var valid := set r | r in roles && roles[r].guild == g && !roles[r].isEveryone;
      for i := 0 to |wanted|
        invariant memberRoles == old(memberRoles) + Granted(roles, g, target, wanted[..i])
      {
        assert wanted[..i + 1] == wanted[..i] + [wanted[i]];
        if wanted[i] in valid {
          memberRoles := memberRoles + {(g, target, wanted[i])};
        }
      }
      assert wanted[..|wanted|] == wanted;
    }

    method RemoveMember(u: UserId, g: GuildId, target: UserId) returns (reply: Reply)
      modifies this
      ensures (State(), reply) == GuildSpec.RemoveMember(old(State()), u, g, target)
    {
      if target != u {
        var ok, _ := Guard(u, g, None, KickMembers);
        if !ok {
          return Refused;
        }
      }
      if g !in guilds {
        return Missing;
      }
      if guilds[g] == target {
        return Invalid;
      }
      members := members - {(g, target)};
      memberRoles := set m | m in memberRoles && !(m.0 == g && m.1 == target);
      reply := Done;
    }

    // ── invites ─────────────────────────────────────────────────────────

    method CreateInvite(u: UserId, g: GuildId, code: string, maxUses: Option<int>, expiresAt: Option<real>) returns (reply: Reply)
      modifies this
      ensures (State(), reply) == GuildSpec.CreateInvite(old(State()), u, g, code, maxUses, expiresAt)
    {
      var ok, _ := Guard(u, g, None, Flag.CreateInvite);
      if !ok {
        return Refused;
      }
      invites := invites[code := Invite(g, 0, maxUses, expiresAt)];
      reply := Done;
    }

    method DeleteInvite(u: UserId, g: GuildId, code: string) returns (reply: Reply)
      modifies this
      ensures (State(), reply) == GuildSpec.DeleteInvite(old(State()), u, g, code)
    {
      var ok, _ := Guard(u, g, None, ManageGuild);
      if !ok {
        return Refused;
      }
      if code in invites && invites[code].guild == g {
        invites := invites - {code};
      }
      reply := Done;
    }

    method AcceptInvite(u: UserId, code: string, now: real, drawn: RoleId) returns (reply: Reply)
      modifies this
      ensures (State(), reply) == GuildSpec.AcceptInvite(old(State()), u, code, now, drawn)
    {
      if code !in invites {
        return Missing;
      }
      var invite := invites[code];
      if (invite.expiresAt.Some? && invite.expiresAt.value < now) || (invite.maxUses.Some? && invite.uses >= invite.maxUses.value) {
        return Expired;
      }
      if invite.guild !in guilds {
        return Missing;
      }
      if (invite.guild, u) !in members {
        members := members + {(invite.guild, u)};
        var everyone := SelectEveryone(State(), invite.guild);
        if everyone.None? {
          roles := roles[drawn := Role(invite.guild, EVERYONE_DEFAULT, true)];
        }
        invites := invites[code := invite.(uses := invite.uses + 1)];
      }
      reply := Done;
    }

    // ── channels ────────────────────────────────────────────────────────

    method CreateChannel(u: UserId, g: GuildId, named: bool, kind: string, parent: Option<ChannelId>, c: ChannelId) returns (reply: Reply)
      modifies this
      ensures (State(), reply) == GuildSpec.CreateChannel(old(State()), u, g, named, kind, parent, c)
    {
      var ok, _ := Guard(u, g, None, ManageChannels);
      if !ok {
        return Refused;
      }
      if !named || kind !in ["text", "voice", "category"] {
        return Invalid;
      }
      var path := domain + "#" + g + "#" + c;
      if parent.Some? {
        if parent.value !in channels {
          return Missing;
        }
        if channels[parent.value].guild != g {
          return Invalid;
        }
        path := channels[parent.value].path + "#" + c;
      }
      channels := channels[c := Channel(g, parent, kind, path)];
      reply := Done;
    }

    method DeleteChannel(u: UserId, g: GuildId, c: ChannelId) returns (reply: Reply)
      requires Tree(State())
      modifies this
      ensures (State(), reply) == GuildSpec.DeleteChannel(old(State()), u, g, c)
    {
      var ok, _ := Guard(u, g, None, ManageChannels);
      if !ok {
        return Refused;
      }
      if c in channels && channels[c].guild == g {
        var gone := Cascade({c});
        channels, overrides := channels - gone, overrides - gone;
      }
      reply := Done;
    }

    method PutOverride(u: UserId, c: ChannelId, kind: string, id: string, wantAllow: Mask, wantDeny: Mask) returns (reply: Reply)
      modifies this
      ensures (State(), reply) == GuildSpec.PutOverride(old(State()), u, c, kind, id, wantAllow, wantDeny)
    {
      if c !in channels {
        return Missing;
      }
      var ok, _ := Guard(u, channels[c].guild, None, ManageRoles);
      if !ok {
        return Refused;
      }
      if kind !in ["role", "member"] {
        return Invalid;
      }
      var target := if kind == "role" then RoleTarget(id) else MemberTarget(id);
      var allow, deny := wantAllow * ALL, wantDeny * ALL;
      var scope := if c in overrides then overrides[c] else map[];
      if allow == {} && deny == {} {
        overrides := overrides[c := scope - {target}];
      } else {
        overrides := overrides[c := scope[target := Override(allow, deny)]];
      }
      reply := Done;
    }

    // ── voice ───────────────────────────────────────────────────────────

    /** `drawnCall` and `drawnToken` are what the call manager would draw. */
    method VoiceToken(u: UserId, c: ChannelId, calls: CallManager, drawnCall: Signal.CallId, drawnToken: string)
      returns (reply: Reply, id: Signal.CallId, token: string)
      modifies calls
      ensures reply == if c !in channels then Missing
                       else if channels[c].kind != "voice" then Invalid
                       else if !Has(Effective(State(), channels[c].guild, u, Some(c)), Connect) then Refused
                       else if RoomOf(calls.State(), channels[c].path) !in calls.calls then Missing
                       else Done
      ensures reply == Done ==> c in channels && channels[c].path in calls.rooms && id == calls.rooms[channels[c].path] && id in calls.calls
      ensures reply == Done ==> Calls.Verifies(calls.State(), id, HomeOf(u), token)
      ensures calls.State() == if reply == Invalid || reply == Refused || c !in channels then old(calls.State())
                               else Calls.StepMint(Calls.StepRoom(old(calls.State()), channels[c].path, drawnCall),
                                                   RoomOf(calls.State(), channels[c].path), HomeOf(u), drawnToken)
    {
      id, token := "", "";
      if c !in channels {
        return Missing, id, token;
      }
      if channels[c].kind != "voice" {
        return Invalid, id, token;
      }
      var ok, _ := Guard(u, channels[c].guild, Some(c), Connect);
      if !ok {
        return Refused, id, token;
      }
      id := calls.GetRoom(channels[c].path, drawnCall);
      var minted := calls.MintToken(id, HomeOf(u), drawnToken);
      if minted.None? {
        return Missing, id, token;
      }
      return Done, id, minted.value;
    }

    method VoiceRoster(u: UserId, c: ChannelId, calls: CallManager, drawnCall: Signal.CallId)
      returns (reply: Reply, roster: seq<Signal.RosterEntry>)
      modifies calls
      ensures reply == if c !in channels then Missing
                       else if !Has(Effective(State(), channels[c].guild, u, Some(c)), ViewChannel) then Refused
                       else Done
      ensures reply == Done ==> c in channels && calls.State() == Calls.StepRoom(old(calls.State()), channels[c].path, drawnCall)
      ensures reply == Done ==> c in channels && channels[c].path in calls.rooms && roster == RosterIn(calls.State(), calls.rooms[channels[c].path])
      ensures reply != Done ==> calls.State() == old(calls.State()) && roster == []
    {
      roster := [];
      if c !in channels {
        return Missing, roster;
      }
      var ok, _ := Guard(u, channels[c].guild, Some(c), ViewChannel);
      if !ok {
        return Refused, roster;
      }
      var id := calls.GetRoom(channels[c].path, drawnCall);
      if id in calls.calls {
        roster := CallManager.RosterEntries(calls.calls[id].participants);
      }
      reply := Done;
    }
  }

  function RoomOf(m: Calls.Manager, path: string): Signal.CallId { if path in m.rooms then m.rooms[path] else "" }

  function RosterIn(m: Calls.Manager, id: Signal.CallId): seq<Signal.RosterEntry> {
    if id in m.calls then Calls.RosterOf(m.calls[id].participants) else []
  }

  function HomeOf(u: UserId): string { LastPart(u, '@') }

  /** The home server of name@domain is the domain. */
  lemma HomeOfFullId(name: string, domain: string)
    requires '@' !in domain
    ensures HomeOf(name + "@" + domain) == domain
  {
    LastPartAppended(name, '@', domain);
    assert name + ['@'] + domain == name + "@" + domain;
  }

  /** The roster shown for a room is its rows, server by server: where they are from, who is there and who is muted. */
  lemma RosterShows(m: Calls.Manager, id: Signal.CallId, i: nat)
    requires id in m.calls && i < |m.calls[id].participants|
    ensures |RosterIn(m, id)| == |m.calls[id].participants|
    ensures var p, e := m.calls[id].participants[i], RosterIn(m, id)[i];
            e.server == p.domain && e.members == p.members && e.muted == p.muted
  {
  }

  // ── cascading deletes ─────────────────────────────────────────────────

  predicate HasParentIn(db: Db, c: ChannelId, gone: set<ChannelId>) {
    c in db.channels && db.channels[c].parent.Some? && db.channels[c].parent.value in gone
  }

  lemma ChildReached(db: Db, roots: set<ChannelId>, c: ChannelId)
    requires Tree(db) && HasParentIn(db, c, SubtreeOf(db, roots))
    ensures c in SubtreeOf(db, roots)
  {
    assert Hangs(db, c);
    ParentShorter(db, c);
    var r :| r in roots && Under(db, db.channels[c].parent.value, r);
    assert Under(db, c, r);
  }

  /** A set that holds the roots and the children of its members holds everything below the roots. */
  lemma ClosedSubtree(db: Db, roots: set<ChannelId>, gone: set<ChannelId>)
    requires gone <= SubtreeOf(db, roots)
    requires forall c :: c in roots && c in db.channels ==> c in gone
    requires forall c :: c in db.channels && HasParentIn(db, c, gone) ==> c in gone
    ensures gone == SubtreeOf(db, roots)
  {
    forall c, r | r in roots && Under(db, c, r) ensures c in gone { BelowClosed(db, roots, gone, c, r); }
  }

  lemma {:induction false} BelowClosed(db: Db, roots: set<ChannelId>, gone: set<ChannelId>, c: ChannelId, r: ChannelId)
    requires r in roots && Under(db, c, r)
    requires forall x :: x in roots && x in db.channels ==> x in gone
    requires forall x :: x in db.channels && HasParentIn(db, x, gone) ==> x in gone
    ensures c in gone
    decreases |db.channels[c].path|
  {
    if c != r {
      BelowClosed(db, roots, gone, db.channels[c].parent.value, r);
      assert HasParentIn(db, c, gone);
    }
  }
}
