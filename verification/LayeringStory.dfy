// A run of the guild routes after which a member's permissions are not the
// documented ones (crates/channelserver/src/perms.rs, README.md).

module LayeringStory {
  import opened Options
  import opened GuildDb
  import opened Perms
  import opened PermLaws
  import opened GuildSpec

  /** The names of the story, and the flag it is about. */
  datatype Cast = Cast(
    domain: string, owner: UserId, member: UserId, g: GuildId, everyone: RoleId, role: RoleId,
    text: ChannelId, voice: ChannelId, code: string, flag: Flag)

  predicate Distinctive(n: Cast) {
    n.owner != n.member && n.everyone != n.role && n.text != n.voice && '#' !in n.text && '#' !in n.voice && n.flag in ALL
  }

  /**
   * The owner makes a guild, a member joins by an invite and is given a role; then a
   * channel allows the flag to @everyone and denies it to the role.
   */
  function Story(n: Cast): seq<Call> {
    [Call(n.owner, GuildCreate(true, n.g, n.everyone, n.text, n.voice)),
     Call(n.owner, InviteCreate(n.g, n.code, None, None)),
     Call(n.member, InviteAccept(n.code, 0.0, n.role)),
     Call(n.owner, RoleCreate(n.g, true, {}, n.role)),
     Call(n.owner, MemberPatch(n.g, n.member, [n.role])),
     Call(n.owner, OverridePut(n.text, "role", n.everyone, {n.flag}, {})),
     Call(n.owner, OverridePut(n.text, "role", n.role, {}, {n.flag}))]
  }

  /** The tables after the first `i` requests. */
  function Stage(n: Cast, i: nat): Db
    requires i <= 7
  {
    if i == 0 then Empty(n.domain, {n.owner})
    else
      var made := NewGuild(Empty(n.domain, {n.owner}), n.owner, n.g, n.everyone, n.text, n.voice);
      made.(members := if i < 3 then {(n.g, n.owner)} else {(n.g, n.owner), (n.g, n.member)},
            invites := if i < 2 then map[] else map[n.code := Invite(n.g, if i < 3 then 0 else 1, None, None)],
            roles := if i < 4 then made.roles else made.roles[n.role := Role(n.g, {}, false)],
            memberRoles := if i < 5 then {} else {(n.g, n.member, n.role)},
            overrides := if i < 6 then map[] else map[n.text := RowsAfter(n, i)])
  }

  function RowsAfter(n: Cast, i: nat): Scope {
    var first := map[RoleTarget(n.everyone) := Override({n.flag}, {})];
    if i < 7 then first else first[RoleTarget(n.role) := Override({}, {n.flag})]
  }

  predicate Steps(n: Cast, i: nat)
    requires i < 7
  {
    Drawn(Stage(n, i), Story(n)[i].q) && Serve(Stage(n, i), Story(n)[i].actor, Story(n)[i].q).0 == Stage(n, i + 1)
  }

  lemma Founding(n: Cast)
    requires Distinctive(n)
    ensures Steps(n, 0) && Steps(n, 1)
  {
  }

  lemma Joining(n: Cast)
    requires Distinctive(n)
    ensures Steps(n, 2)
  {
    assert EveryoneIn(Stage(n, 2), n.g, n.everyone);
    assert {(n.g, n.owner)} + {(n.g, n.member)} == {(n.g, n.owner), (n.g, n.member)};
  }

  lemma Promoting(n: Cast)
    requires Distinctive(n)
    ensures Steps(n, 3) && Steps(n, 4)
  {
    assert Grantable(ALL, {}) == {};
    assert Granted(Stage(n, 4).roles, n.g, n.member, [n.role]) == {(n.g, n.member, n.role)};
  }

  lemma Overriding(n: Cast)
    requires Distinctive(n)
    ensures Steps(n, 5) && Steps(n, 6)
  {
    var some, none: Mask := {n.flag}, {};
    assert some * ALL == some && none * ALL == none;
    assert ScopeOf(Stage(n, 5), n.text) == map[];
  }

  lemma {:induction false} StoryFrom(n: Cast, i: nat)
    requires Distinctive(n) && i <= 7
    ensures AllDrawn(Stage(n, i), Story(n)[i..]) && ServeAll(Stage(n, i), Story(n)[i..]) == Stage(n, 7)
    decreases 7 - i
  {
    if i < 7 {
      assert Steps(n, i) by { Founding(n); Joining(n); Promoting(n); Overriding(n); }
      StoryFrom(n, i + 1);
      assert Story(n)[i..][0] == Story(n)[i] && Story(n)[i..][1..] == Story(n)[i + 1..];
    }
  }

  lemma FinalRows(n: Cast)
    requires Distinctive(n)
    ensures var db := Stage(n, 7);
            EveryoneIs(db, n.g, n.everyone) && (n.g, n.member) in db.members && !Owns(db, n.g, n.member) &&
            Given(db, n.g, n.member) == {n.role} && Base(db, n.g, n.member) == EVERYONE_DEFAULT && ParentOf(db, n.text).None?
  {
    var db := Stage(n, 7);
    assert MyRoles(db, n.g, n.member) == {n.everyone, n.role};
    assert db.roles[n.everyone].permissions == EVERYONE_DEFAULT && db.roles[n.role].permissions == {};
  }

  lemma FinalExcess(n: Cast)
    requires Distinctive(n)
    ensures Excess(RowsAt(RowsAfter(n, 7), n.everyone, {n.role}, n.member)) == {n.flag}
    ensures n.flag !in DocLayer(RowsAt(RowsAfter(n, 7), n.everyone, {n.role}, n.member), EVERYONE_DEFAULT)
    ensures n.flag != ViewChannel ==> ViewChannel in DocLayer(RowsAt(RowsAfter(n, 7), n.everyone, {n.role}, n.member), EVERYONE_DEFAULT)
  {
    var scope := RowsAfter(n, 7);
    RowInUnion(scope, {n.role}, RoleTarget(n.role));
    assert RoleRow(scope, {n.role}).allow == {} && RoleRow(scope, {n.role}).deny == {n.flag};
  }

  /** One excess flag on a top-level channel that is visible with it: the member has it, and is not meant to. */
  lemma ExcessShows(db: Db, g: GuildId, eid: RoleId, u: UserId, c: ChannelId, f: Flag)
    requires EveryoneIs(db, g, eid) && (g, u) in db.members && !Owns(db, g, u) && Administrator !in Base(db, g, u)
    requires ParentOf(db, c).None? && Excess(RowsFor(db, g, eid, u, c)) == {f}
    requires var doc := DocLayer(RowsFor(db, g, eid, u, c), Base(db, g, u)); f !in doc && (f == ViewChannel || ViewChannel in doc)
    ensures f in Effective(db, g, u, Some(c)) && f !in DocEffective(db, g, eid, u, c)
  {
    ThroughExcess(db, g, eid, u, c, Base(db, g, u));
    var code, doc := Through(db, MyRoles(db, g, u), u, c, Base(db, g, u)), DocThrough(db, g, eid, u, c, Base(db, g, u));
    assert code - doc == {f};
    assert f in code - doc && ViewChannel in code;
  }

  lemma FinalDiffers(n: Cast)
    requires Distinctive(n)
    ensures var db := Stage(n, 7);
            EveryoneIs(db, n.g, n.everyone) && n.flag in Effective(db, n.g, n.member, Some(n.text)) &&
            n.flag !in DocEffective(db, n.g, n.everyone, n.member, n.text)
  {
    FinalRows(n);
    FinalExcess(n);
    ExcessShows(Stage(n, 7), n.g, n.everyone, n.member, n.text, n.flag);
  }

  /**
   * For every flag there is a run after which a member has it on a channel although
   * the documented layering takes it away: what @everyone is allowed outlives what an
   * assigned role is denied.
   */
  lemma LayeringDiffers(n: Cast)
    requires Distinctive(n)
    ensures var start := Empty(n.domain, {n.owner});
            var db := ServeAll(start, Story(n));
            AllDrawn(start, Story(n)) && EveryoneIs(db, n.g, n.everyone) &&
            n.flag in Effective(db, n.g, n.member, Some(n.text)) &&
            n.flag !in DocEffective(db, n.g, n.everyone, n.member, n.text)
  {
    StoryFrom(n, 0);
    FinalDiffers(n);
    assert Story(n)[0..] == Story(n);
  }
}
