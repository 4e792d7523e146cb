// Guild permission masks and effective-permission resolution
// (crates/channelserver/src/perms.rs). The methods read their rows in whatever
// order the database lists them; the specification they meet has no order.

module Perms {
  import opened Options
  import opened GuildDb

  const ALL: Mask := {ViewChannel, SendMessages, ManageMessages, Connect, Speak, ManageChannels, ManageRoles,
                      ManageGuild, KickMembers, CreateInvite, Administrator}

  const EVERYONE_DEFAULT: Mask := {ViewChannel, SendMessages, Connect, Speak, CreateInvite}

  predicate Has(mask: Mask, perm: Flag) { Administrator in mask || perm in mask }

  // ── one layer ─────────────────────────────────────────────────────────

  function Narrow(p: Mask, row: Override): Mask { p - row.deny + row.allow }

  /** The union of the rows about the roles in `mine`. */
  function RoleRow(scope: Scope, mine: set<RoleId>): Override {
    Override(set t, f | t in scope && t.RoleTarget? && t.id in mine && f in scope[t].allow :: f,
             set t, f | t in scope && t.RoleTarget? && t.id in mine && f in scope[t].deny :: f)
  }

  /** The row about target `t`, or one that changes nothing. */
  function RowAt(scope: Scope, t: Target): Override { if t in scope then scope[t] else Override({}, {}) }

  /** One layer: the union of the member's role rows, then the member's own row. */
  function Layer(scope: Scope, mine: set<RoleId>, user: UserId, p: Mask): Mask {
    Narrow(Narrow(p, RoleRow(scope, mine)), RowAt(scope, MemberTarget(user)))
  }

  type Row = (Target, Override)

  /** `rows` are the override rows of one channel, in the order the database returned them. */
  ghost predicate Lists(rows: seq<Row>, scope: Scope) {
    (forall i :: 0 <= i < |rows| ==> rows[i].0 in scope && rows[i].1 == scope[rows[i].0]) &&
    forall t :: t in scope ==> exists i :: 0 <= i < |rows| && rows[i].0 == t
  }

  predicate Mine(row: Row, mine: seq<RoleId>) { row.0.RoleTarget? && row.0.id in mine }

  function Ids(listed: seq<RoleId>): set<RoleId> { set r | r in listed }

  /** `apply_scope`: the @everyone pass leaves no trace, because @everyone is one of the member's roles. */
  method ApplyScope(p: Mask, rows: seq<Row>, everyone: Option<RoleId>, mine: seq<RoleId>, user: UserId, ghost scope: Scope)
    returns (q: Mask)
    requires Lists(rows, scope) && (everyone.Some? ==> everyone.value in mine)
    ensures q == Layer(scope, Ids(mine), user, p)
  {
    ghost var union := RoleRow(scope, Ids(mine));
    q := p;
    if everyone.Some? {
      for i := 0 to |rows|
        invariant q - union.allow - union.deny == p - union.allow - union.deny
      {
        if rows[i].0 == RoleTarget(everyone.value) {
          RowInUnion(scope, Ids(mine), rows[i].0);
          q := Narrow(q, rows[i].1);
        }
      }
    }
    Absorb(p, q, union);
    var roleAllow: Mask, roleDeny: Mask := {}, {};
    for i := 0 to |rows|
      invariant roleAllow == set k, f | 0 <= k < i && Mine(rows[k], mine) && f in rows[k].1.allow :: f
      invariant roleDeny == set k, f | 0 <= k < i && Mine(rows[k], mine) && f in rows[k].1.deny :: f
    {
      if Mine(rows[i], mine) {
        roleAllow := roleAllow + rows[i].1.allow;
        roleDeny := roleDeny + rows[i].1.deny;
      }
    }
    assert Override(roleAllow, roleDeny) == union by { UnionListed(rows, mine, scope, roleAllow, roleDeny); }
    q := Narrow(q, Override(roleAllow, roleDeny));
    q := MemberPass(q, rows, user, scope);
  }

  method MemberPass(p: Mask, rows: seq<Row>, user: UserId, ghost scope: Scope) returns (q: Mask)
    requires Lists(rows, scope)
    ensures q == Narrow(p, RowAt(scope, MemberTarget(user)))
  {
    q := p;
    ghost var own := RowAt(scope, MemberTarget(user));
    for i := 0 to |rows|
      invariant q == if exists k :: 0 <= k < i && rows[k].0 == MemberTarget(user) then Narrow(p, own) else p
    {
      if rows[i].0 == MemberTarget(user) {
        q := Narrow(q, rows[i].1);
      }
    }
  }

  /** What only differs inside a layer is erased by it. */
  lemma Absorb(p: Mask, q: Mask, row: Override)
    requires q - row.allow - row.deny == p - row.allow - row.deny
    ensures Narrow(q, row) == Narrow(p, row)
  {
    forall f ensures f in Narrow(q, row) <==> f in Narrow(p, row) {
      assert f in q - row.allow - row.deny <==> f in p - row.allow - row.deny;
    }
  }

  lemma RowInUnion(scope: Scope, ids: set<RoleId>, t: Target)
    requires t in scope && t.RoleTarget? && t.id in ids
    ensures scope[t].allow <= RoleRow(scope, ids).allow && scope[t].deny <= RoleRow(scope, ids).deny
  {
  }

  lemma UnionListed(rows: seq<Row>, mine: seq<RoleId>, scope: Scope, allow: Mask, deny: Mask)
    requires Lists(rows, scope)
    requires allow == set k, f | 0 <= k < |rows| && Mine(rows[k], mine) && f in rows[k].1.allow :: f
    requires deny == set k, f | 0 <= k < |rows| && Mine(rows[k], mine) && f in rows[k].1.deny :: f
    ensures Override(allow, deny) == RoleRow(scope, Ids(mine))
  {
  }

  // ── effective permissions ─────────────────────────────────────────────

  /** The member's roles in a guild: @everyone and those assigned. */
  function MyRoles(db: Db, g: GuildId, u: UserId): set<RoleId> {
    set r | r in db.roles && db.roles[r].guild == g && (db.roles[r].isEveryone || (g, u, r) in db.memberRoles)
  }

  function PermsOf(db: Db, ids: set<RoleId>): Mask { set r, f | r in ids && r in db.roles && f in db.roles[r].permissions :: f }

  function Base(db: Db, g: GuildId, u: UserId): Mask { PermsOf(db, MyRoles(db, g, u)) }

  /** The parent's layer, if there is a parent, then the channel's own. */
  function Through(db: Db, mine: set<RoleId>, u: UserId, c: ChannelId, p: Mask): Mask {
    var parent := ParentOf(db, c);
    Layer(ScopeOf(db, c), mine, u, if parent.Some? then Layer(ScopeOf(db, parent.value), mine, u, p) else p)
  }

  function Gate(p: Mask): Mask { if ViewChannel in p then p else {} }

  /** What `effective` answers, whatever order the tables are listed in. */
  function Effective(db: Db, g: GuildId, u: UserId, c: Option<ChannelId>): Mask {
    if Owns(db, g, u) then ALL
    else if (g, u) !in db.members then {}
    else if Administrator in Base(db, g, u) then ALL
    else if c.None? then Base(db, g, u)
    else Gate(Through(db, MyRoles(db, g, u), u, c.value, Base(db, g, u)))
  }

  /** A SELECT without ORDER BY: every row once, in some order. */
  method Select<T(==)>(rows: set<T>) returns (listed: seq<T>)
    ensures forall x :: x in listed <==> x in rows
    ensures |listed| == |rows|
  {
    listed := [];
    var rest := rows;
    while rest != {}
      invariant rest <= rows && (forall x :: x in listed <==> x in rows - rest)
      invariant |listed| + |rest| == |rows|
      decreases |rest|
    {
      var x :| x in rest;
      rest := rest - {x};
      listed := listed + [x];
    }
  }

  method SelectOverrides(db: Db, c: ChannelId) returns (rows: seq<Row>)
    ensures Lists(rows, ScopeOf(db, c))
  {
    var scope := ScopeOf(db, c);
    var keys := Select(scope.Keys);
    rows := seq(|keys|, i requires 0 <= i < |keys| => (keys[i], RowAt(scope, keys[i])));
    forall t | t in scope ensures exists i :: 0 <= i < |rows| && rows[i].0 == t {
      var i :| 0 <= i < |keys| && keys[i] == t;
      assert rows[i].0 == t;
    }
  }

  /** Some @everyone role of the guild, if it has one. */
  method SelectEveryone(db: Db, g: GuildId) returns (eid: Option<RoleId>)
    ensures eid.Some? ==> eid.value in db.roles && db.roles[eid.value].guild == g && db.roles[eid.value].isEveryone
    ensures eid.None? ==> forall r :: r in db.roles && db.roles[r].guild == g ==> !db.roles[r].isEveryone
  {
    var listed := Select(set r | r in db.roles && db.roles[r].guild == g && db.roles[r].isEveryone);
    eid := if |listed| > 0 then Some(listed[0]) else None;
    if |listed| > 0 { assert listed[0] in listed; }
    forall r | r in db.roles && db.roles[r].guild == g && db.roles[r].isEveryone ensures eid.Some? {
      assert r in listed;
    }
  }

  method EffectiveOf(db: Db, g: GuildId, u: UserId, c: Option<ChannelId>) returns (p: Mask)
    ensures p == Effective(db, g, u, c)
  {
    if g in db.guilds && db.guilds[g] == u {
      return ALL;
    }
    if (g, u) !in db.members {
      return {};
    }
    var mine := Select(MyRoles(db, g, u));
    assert Ids(mine) == MyRoles(db, g, u);
    var base: Mask := {};
    for i := 0 to |mine|
      invariant base == PermsOf(db, Ids(mine[..i]))
    {
      assert mine[i] in mine;
      base := base + db.roles[mine[i]].permissions;
      assert Ids(mine[..i + 1]) == Ids(mine[..i]) + {mine[i]};
    }
    assert mine[..|mine|] == mine;
    if Administrator in base {
      return ALL;
    }
    if c.None? {
      return base;
    }
    var everyone := SelectEveryone(db, g);
    var parent := ParentOf(db, c.value);
    p := base;
    if parent.Some? {
      var above := SelectOverrides(db, parent.value);
      p := ApplyScope(p, above, everyone, mine, u, ScopeOf(db, parent.value));
    }
    var own := SelectOverrides(db, c.value);
    p := ApplyScope(p, own, everyone, mine, u, ScopeOf(db, c.value));
    if ViewChannel !in p {
      return {};
    }
  }
}
