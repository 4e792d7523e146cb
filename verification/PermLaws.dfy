// What the permission arithmetic promises (crates/channelserver/src/perms.rs),
// and exactly where it parts from what the README documents.

module PermLaws {
  import opened Options
  import opened GuildDb
  import opened Perms

  // ── bounds ────────────────────────────────────────────────────────────

  predicate ScopeWithin(scope: Scope, m: Mask) { forall t :: t in scope ==> scope[t].allow <= m }

  /** Every stored mask lies inside `ALL`. */
  predicate MasksWithin(db: Db) {
    (forall r :: r in db.roles ==> db.roles[r].permissions <= ALL) &&
    forall c :: c in db.overrides ==> ScopeWithin(db.overrides[c], ALL)
  }

  /** No result has a bit outside `ALL`. */
  lemma EffectiveWithinAll(db: Db, g: GuildId, u: UserId, c: Option<ChannelId>)
    requires MasksWithin(db)
    ensures Effective(db, g, u, c) <= ALL
  {
  }

  /** A channel result is nothing at all or contains the right to view the channel. */
  lemma ViewGate(db: Db, g: GuildId, u: UserId, c: ChannelId)
    ensures Effective(db, g, u, Some(c)) == {} || ViewChannel in Effective(db, g, u, Some(c))
  {
  }

  // ── flag by flag ──────────────────────────────────────────────────────

  /** The defined flags are the eleven named ones. */
  lemma DefinedFlags(f: Flag)
    ensures f in ALL <==> !f.Unused?
  {
  }

  /** The member has the role: it is the guild's @everyone, or it was assigned. */
  predicate Holds(db: Db, g: GuildId, u: UserId, r: RoleId) {
    r in db.roles && db.roles[r].guild == g && (db.roles[r].isEveryone || (g, u, r) in db.memberRoles)
  }

  /** Some role the member has carries the flag. */
  predicate RoleGives(db: Db, g: GuildId, u: UserId, f: Flag) {
    exists r :: r in db.roles && Holds(db, g, u, r) && f in db.roles[r].permissions
  }

  lemma BaseIs(db: Db, g: GuildId, u: UserId, f: Flag)
    ensures f in Base(db, g, u) <==> RoleGives(db, g, u, f)
  {
    if f in Base(db, g, u) {
      var r :| r in MyRoles(db, g, u) && r in db.roles && f in db.roles[r].permissions;
      assert Holds(db, g, u, r);
    }
    if RoleGives(db, g, u, f) {
      var r :| r in db.roles && Holds(db, g, u, r) && f in db.roles[r].permissions;
      assert r in MyRoles(db, g, u);
    }
  }

  /**
   * Who may do what in a guild: the owner everything, a stranger nothing, a member what
   * some role of the member carries, and everything if some role carries ADMINISTRATOR.
   */
  lemma GuildFlag(db: Db, g: GuildId, u: UserId, f: Flag)
    ensures f in Effective(db, g, u, None) <==>
              if Owns(db, g, u) then !f.Unused?
              else (g, u) in db.members &&
                   if RoleGives(db, g, u, Administrator) then !f.Unused? else RoleGives(db, g, u, f)
  {
    DefinedFlags(f);
    BaseIs(db, g, u, f);
    BaseIs(db, g, u, Administrator);
  }

  /** Some row of channel `c` about a role the member has allows the flag, or denies it. */
  predicate RoleRowAllows(db: Db, g: GuildId, u: UserId, c: ChannelId, f: Flag) {
    c in db.overrides &&
    exists r :: r in db.roles && Holds(db, g, u, r) && RoleTarget(r) in db.overrides[c] && f in db.overrides[c][RoleTarget(r)].allow
  }

  predicate RoleRowDenies(db: Db, g: GuildId, u: UserId, c: ChannelId, f: Flag) {
    c in db.overrides &&
    exists r :: r in db.roles && Holds(db, g, u, r) && RoleTarget(r) in db.overrides[c] && f in db.overrides[c][RoleTarget(r)].deny
  }

  predicate OwnRowAllows(db: Db, u: UserId, c: ChannelId, f: Flag) {
    c in db.overrides && MemberTarget(u) in db.overrides[c] && f in db.overrides[c][MemberTarget(u)].allow
  }

  predicate OwnRowDenies(db: Db, u: UserId, c: ChannelId, f: Flag) {
    c in db.overrides && MemberTarget(u) in db.overrides[c] && f in db.overrides[c][MemberTarget(u)].deny
  }

  /**
   * What the rows of one channel make of one flag: the member's own row decides first,
   * an allowance before a denial; then the roles' rows, likewise; else it stays as it was.
   */
  predicate Decided(db: Db, g: GuildId, u: UserId, c: ChannelId, f: Flag, before: bool) {
    OwnRowAllows(db, u, c, f) ||
    (!OwnRowDenies(db, u, c, f) &&
     (RoleRowAllows(db, g, u, c, f) || (!RoleRowDenies(db, g, u, c, f) && before)))
  }

  lemma RoleRowIs(db: Db, g: GuildId, u: UserId, c: ChannelId, f: Flag)
    ensures var row := RoleRow(ScopeOf(db, c), MyRoles(db, g, u));
            (f in row.allow <==> RoleRowAllows(db, g, u, c, f)) && (f in row.deny <==> RoleRowDenies(db, g, u, c, f))
  {
    assert forall r :: r in MyRoles(db, g, u) <==> r in db.roles && Holds(db, g, u, r);
  }

  lemma LayerIs(db: Db, g: GuildId, u: UserId, c: ChannelId, f: Flag, p: Mask)
    ensures f in Layer(ScopeOf(db, c), MyRoles(db, g, u), u, p) <==> Decided(db, g, u, c, f, f in p)
  {
    RoleRowIs(db, g, u, c, f);
  }

  /** Through the parent's rows, if there is a parent, and then the channel's own. */
  predicate Reaching(db: Db, g: GuildId, u: UserId, c: ChannelId, f: Flag) {
    var above := c in db.channels && db.channels[c].parent.Some?;
    Decided(db, g, u, c, f,
            if above then Decided(db, g, u, db.channels[c].parent.value, f, RoleGives(db, g, u, f)) else RoleGives(db, g, u, f))
  }

  lemma ThroughIs(db: Db, g: GuildId, u: UserId, c: ChannelId, f: Flag)
    ensures f in Through(db, MyRoles(db, g, u), u, c, Base(db, g, u)) <==> Reaching(db, g, u, c, f)
  {
    var mine, p, parent := MyRoles(db, g, u), Base(db, g, u), ParentOf(db, c);
    BaseIs(db, g, u, f);
    if parent.Some? {
      LayerIs(db, g, u, parent.value, f, p);
      LayerIs(db, g, u, c, f, Layer(ScopeOf(db, parent.value), mine, u, p));
    } else {
      LayerIs(db, g, u, c, f, p);
    }
  }

  /** Who may do what in a channel, flag by flag: what reaches a member through the rows, if viewing does. */
  lemma ChannelFlag(db: Db, g: GuildId, u: UserId, c: ChannelId, f: Flag)
    ensures f in Effective(db, g, u, Some(c)) <==>
              if Owns(db, g, u) then !f.Unused?
              else (g, u) in db.members &&
                   if RoleGives(db, g, u, Administrator) then !f.Unused?
                   else Reaching(db, g, u, c, f) && Reaching(db, g, u, c, ViewChannel)
  {
    DefinedFlags(f);
    BaseIs(db, g, u, Administrator);
    ThroughIs(db, g, u, c, f);
    ThroughIs(db, g, u, c, ViewChannel);
  }

  // ── more roles, more permissions ──────────────────────────────────────

  function Assign(db: Db, g: GuildId, u: UserId, r: RoleId): Db { db.(memberRoles := db.memberRoles + {(g, u, r)}) }

  /** No row of the channel or its parent is about role `r`. */
  predicate Unmentioned(db: Db, c: ChannelId, r: RoleId) {
    RoleTarget(r) !in ScopeOf(db, c) && (ParentOf(db, c).Some? ==> RoleTarget(r) !in ScopeOf(db, ParentOf(db, c).value))
  }

  lemma LayerUnmentioned(scope: Scope, mine: set<RoleId>, more: set<RoleId>, r: RoleId, u: UserId, p: Mask, q: Mask)
    requires RoleTarget(r) !in scope && mine <= more <= mine + {r} && p <= q
    ensures Layer(scope, mine, u, p) <= Layer(scope, more, u, q)
  {
  }

  lemma BaseGrows(db: Db, g: GuildId, u: UserId, r: RoleId)
    ensures Base(db, g, u) <= Base(Assign(db, g, u, r), g, u)
    ensures MyRoles(db, g, u) <= MyRoles(Assign(db, g, u, r), g, u) <= MyRoles(db, g, u) + {r}
  {
  }

  /** A further role without rows on the channel or its parent never takes an effective bit away. */
  lemma RoleMonotone(db: Db, g: GuildId, u: UserId, c: ChannelId, r: RoleId)
    requires MasksWithin(db) && Unmentioned(db, c, r)
    ensures Effective(db, g, u, Some(c)) <= Effective(Assign(db, g, u, r), g, u, Some(c))
    ensures Effective(db, g, u, None) <= Effective(Assign(db, g, u, r), g, u, None)
  {
    var db' := Assign(db, g, u, r);
    BaseGrows(db, g, u, r);
    EffectiveWithinAll(db, g, u, Some(c));
    EffectiveWithinAll(db, g, u, None);
    var mine, more, parent := MyRoles(db, g, u), MyRoles(db', g, u), ParentOf(db, c);
    var p, q := Base(db, g, u), Base(db', g, u);
    if parent.Some? {
      LayerUnmentioned(ScopeOf(db, parent.value), mine, more, r, u, p, q);
      p, q := Layer(ScopeOf(db, parent.value), mine, u, p), Layer(ScopeOf(db, parent.value), more, u, q);
    }
    LayerUnmentioned(ScopeOf(db, c), mine, more, r, u, p, q);
  }

  // ── which rows matter ─────────────────────────────────────────────────

  lemma LayerNothing(mine: set<RoleId>, u: UserId, p: Mask)
    ensures Layer(map[], mine, u, p) == p
  {
  }

  /** A channel without rows of its own, under a top-level parent, has exactly its parent's mask. */
  lemma InheritsParent(db: Db, g: GuildId, u: UserId, c: ChannelId)
    requires ScopeOf(db, c) == map[] && ParentOf(db, c).Some? && ParentOf(db, ParentOf(db, c).value).None?
    ensures Effective(db, g, u, Some(c)) == Effective(db, g, u, ParentOf(db, c))
  {
  }

  /** Nothing above the parent is consulted: only the rows of the channel and of its parent count. */
  lemma OneLevelOnly(db: Db, db': Db, g: GuildId, u: UserId, c: ChannelId)
    requires db' == db.(overrides := db'.overrides)
    requires ScopeOf(db', c) == ScopeOf(db, c)
    requires ParentOf(db, c).Some? ==> ScopeOf(db', ParentOf(db, c).value) == ScopeOf(db, ParentOf(db, c).value)
    ensures Effective(db', g, u, Some(c)) == Effective(db, g, u, Some(c))
  {
  }

  // ── hiding ────────────────────────────────────────────────────────────

  /** Some row of the scope that applies to this member is about viewing. */
  predicate SaysView(scope: Scope, mine: set<RoleId>, u: UserId) {
    var roles, own := RoleRow(scope, mine), RowAt(scope, MemberTarget(u));
    ViewChannel in roles.allow + roles.deny + own.allow + own.deny
  }

  /** The scope takes viewing away: the member's row does, or a role's row does and no role's and no member row gives it back. */
  predicate DeniesView(scope: Scope, mine: set<RoleId>, u: UserId) {
    var roles, own := RoleRow(scope, mine), RowAt(scope, MemberTarget(u));
    ViewChannel !in own.allow && (ViewChannel in own.deny || (ViewChannel in roles.deny && ViewChannel !in roles.allow))
  }

  /** An ordinary member who may view channels. */
  predicate Ordinary(db: Db, g: GuildId, u: UserId) {
    !Owns(db, g, u) && (g, u) in db.members && Administrator !in Base(db, g, u) && ViewChannel in Base(db, g, u)
  }

  lemma ViewThrough(scope: Scope, mine: set<RoleId>, u: UserId, p: Mask)
    ensures ViewChannel in Layer(scope, mine, u, p) <==>
              if SaysView(scope, mine, u) then !DeniesView(scope, mine, u) else ViewChannel in p
  {
  }

  /**
   * Where only the rows of category `k` say anything about viewing to a member,
   * whatever else they and all other rows say: the member sees nothing of exactly `k`
   * and its direct children, if `k` denies viewing to that member, and every channel
   * otherwise. A channel nested deeper is not hidden.
   */
  lemma HidesOneLevel(db: Db, g: GuildId, u: UserId, k: ChannelId, c: ChannelId)
    requires Ordinary(db, g, u)
    requires forall d :: d in db.overrides && d != k ==> !SaysView(db.overrides[d], MyRoles(db, g, u), u)
    ensures Effective(db, g, u, Some(c)) == {} <==>
              DeniesView(ScopeOf(db, k), MyRoles(db, g, u), u) && (c == k || ParentOf(db, c) == Some(k))
  {
    var mine, p, parent := MyRoles(db, g, u), Base(db, g, u), ParentOf(db, c);
    var above := if parent.Some? then Layer(ScopeOf(db, parent.value), mine, u, p) else p;
    if parent.Some? { ViewThrough(ScopeOf(db, parent.value), mine, u, p); }
    ViewThrough(ScopeOf(db, c), mine, u, above);
  }

  /** A category that denies viewing to @everyone and allows it to a staff role. */
  predicate StaffOnly(scope: Scope, eid: RoleId, staff: RoleId) {
    RoleTarget(eid) in scope && ViewChannel in scope[RoleTarget(eid)].deny && ViewChannel !in scope[RoleTarget(eid)].allow &&
    RoleTarget(staff) in scope && ViewChannel in scope[RoleTarget(staff)].allow &&
    forall t :: t in scope && t != RoleTarget(eid) && t != RoleTarget(staff) ==> ViewChannel !in scope[t].allow + scope[t].deny
  }

  /** The documented staff category: it hides itself and its direct children from exactly the ordinary members without the role. */
  lemma StaffCategory(db: Db, g: GuildId, u: UserId, k: ChannelId, eid: RoleId, staff: RoleId, c: ChannelId)
    requires Ordinary(db, g, u) && eid in MyRoles(db, g, u) && eid != staff && StaffOnly(ScopeOf(db, k), eid, staff)
    requires forall d :: d in db.overrides && d != k ==> !SaysView(db.overrides[d], MyRoles(db, g, u), u)
    ensures Effective(db, g, u, Some(c)) == {} <==> staff !in MyRoles(db, g, u) && (c == k || ParentOf(db, c) == Some(k))
  {
    var scope, mine := ScopeOf(db, k), MyRoles(db, g, u);
    RowInUnion(scope, mine, RoleTarget(eid));
    if staff in mine { RowInUnion(scope, mine, RoleTarget(staff)); }
    assert ViewChannel in RoleRow(scope, mine).allow <==> staff in mine;
    HidesOneLevel(db, g, u, k, c);
  }

  // ── the documented layering ───────────────────────────────────────────

  /** The rows a layer consults: @everyone's, the union of the assigned roles', the member's. */
  datatype Rows = Rows(everyone: Override, roles: Override, own: Override)

  function RowsAt(scope: Scope, eid: RoleId, given: set<RoleId>, u: UserId): Rows {
    Rows(RowAt(scope, RoleTarget(eid)), RoleRow(scope, given), RowAt(scope, MemberTarget(u)))
  }

  /** One layer as documented: @everyone, then the assigned roles, then the member. */
  function DocLayer(r: Rows, p: Mask): Mask { Narrow(Narrow(Narrow(p, r.everyone), r.roles), r.own) }

  /** The bits a layer decides whatever it is given. */
  function Settled(r: Rows): Mask {
    r.everyone.allow + r.everyone.deny + r.roles.allow + r.roles.deny + r.own.allow + r.own.deny
  }

  /** The bits @everyone allows, an assigned role denies, no assigned role allows and the member row leaves alone. */
  function Excess(r: Rows): Mask { r.everyone.allow * r.roles.deny - r.roles.allow - (r.own.allow + r.own.deny) }

  /**
   * One layer: because @everyone's row is folded into the role union, the computed
   * layer is the documented one plus exactly the excess bits.
   */
  lemma LayerExcess(scope: Scope, eid: RoleId, given: set<RoleId>, u: UserId, p: Mask)
    ensures var r := RowsAt(scope, eid, given, u);
            Layer(scope, given + {eid}, u, p) == DocLayer(r, p) + Excess(r) && DocLayer(r, p) !! Excess(r)
  {
  }

  /** What a layer does to a bit it does not settle, and to one it does. */
  lemma DocBits(r: Rows, p: Mask, q: Mask)
    requires p <= q
    ensures DocLayer(r, p) <= DocLayer(r, q) && DocLayer(r, q) - DocLayer(r, p) == (q - p) - Settled(r)
  {
  }

  /** The roles assigned to the member, besides @everyone. */
  function Given(db: Db, g: GuildId, u: UserId): set<RoleId> {
    set r | r in db.roles && db.roles[r].guild == g && !db.roles[r].isEveryone && (g, u, r) in db.memberRoles
  }

  /** The guild's one @everyone role. */
  predicate EveryoneIs(db: Db, g: GuildId, eid: RoleId) {
    eid in db.roles && forall r :: r in db.roles ==> (db.roles[r].guild == g && db.roles[r].isEveryone <==> r == eid)
  }

  function RowsFor(db: Db, g: GuildId, eid: RoleId, u: UserId, c: ChannelId): Rows {
    RowsAt(ScopeOf(db, c), eid, Given(db, g, u), u)
  }

  /** The two layers as documented. */
  function DocThrough(db: Db, g: GuildId, eid: RoleId, u: UserId, c: ChannelId, p: Mask): Mask {
    var parent := ParentOf(db, c);
    DocLayer(RowsFor(db, g, eid, u, c), if parent.Some? then DocLayer(RowsFor(db, g, eid, u, parent.value), p) else p)
  }

  /** The bits the two layers of a channel add to what is documented. */
  function ChannelExcess(db: Db, g: GuildId, eid: RoleId, u: UserId, c: ChannelId): Mask {
    var own, parent := RowsFor(db, g, eid, u, c), ParentOf(db, c);
    Excess(own) + if parent.Some? then Excess(RowsFor(db, g, eid, u, parent.value)) - Settled(own) else {}
  }

  lemma MyRolesAre(db: Db, g: GuildId, eid: RoleId, u: UserId)
    requires EveryoneIs(db, g, eid)
    ensures MyRoles(db, g, u) == Given(db, g, u) + {eid}
  {
  }

  /** Through both layers, the computed mask is the documented one plus exactly the excess. */
  lemma ThroughExcess(db: Db, g: GuildId, eid: RoleId, u: UserId, c: ChannelId, p: Mask)
    requires EveryoneIs(db, g, eid)
    ensures var code, doc := Through(db, MyRoles(db, g, u), u, c, p), DocThrough(db, g, eid, u, c, p);
            doc <= code && code - doc == ChannelExcess(db, g, eid, u, c)
  {
    MyRolesAre(db, g, eid, u);
    var given, parent, own := Given(db, g, u), ParentOf(db, c), RowsFor(db, g, eid, u, c);
    if parent.Some? {
      var above := RowsFor(db, g, eid, u, parent.value);
      var doc1 := DocLayer(above, p);
      LayerExcess(ScopeOf(db, parent.value), eid, given, u, p);
      LayerExcess(ScopeOf(db, c), eid, given, u, doc1 + Excess(above));
      DocBits(own, doc1, doc1 + Excess(above));
      assert doc1 + Excess(above) - doc1 == Excess(above);
    } else {
      LayerExcess(ScopeOf(db, c), eid, given, u, p);
    }
  }

  /** `effective` with the documented layering. */
  function DocEffective(db: Db, g: GuildId, eid: RoleId, u: UserId, c: ChannelId): Mask {
    if Owns(db, g, u) then ALL
    else if (g, u) !in db.members then {}
    else if Administrator in Base(db, g, u) then ALL
    else Gate(DocThrough(db, g, eid, u, c, Base(db, g, u)))
  }

  /**
   * Compared with the documented layering, nobody loses a bit; and the two agree
   * exactly for owners, strangers and administrators, where the layers add no excess,
   * and where viewing is neither documented nor part of the excess.
   */
  lemma DocumentedLayering(db: Db, g: GuildId, eid: RoleId, u: UserId, c: ChannelId)
    requires EveryoneIs(db, g, eid)
    ensures DocEffective(db, g, eid, u, c) <= Effective(db, g, u, Some(c))
    ensures Effective(db, g, u, Some(c)) == DocEffective(db, g, eid, u, c) <==>
              Owns(db, g, u) || (g, u) !in db.members || Administrator in Base(db, g, u) ||
              ChannelExcess(db, g, eid, u, c) == {} ||
              (ViewChannel !in DocThrough(db, g, eid, u, c, Base(db, g, u)) && ViewChannel !in ChannelExcess(db, g, eid, u, c))
  {
    var p := Base(db, g, u);
    ThroughExcess(db, g, eid, u, c, p);
    GatedAgree(Through(db, MyRoles(db, g, u), u, c, p), DocThrough(db, g, eid, u, c, p), ChannelExcess(db, g, eid, u, c));
  }

  lemma GatedAgree(code: Mask, doc: Mask, excess: Mask)
    requires doc <= code && code - doc == excess
    ensures Gate(doc) <= Gate(code)
    ensures Gate(code) == Gate(doc) <==> excess == {} || (ViewChannel !in doc && ViewChannel !in excess)
  {
    if excess != {} {
      var f :| f in excess;
      assert f in code && f !in doc;
    } else {
      assert code == doc by { assert forall f :: f in code <==> f in doc || f in excess; }
    }
  }
}
