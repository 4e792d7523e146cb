// What every run of the provider keeps: single-use codes, one live refresh token
// per chain, and proof of possession behind every public client's tokens
// (crates/userserver/src/oidc/tokens.rs, crates/userserver/src/routes/oidc.rs).

module OAuthLaws {
  import opened Options
  import opened Sequences
  import opened Scopes
  import opened OAuthSpec

  // ── invariant ─────────────────────────────────────────────────────────

  /** All but the newest refresh token of the chain are revoked or gone. */
  predicate OnlyLastLive(s: Provider, hs: seq<Hash>) {
    forall i :: 0 <= i < |hs| - 1 ==> hs[i] in s.tokens ==> s.tokens[hs[i]].revoked
  }

  /** Every token of the chain speaks for the same client, user and scope. */
  predicate SameParties(s: Provider, g: Grant) {
    forall h :: h in g.chain && h in s.tokens ==>
      s.tokens[h].isRefresh && s.tokens[h].client == g.client && s.tokens[h].user == g.user && s.tokens[h].scope == g.scope
  }

  /** A verifier answers an S256 challenge by its digest, and any other challenge by being it. */
  predicate Answered(challenge: string, kind: Option<string>, verifier: string, digest: string) {
    verifier != "" && if kind == Some("S256") then digest == challenge else verifier == challenge
  }

  /** A public client showed a verifier for a challenge. */
  predicate Proven(g: Grant) {
    g.isPublic ==> g.proof.Some? && Answered(g.proof.value.challenge, g.proof.value.kind, g.proof.value.verifier, g.proof.value.digest)
  }

  predicate GrantOk(s: Provider, k: CodeId) {
    k in s.grants && (k in s.codes ==> s.codes[k].used) && s.grants[k].chain != [] &&
    Distinct(s.grants[k].chain) && OnlyLastLive(s, s.grants[k].chain) && SameParties(s, s.grants[k]) && Proven(s.grants[k])
  }

  /** Refresh token `h` descends from code `k`. */
  predicate Descends(s: Provider, h: Hash, k: CodeId) { k in s.grants && h in s.grants[k].chain }

  ghost predicate Rooted(s: Provider, h: Hash) { exists k :: Descends(s, h, k) }

  ghost predicate Separate(s: Provider) { forall h, k, l :: Descends(s, h, k) && Descends(s, h, l) ==> k == l }

  ghost predicate Good(s: Provider) {
    (forall k {:trigger GrantOk(s, k)} :: k in s.grants ==> GrantOk(s, k)) &&
    (forall h {:trigger Rooted(s, h)} :: h in s.tokens && s.tokens[h].isRefresh ==> Rooted(s, h)) &&
    Separate(s)
  }

  // ── steps that only take away ─────────────────────────────────────────

  /** Tokens vanished or were revoked, codes stayed used: nothing else that matters changed. */
  predicate Fades(s: Provider, s': Provider) {
    s'.grants == s.grants &&
    (forall h :: h in s'.tokens ==> h in s.tokens && s'.tokens[h] in {s.tokens[h], s.tokens[h].(revoked := true)}) &&
    forall k :: k in s'.codes && k in s.grants ==> k in s.codes && (s.codes[k].used ==> s'.codes[k].used)
  }

  lemma FadesKeeps(s: Provider, s': Provider)
    requires Good(s) && Fades(s, s')
    ensures Good(s')
  {
    forall k | k in s'.grants ensures GrantOk(s', k) { assert GrantOk(s, k); }
    forall h | h in s'.tokens && s'.tokens[h].isRefresh ensures Rooted(s', h) {
      assert Rooted(s, h);
      var k :| Descends(s, h, k);
      assert Descends(s', h, k);
    }
    assert forall h, k :: Descends(s', h, k) <==> Descends(s, h, k);
  }

  // ── steps that issue tokens ───────────────────────────────────────────

  lemma IssueGrantOk(s: Provider, k: CodeId, client: ClientId, user: UserId, scope: string, access: Hash, refresh: Hash, now: real)
    requires GrantOk(s, k) && NewHash(s, access) && NewHash(s, refresh)
    ensures GrantOk(IssueTokens(s, client, user, scope, access, refresh, now), k)
  {
  }

  lemma UsableUngranted(s: Provider, k: CodeId, now: real)
    requires Good(s) && Usable(s, k, now)
    ensures k !in s.grants
  {
    assert k in s.grants ==> GrantOk(s, k);
  }

  /** The tables after a successful exchange of `row`. */
  function Redeemed(s: Provider, e: Exchange, row: Code, isPublic: bool, now: real): Provider {
    IssueTokens(Consumed(s, e.code), e.clientId, row.user, row.scope, e.access, e.refresh, now)
      .(grants := s.grants[e.code := Grant(e.clientId, row.user, row.scope, isPublic, ProofOf(row, e), [e.refresh])])
  }

  lemma RedeemedNew(s: Provider, e: Exchange, row: Code, isPublic: bool, now: real)
    requires Drawn(s, Redeem(e)) && (isPublic ==> ProofOf(row, e).Some? && e.verifier != "" && VerifyPkce(ProofOf(row, e).value))
    ensures GrantOk(Redeemed(s, e, row, isPublic, now), e.code)
  {
  }

  lemma RedeemedOther(s: Provider, e: Exchange, row: Code, isPublic: bool, now: real, k: CodeId)
    requires GrantOk(s, k) && Drawn(s, Redeem(e)) && k != e.code
    ensures GrantOk(Redeemed(s, e, row, isPublic, now), k)
  {
    assert GrantOk(Consumed(s, e.code), k);
    IssueGrantOk(Consumed(s, e.code), k, e.clientId, row.user, row.scope, e.access, e.refresh, now);
  }

  lemma RedeemedTokens(s: Provider, e: Exchange, row: Code, isPublic: bool, now: real, h: Hash)
    requires Good(s) && Drawn(s, Redeem(e)) && e.code !in s.grants
    requires h in Redeemed(s, e, row, isPublic, now).tokens && Redeemed(s, e, row, isPublic, now).tokens[h].isRefresh
    ensures Rooted(Redeemed(s, e, row, isPublic, now), h)
  {
    var s' := Redeemed(s, e, row, isPublic, now);
    if h == e.refresh {
      assert Descends(s', h, e.code);
    } else {
      assert Rooted(s, h);
      var k :| Descends(s, h, k);
      assert Descends(s', h, k);
    }
  }

  lemma RedeemedSeparate(s: Provider, e: Exchange, row: Code, isPublic: bool, now: real)
    requires Separate(s) && Drawn(s, Redeem(e)) && e.code !in s.grants
    ensures Separate(Redeemed(s, e, row, isPublic, now))
  {
    var s' := Redeemed(s, e, row, isPublic, now);
    forall h, k, l | Descends(s', h, k) && Descends(s', h, l) ensures k == l {
      if k != e.code { assert Descends(s, h, k); }
      if l != e.code { assert Descends(s, h, l); }
    }
  }

  lemma RedeemKeeps(s: Provider, e: Exchange, row: Code, isPublic: bool, now: real)
    requires Good(s) && Drawn(s, Redeem(e)) && Usable(s, e.code, now)
    requires isPublic ==> ProofOf(row, e).Some? && e.verifier != "" && VerifyPkce(ProofOf(row, e).value)
    ensures Good(Redeemed(s, e, row, isPublic, now))
  {
    var s' := Redeemed(s, e, row, isPublic, now);
    UsableUngranted(s, e.code, now);
    forall k | k in s'.grants ensures GrantOk(s', k) {
      if k == e.code {
        RedeemedNew(s, e, row, isPublic, now);
      } else {
        assert GrantOk(s, k);
        RedeemedOther(s, e, row, isPublic, now, k);
      }
    }
    forall h | h in s'.tokens && s'.tokens[h].isRefresh ensures Rooted(s', h) { RedeemedTokens(s, e, row, isPublic, now, h); }
    RedeemedSeparate(s, e, row, isPublic, now);
  }

  /** The tables after a successful rotation of `row`. */
  function Rotated(s: Provider, r: Rotation, row: Token, now: real): Provider {
    IssueTokens(Revoked(s, r.h), r.clientId, row.user, row.scope, r.access, r.refresh, now)
      .(grants := Lengthened(s.grants, r.h, r.refresh))
  }

  lemma OtherChain(s: Provider, r: Rotation, row: Token, now: real, k: CodeId)
    requires GrantOk(s, k) && Drawn(s, Refresh(r)) && r.h !in s.grants[k].chain
    ensures GrantOk(Rotated(s, r, row, now), k)
  {
    assert GrantOk(Revoked(s, r.h), k);
    IssueGrantOk(Revoked(s, r.h), k, r.clientId, row.user, row.scope, r.access, r.refresh, now);
  }

  lemma OwnChain(s: Provider, r: Rotation, now: real, k: CodeId)
    requires GrantOk(s, k) && Drawn(s, Refresh(r)) && r.h in s.grants[k].chain && Refreshable(s, r, now)
    ensures GrantOk(Rotated(s, r, s.tokens[r.h], now), k)
  {
    var s', chain := Rotated(s, r, s.tokens[r.h], now), s.grants[k].chain;
    var i :| 0 <= i < |chain| && chain[i] == r.h;
    assert i == |chain| - 1;
    assert s'.grants[k].chain == chain + [r.refresh];
  }

  lemma RotatedTokens(s: Provider, r: Rotation, row: Token, now: real, origin: CodeId, h: Hash)
    requires Good(s) && Drawn(s, Refresh(r)) && Descends(s, r.h, origin)
    requires h in Rotated(s, r, row, now).tokens && Rotated(s, r, row, now).tokens[h].isRefresh
    ensures Rooted(Rotated(s, r, row, now), h)
  {
    var s' := Rotated(s, r, row, now);
    if h == r.refresh {
      assert Descends(s', h, origin);
    } else {
      assert Rooted(s, h);
      var k :| Descends(s, h, k);
      assert Descends(s', h, k);
    }
  }

  lemma RotatedSeparate(s: Provider, r: Rotation, row: Token, now: real)
    requires Separate(s) && Drawn(s, Refresh(r))
    ensures Separate(Rotated(s, r, row, now))
  {
    var s' := Rotated(s, r, row, now);
    forall h, k, l | Descends(s', h, k) && Descends(s', h, l) ensures k == l {
      if h == r.refresh {
        assert Descends(s, r.h, k) && Descends(s, r.h, l);
      } else {
        assert Descends(s, h, k) && Descends(s, h, l);
      }
    }
  }

  lemma RotateKeeps(s: Provider, r: Rotation, now: real)
    requires Good(s) && Drawn(s, Refresh(r)) && Refreshable(s, r, now)
    ensures Good(Rotated(s, r, s.tokens[r.h], now))
  {
    var row := s.tokens[r.h];
    var s' := Rotated(s, r, row, now);
    assert Rooted(s, r.h);
    var origin :| Descends(s, r.h, origin);
    forall k | k in s'.grants ensures GrantOk(s', k) {
      assert GrantOk(s, k);
      if r.h in s.grants[k].chain { OwnChain(s, r, now, k); } else { OtherChain(s, r, row, now, k); }
    }
    forall h | h in s'.tokens && s'.tokens[h].isRefresh ensures Rooted(s', h) { RotatedTokens(s, r, row, now, origin, h); }
    RotatedSeparate(s, r, row, now);
  }

  // ── every run ─────────────────────────────────────────────────────────

  lemma ServeGood(s: Provider, q: Request, now: real)
    requires Good(s) && Drawn(s, q)
    ensures Good(Serve(s, q, now).0)
  {
    if q.Redeem? && ExchangeCode(s, q.e, now).1 == TokensIssued {
      var found := Authenticated(s, q.e.clientId, q.e.published, q.e.secret);
      RedeemKeeps(s, q.e, s.codes[q.e.code], found.value.isPublic, now);
    } else if q.Refresh? && RotateRefresh(s, q.r, now).1 == TokensIssued {
      RotateKeeps(s, q.r, now);
    } else {
      ServeFades(s, q, now);
      FadesKeeps(s, Serve(s, q, now).0);
    }
  }

  /** Requests that issue no tokens only take away, and issue codes nobody exchanged. */
  lemma ServeFades(s: Provider, q: Request, now: real)
    requires Drawn(s, q) && Serve(s, q, now).1 != TokensIssued
    ensures Fades(s, Serve(s, q, now).0)
  {
    match q
    case Get(enabled, p, user, code) => GetFades(s, enabled, p, user, code, now);
    case Post(p, user, formOk, approved, code) => PostFades(s, p, user, formOk, approved, code, now);
    case Redeem(e) => ExchangeFades(s, e, now);
    case Refresh(r) => RotateFades(s, r, now);
    case _ => AdminFades(s, q, now);
  }

  lemma IssueFades(s: Provider, c: Resolved, u: UserId, p: Params, scope: string, code: CodeId, now: real)
    requires NewCode(s, code)
    ensures Fades(s, IssueCode(s, c, u, p, scope, code, now))
  {
  }

  lemma GetFades(s: Provider, enabled: bool, p: Params, user: Option<UserId>, code: CodeId, now: real)
    requires NewCode(s, code)
    ensures Fades(s, AuthorizeGet(s, enabled, p, user, code, now).0)
  {
    var found := Resolve(s, p.clientId, p.published);
    if found.Some? && user.Some? { IssueFades(s, found.value, user.value, p, EffectiveScope(p.scope, found.value.allowed), code, now); }
  }

  lemma PostFades(s: Provider, p: Params, user: Option<UserId>, formOk: bool, approved: bool, code: CodeId, now: real)
    requires NewCode(s, code)
    ensures Fades(s, AuthorizePost(s, p, user, formOk, approved, code, now).0)
  {
    var found := Resolve(s, p.clientId, p.published);
    if found.Some? && user.Some? {
      var scope := EffectiveScope(p.scope, found.value.allowed);
      IssueFades(s.(consents := s.consents[(user.value, found.value.id) := scope]), found.value, user.value, p, scope, code, now);
    }
  }

  lemma ExchangeFades(s: Provider, e: Exchange, now: real)
    requires ExchangeCode(s, e, now).1 != TokensIssued
    ensures Fades(s, ExchangeCode(s, e, now).0)
  {
  }

  lemma RotateFades(s: Provider, r: Rotation, now: real)
    requires RotateRefresh(s, r, now).1 != TokensIssued
    ensures Fades(s, RotateRefresh(s, r, now).0)
  {
  }

  lemma AdminFades(s: Provider, q: Request, now: real)
    requires q.Revoke? || q.Register? || q.DisableClient? || q.RemoveClient?
    ensures Fades(s, Serve(s, q, now).0)
  {
  }

  lemma {:induction false} RunGood(s: Provider, es: seq<Event>)
    requires Good(s) && AllDrawn(s, es)
    ensures Good(After(s, es))
    decreases |es|
  {
    if es != [] {
      ServeGood(s, es[0].q, es[0].now);
      RunGood(Serve(s, es[0].q, es[0].now).0, es[1..]);
    }
  }

  /**
   * The refresh tokens descending from one code, in every reachable state: a chain of
   * distinct tokens with at most one unrevoked element, for one client, user and
   * scope, behind which a public client proved possession of its verifier.
   */
  lemma RefreshChain(accessTtl: real, refreshTtl: real, users: set<UserId>, es: seq<Event>, k: CodeId, h: Hash, h': Hash)
    requires AllDrawn(Blank(accessTtl, refreshTtl, users), es)
    requires var s := After(Blank(accessTtl, refreshTtl, users), es);
             Descends(s, h, k) && Descends(s, h', k) && h in s.tokens && h' in s.tokens
    ensures var s := After(Blank(accessTtl, refreshTtl, users), es);
            (!s.tokens[h].revoked && !s.tokens[h'].revoked ==> h == h') &&
            s.tokens[h].client == s.tokens[h'].client && s.tokens[h].user == s.tokens[h'].user && s.tokens[h].scope == s.tokens[h'].scope &&
            (s.grants[k].isPublic ==>
               s.grants[k].proof.Some? &&
               var p := s.grants[k].proof.value;
               p.verifier != "" && if p.kind == Some("S256") then p.digest == p.challenge else p.verifier == p.challenge)
  {
    RunGood(Blank(accessTtl, refreshTtl, users), es);
    var s := After(Blank(accessTtl, refreshTtl, users), es);
    assert GrantOk(s, k);
  }

  /** Every refresh token descends from exactly one code. */
  lemma RefreshRooted(accessTtl: real, refreshTtl: real, users: set<UserId>, es: seq<Event>, h: Hash)
    requires AllDrawn(Blank(accessTtl, refreshTtl, users), es)
    requires var s := After(Blank(accessTtl, refreshTtl, users), es); h in s.tokens && s.tokens[h].isRefresh
    ensures var s := After(Blank(accessTtl, refreshTtl, users), es);
            exists k :: Descends(s, h, k) && forall l :: Descends(s, h, l) ==> l == k
  {
    RunGood(Blank(accessTtl, refreshTtl, users), es);
    var s := After(Blank(accessTtl, refreshTtl, users), es);
    assert Rooted(s, h);
    var k :| Descends(s, h, k);
  }

  // ── codes are single use ──────────────────────────────────────────────

  /** The times at which a run answers an exchange of code `k` with tokens. */
  function YieldTimes(s: Provider, es: seq<Event>, k: CodeId): seq<real>
    decreases |es|
  {
    if es == [] then []
    else
      var (s', reply) := Serve(s, es[0].q, es[0].now);
      (if es[0].q.Redeem? && es[0].q.e.code == k && reply == TokensIssued then [es[0].now] else []) + YieldTimes(s', es[1..], k)
  }

  /** Code `k` is used up, or was exchanged and is gone. */
  predicate Spent(s: Provider, k: CodeId) { if k in s.codes then s.codes[k].used else k in s.grants }

  lemma SpentStays(s: Provider, q: Request, now: real, k: CodeId)
    requires Drawn(s, q) && k in s.grants && Spent(s, k)
    ensures k in Serve(s, q, now).0.grants && Spent(Serve(s, q, now).0, k)
    ensures q.Redeem? && q.e.code == k ==> Serve(s, q, now).1 != TokensIssued
  {
    if q.Get? || q.Post? { IssuedSpent(s, q, now, k); }
  }

  lemma IssuedSpent(s: Provider, q: Request, now: real, k: CodeId)
    requires Drawn(s, q) && k in s.grants && Spent(s, k) && (q.Get? || q.Post?)
    ensures k in Serve(s, q, now).0.grants && Spent(Serve(s, q, now).0, k)
  {
  }

  lemma {:induction false} SpentYieldsNothing(s: Provider, es: seq<Event>, k: CodeId)
    requires AllDrawn(s, es) && k in s.grants && Spent(s, k)
    ensures YieldTimes(s, es, k) == []
    decreases |es|
  {
    if es != [] {
      SpentStays(s, es[0].q, es[0].now, k);
      SpentYieldsNothing(Serve(s, es[0].q, es[0].now).0, es[1..], k);
    }
  }

  /** Each code yields at most one token set, whoever presents it however often. */
  lemma {:induction false} CodeSingleUse(s: Provider, es: seq<Event>, k: CodeId)
    requires AllDrawn(s, es)
    ensures |YieldTimes(s, es, k)| <= 1
    decreases |es|
  {
    if es != [] {
      var s' := Serve(s, es[0].q, es[0].now).0;
      if es[0].q.Redeem? && es[0].q.e.code == k && Serve(s, es[0].q, es[0].now).1 == TokensIssued {
        SpentYieldsNothing(s', es[1..], k);
      } else {
        CodeSingleUse(s', es[1..], k);
      }
    }
  }

  /** A code that was issued is never issued again, and keeps its expiry for as long as it is there. */
  lemma ExpiryStays(s: Provider, q: Request, now: real, k: CodeId, t: real)
    requires Drawn(s, q) && k in s.codes && s.codes[k].expiresAt == t
    ensures var s' := Serve(s, q, now).0; k in s'.codes ==> s'.codes[k].expiresAt == t
    ensures q.Redeem? && q.e.code == k && Serve(s, q, now).1 == TokensIssued ==> now < t
  {
  }

  /** A code yields tokens only before it expires, unless the same random code is drawn again. */
  lemma {:induction false} CodeLifetime(s: Provider, es: seq<Event>, k: CodeId, t: real, i: nat)
    requires AllDrawn(s, es) && k in s.codes && s.codes[k].expiresAt == t && i < |YieldTimes(s, es, k)|
    requires forall j :: 0 <= j < |es| ==> !Issues(es[j].q, k)
    ensures YieldTimes(s, es, k)[i] < t
    decreases |es|
  {
    if es != [] {
      var (s', reply) := Serve(s, es[0].q, es[0].now);
      ExpiryStays(s, es[0].q, es[0].now, k, t);
      var first := if es[0].q.Redeem? && es[0].q.e.code == k && reply == TokensIssued then 1 else 0;
      if i >= first {
        if k in s'.codes { CodeLifetime(s', es[1..], k, t, i - first); } else { AbsentYieldsNothing(s', es[1..], k); }
      }
    }
  }

  predicate Issues(q: Request, k: CodeId) { (q.Get? || q.Post?) && q.code == k }

  lemma AbsentStays(s: Provider, q: Request, now: real, k: CodeId)
    requires k !in s.codes && !Issues(q, k)
    ensures k !in Serve(s, q, now).0.codes
    ensures q.Redeem? && q.e.code == k ==> Serve(s, q, now).1 != TokensIssued
  {
  }

  lemma {:induction false} AbsentYieldsNothing(s: Provider, es: seq<Event>, k: CodeId)
    requires k !in s.codes && forall j :: 0 <= j < |es| ==> !Issues(es[j].q, k)
    ensures YieldTimes(s, es, k) == []
    decreases |es|
  {
    if es != [] {
      AbsentStays(s, es[0].q, es[0].now, k);
      AbsentYieldsNothing(Serve(s, es[0].q, es[0].now).0, es[1..], k);
    }
  }

  /** Both ways of issuing a code let it live 60 seconds. */
  lemma CodesLiveAMinute(s: Provider, q: Request, now: real)
    requires (q.Get? || q.Post?) && Serve(s, q, now).1 == CodeIssued
    ensures q.code in Serve(s, q, now).0.codes && Serve(s, q, now).0.codes[q.code].expiresAt == now + 60.0 &&
            !Serve(s, q, now).0.codes[q.code].used
  {
  }

  /** An attempt by an authenticated client burns the code, also when it fails; tokens come exactly for the right request. */
  lemma ExchangeBurns(s: Provider, e: Exchange, now: real)
    requires Authenticated(s, e.clientId, e.published, e.secret).Some? && Usable(s, e.code, now)
    ensures var (s', reply) := ExchangeCode(s, e, now);
            e.code in s'.codes && s'.codes[e.code].used && !Usable(s', e.code, now) &&
            (reply == TokensIssued <==>
               var row := s.codes[e.code];
               row.client == e.clientId && row.redirect == e.redirect && row.user in s.users &&
               if row.challenge.Some? then Answered(row.challenge.value, row.kind, e.verifier, e.digest)
               else !Authenticated(s, e.clientId, e.published, e.secret).value.isPublic) &&
            (reply == TokensIssued ==>
               var row := s.codes[e.code];
               s'.tokens == s.tokens[e.access := Token(false, row.client, row.user, row.scope, now + s.accessTtl, false)]
                                    [e.refresh := Token(true, row.client, row.user, row.scope, now + s.refreshTtl, false)]) &&
            (reply != TokensIssued ==> s'.tokens == s.tokens)
  {
  }

  // ── refresh tokens are single use ─────────────────────────────────────

  /** A refresh token that was rotated or revoked never works again. */
  lemma RevokedStays(s: Provider, q: Request, now: real, h: Hash)
    requires Drawn(s, q) && h in s.tokens && s.tokens[h].revoked
    ensures var s' := Serve(s, q, now).0; h in s'.tokens ==> s'.tokens[h].revoked
    ensures q.Refresh? && q.r.h == h ==> Serve(s, q, now).1 != TokensIssued
  {
  }

  /** A successful rotation spends the presented token and hands out one for the same client, user and scope. */
  lemma RotationSpends(s: Provider, r: Rotation, now: real)
    requires Drawn(s, Refresh(r)) && RotateRefresh(s, r, now).1 == TokensIssued
    ensures var s' := RotateRefresh(s, r, now).0;
            r.h in s'.tokens && s'.tokens[r.h].revoked && r.refresh in s'.tokens && !s'.tokens[r.refresh].revoked &&
            s'.tokens[r.refresh].client == s.tokens[r.h].client && s'.tokens[r.refresh].user == s.tokens[r.h].user &&
            s'.tokens[r.refresh].scope == s.tokens[r.h].scope &&
            forall h :: h in s.tokens && h != r.h ==> h in s'.tokens && s'.tokens[h] == s.tokens[h]
  {
  }

  // ── consent ───────────────────────────────────────────────────────────

  function ConsentAt(s: Provider, u: UserId, c: ClientId): Option<string> {
    if (u, c) in s.consents then Some(s.consents[(u, c)]) else None
  }

  /** The scope a request approves for this user and client, if it does. */
  function Approval(s: Provider, q: Request, now: real, u: UserId, c: ClientId): Option<string> {
    if !q.Post? || Resolve(s, q.p.clientId, q.p.published).None? then None
    else
      var found := Resolve(s, q.p.clientId, q.p.published).value;
      if found.id == c && q.user == Some(u) && Serve(s, q, now).1 == CodeIssued then Some(EffectiveScope(q.p.scope, found.allowed))
      else None
  }

  /** The scope this user last approved for this client, forgotten when the client is removed. */
  function LastApproved(s: Provider, es: seq<Event>, u: UserId, c: ClientId): Option<string>
    decreases |es|
  {
    if es == [] then ConsentAt(s, u, c)
    else
      var before, last := After(s, es[..|es| - 1]), es[|es| - 1];
      if last.q == RemoveClient(c) then None
      else if Approval(before, last.q, last.now, u, c).Some? then Approval(before, last.q, last.now, u, c)
      else LastApproved(s, es[..|es| - 1], u, c)
  }

  lemma {:induction false} AfterLast(s: Provider, es: seq<Event>)
    requires es != []
    ensures After(s, es) == Serve(After(s, es[..|es| - 1]), es[|es| - 1].q, es[|es| - 1].now).0
    decreases |es|
  {
    if |es| == 1 {
      assert es[1..] == [] && es[..0] == [];
    } else {
      var s1 := Serve(s, es[0].q, es[0].now).0;
      assert es[..|es| - 1][1..] == es[1..][..|es| - 2];
      AfterLast(s1, es[1..]);
    }
  }

  /** The consents table is the user's last approvals. */
  lemma {:induction false} ConsentIsLastApproval(s: Provider, es: seq<Event>, u: UserId, c: ClientId)
    ensures LastApproved(s, es, u, c) == ConsentAt(After(s, es), u, c)
    decreases |es|
  {
    if es != [] {
      AfterLast(s, es);
      ConsentIsLastApproval(s, es[..|es| - 1], u, c);
      ConsentStep(After(s, es[..|es| - 1]), es[|es| - 1].q, es[|es| - 1].now, u, c);
    }
  }

  lemma ConsentStep(s: Provider, q: Request, now: real, u: UserId, c: ClientId)
    ensures ConsentAt(Serve(s, q, now).0, u, c)
            == if q == RemoveClient(c) then None
               else if Approval(s, q, now, u, c).Some? then Approval(s, q, now, u, c) else ConsentAt(s, u, c)
  {
    if q.Post? { PostConsent(s, q, now, u, c); } else { NoConsent(s, q, now, u, c); }
  }

  lemma PostConsent(s: Provider, q: Request, now: real, u: UserId, c: ClientId)
    requires q.Post?
    ensures ConsentAt(Serve(s, q, now).0, u, c)
            == if Approval(s, q, now, u, c).Some? then Approval(s, q, now, u, c) else ConsentAt(s, u, c)
  {
  }

  /** Only the posted form approves anything. */
  lemma NoConsent(s: Provider, q: Request, now: real, u: UserId, c: ClientId)
    requires !q.Post?
    ensures ConsentAt(Serve(s, q, now).0, u, c) == if q == RemoveClient(c) then None else ConsentAt(s, u, c)
  {
  }

  /** A code issued without showing the consent page is covered by what the user last approved for that client. */
  lemma SkippedConsentCovered(s: Provider, es: seq<Event>, enabled: bool, p: Params, u: UserId, code: CodeId, now: real, w: string)
    requires var n := After(s, es);
             AuthorizeGet(n, enabled, p, Some(u), code, now).1 == CodeIssued &&
             ScopeHas(AuthorizeGet(n, enabled, p, Some(u), code, now).0.codes[code].scope, w)
    ensures var n := After(s, es);
            var c := AuthorizeGet(n, enabled, p, Some(u), code, now).0.codes[code].client;
            LastApproved(s, es, u, c).Some? && ScopeHas(LastApproved(s, es, u, c).value, w) && c in n.clients
  {
    var n := After(s, es);
    var c := AuthorizeGet(n, enabled, p, Some(u), code, now).0.codes[code].client;
    ConsentIsLastApproval(s, es, u, c);
  }

  /** The consent page shows exactly the scope the posted form then stores, if the client did not change in between. */
  lemma PageScopeIsStored(s: Provider, t: Provider, enabled: bool, p: Params, u: UserId, code: CodeId, now: real, code': CodeId, now': real)
    requires Resolve(t, p.clientId, p.published) == Resolve(s, p.clientId, p.published)
    ensures var reply := AuthorizeGet(s, enabled, p, Some(u), code, now).1;
            reply.ConsentPage? ==>
              var posted := AuthorizePost(t, p.(scope := reply.scope), Some(u), true, true, code', now');
              posted.1 == CodeIssued && code' in posted.0.codes && posted.0.codes[code'].scope == reply.scope
  {
    var found := Resolve(s, p.clientId, p.published);
    if found.Some? { ConsentPageAgrees(p.scope, found.value.allowed); }
  }

  /** Whoever gets as far as the page or a code named an allowed redirect and, for a public client, an S256 challenge. */
  lemma PageDemandsChallenge(s: Provider, enabled: bool, p: Params, user: Option<UserId>, code: CodeId, now: real)
    ensures var reply := AuthorizeGet(s, enabled, p, user, code, now).1;
            var c := Resolve(s, p.clientId, p.published);
            reply.ConsentPage? || reply.CodeIssued? ==>
              c.Some? && p.redirect in c.value.redirects && (c.value.isPublic ==> p.challenge.Some?) &&
              (p.challenge.Some? ==> p.kind == Some("S256"))
  {
  }

  /**
   * The posted form is not held to that: it issues codes whatever challenge it names.
   * A public client still gets no tokens for a code without one.
   */
  lemma PostTakesAnyChallenge(s: Provider, p: Params, u: UserId, code: CodeId, now: real, e: Exchange, later: real)
    requires Resolve(s, p.clientId, p.published).Some? && p.redirect in Resolve(s, p.clientId, p.published).value.redirects
    requires e.code == code && (e.clientId in s.clients ==> s.clients[e.clientId].isPublic)
    ensures var (s', reply) := AuthorizePost(s, p, Some(u), true, true, code, now);
            reply == CodeIssued && code in s'.codes && s'.codes[code].challenge == p.challenge && s'.codes[code].kind == p.kind &&
            (p.challenge.None? ==> ExchangeCode(s', e, later).1 != TokensIssued)
  {
  }
}
