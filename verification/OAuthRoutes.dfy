// What each request to the provider must get right, and that what one step hands
// out the next one takes (crates/userserver/src/routes/oidc.rs,
// crates/userserver/src/oidc/tokens.rs, crates/userserver/src/routes/admin.rs).

module OAuthRoutes {
  import opened Options
  import opened Scopes
  import opened OAuthSpec
  import opened OAuthLaws

  // ── clients ───────────────────────────────────────────────────────────

  /** A client the provider knows: registered and not disabled, or with a document of its own. */
  predicate Known(s: Provider, id: ClientId, published: Option<set<string>>) {
    if id in s.clients then !s.clients[id].disabled else published.Some?
  }

  /** It showed its secret, if it has one. */
  predicate ShowsSecret(s: Provider, id: ClientId, secret: Hash) {
    id in s.clients && s.clients[id].secretHash.Some? ==> s.clients[id].secretHash.value == secret
  }

  predicate IsPublic(s: Provider, id: ClientId) { id in s.clients ==> s.clients[id].isPublic }

  predicate MayRedirect(s: Provider, id: ClientId, published: Option<set<string>>, redirect: string) {
    if id in s.clients then redirect in s.clients[id].redirects else published.Some? && redirect in published.value
  }

  function Allowed(s: Provider, id: ClientId): string {
    if id in s.clients then s.clients[id].allowed else "openid profile email bscp:links"
  }

  lemma {:induction false} Trimmed(id: string)
    ensures TrimSlashes(id) <= id && (TrimSlashes(id) != "" ==> TrimSlashes(id)[|TrimSlashes(id)| - 1] != '/')
    ensures forall i :: |TrimSlashes(id)| <= i < |id| ==> id[i] == '/'
  {
    if id != "" && id[|id| - 1] == '/' { Trimmed(id[..|id| - 1]); }
  }

  /** The name a client goes by: its id, without closing slashes if it is not registered. */
  function NameOf(s: Provider, id: ClientId): ClientId { if id in s.clients then id else TrimSlashes(id) }

  lemma ResolveIs(s: Provider, id: ClientId, published: Option<set<string>>)
    ensures Resolve(s, id, published).Some? <==> Known(s, id, published)
    ensures Known(s, id, published) ==>
              var c := Resolve(s, id, published).value;
              c.id == NameOf(s, id) && (c.isPublic <==> IsPublic(s, id)) && (c.registered <==> id in s.clients) &&
              c.allowed == Allowed(s, id) && forall r :: r in c.redirects <==> MayRedirect(s, id, published, r)
  {
  }

  /** A client gets past the token endpoint's check exactly if it is known and showed its secret. */
  lemma AuthenticatedExactly(s: Provider, id: ClientId, published: Option<set<string>>, secret: Hash)
    ensures Authenticated(s, id, published, secret).Some? <==> id != "" && Known(s, id, published) && ShowsSecret(s, id, secret)
    ensures Authenticated(s, id, published, secret).Some? ==> (Authenticated(s, id, published, secret).value.isPublic <==> IsPublic(s, id))
  {
  }

  // ── authorize ─────────────────────────────────────────────────────────

  /** What the first request must get right. */
  predicate WellAsked(s: Provider, p: Params) {
    p.responseType == "code" && (IsPublic(s, p.clientId) ==> p.challenge.Some?) && (p.challenge.Some? ==> p.kind == Some("S256"))
  }

  /** The user granted every word of the scope before. */
  predicate Granted(s: Provider, u: UserId, c: ClientId, scope: string) {
    (u, c) in s.consents && forall w :: w in Words(scope) ==> ScopeHas(s.consents[(u, c)], w)
  }

  /** Which answer the authorization request gets, and when. */
  lemma GetExactly(s: Provider, enabled: bool, p: Params, user: Option<UserId>, code: CodeId, now: real)
    ensures var (s', reply) := AuthorizeGet(s, enabled, p, user, code, now);
            var shown := enabled && Known(s, p.clientId, p.published) && MayRedirect(s, p.clientId, p.published, p.redirect);
            var scope := EffectiveScope(p.scope, Allowed(s, p.clientId));
            (reply == ErrorPage <==> !shown) &&
            (reply == RedirectError <==> shown && !WellAsked(s, p)) &&
            (reply == LoginPage <==> shown && WellAsked(s, p) && user.None?) &&
            (reply == CodeIssued <==>
               shown && WellAsked(s, p) && user.Some? && p.clientId in s.clients && p.prompt != Some("consent") &&
               Granted(s, user.value, p.clientId, scope)) &&
            (reply.ConsentPage? ==> reply == ConsentPage(scope)) && (reply != CodeIssued ==> s' == s)
  {
    ResolveIs(s, p.clientId, p.published);
  }

  /** The posted form yields a code exactly if the client, the redirect, the session, the form token and the decision are right. */
  lemma PostExactly(s: Provider, p: Params, user: Option<UserId>, formOk: bool, approved: bool, code: CodeId, now: real)
    ensures var (s', reply) := AuthorizePost(s, p, user, formOk, approved, code, now);
            var shown := Known(s, p.clientId, p.published) && MayRedirect(s, p.clientId, p.published, p.redirect) && user.Some? && formOk;
            (reply == CodeIssued <==> shown && approved) && (reply == RedirectError <==> shown && !approved) &&
            (reply == ErrorPage <==> !shown) && (reply != CodeIssued ==> s' == s)
  {
    ResolveIs(s, p.clientId, p.published);
  }

  /** A new code says who asked for what, for whom, and where to: it is the only new row, but for the approval. */
  lemma CodeRow(s: Provider, q: Request, now: real)
    requires (q.Get? || q.Post?) && Serve(s, q, now).1 == CodeIssued
    ensures var s' := Serve(s, q, now).0;
            q.user.Some? && q.code in s'.codes &&
            s'.codes[q.code] == Code(NameOf(s, q.p.clientId), q.user.value, q.p.redirect,
                                     EffectiveScope(q.p.scope, Allowed(s, q.p.clientId)), q.p.challenge, q.p.kind, now + 60.0, false) &&
            s' == s.(codes := s.codes[q.code := s'.codes[q.code]], consents := s'.consents) &&
            (q.Get? ==> s'.consents == s.consents)
  {
    ResolveIs(s, q.p.clientId, q.p.published);
  }

  // ── token ─────────────────────────────────────────────────────────────

  /** Who may redeem a code: its client, for the redirect it was asked for, with the answer to its challenge; a public client not without one. */
  predicate Earns(s: Provider, e: Exchange, row: Code) {
    row.client == e.clientId && row.redirect == e.redirect && row.user in s.users &&
    if row.challenge.Some? then Answered(row.challenge.value, row.kind, e.verifier, e.digest) else !IsPublic(s, e.clientId)
  }

  /** An exchange yields tokens exactly for an authenticated client with a live code that it earns; a client that is not authenticated changes nothing. */
  lemma ExchangeExactly(s: Provider, e: Exchange, now: real)
    ensures var (s', reply) := ExchangeCode(s, e, now);
            var known := e.clientId != "" && Known(s, e.clientId, e.published) && ShowsSecret(s, e.clientId, e.secret);
            (reply == BadClient <==> !known) && (reply == BadClient ==> s' == s) &&
            (reply == TokensIssued <==>
               known && e.code in s.codes && !s.codes[e.code].used && s.codes[e.code].expiresAt > now && Earns(s, e, s.codes[e.code])) &&
            (reply != BadClient && reply != TokensIssued ==> reply == BadGrant)
  {
    AuthenticatedExactly(s, e.clientId, e.published, e.secret);
  }

  /** What is kept of a redeemed code is what was presented for it. */
  lemma GrantRecords(s: Provider, e: Exchange, now: real)
    requires ExchangeCode(s, e, now).1 == TokensIssued
    ensures var s' := ExchangeCode(s, e, now).0;
            e.code in s.codes && e.code in s'.grants &&
            s'.grants[e.code].isPublic == IsPublic(s, e.clientId) && s'.grants[e.code].chain == [e.refresh] &&
            (s'.grants[e.code].proof.Some? <==> s.codes[e.code].challenge.Some?) &&
            (s.codes[e.code].challenge.Some? ==>
               s'.grants[e.code].proof.value == Proof(s.codes[e.code].challenge.value, s.codes[e.code].kind, e.verifier, e.digest))
  {
    AuthenticatedExactly(s, e.clientId, e.published, e.secret);
  }

  /**
   * What becomes of a code: the next exchange of it yields tokens exactly within the
   * minute, for a client of the name it was issued to, with the redirect it was asked
   * for and the answer to its challenge, if the user is still there. The tokens are the
   * user's who agreed, for the scope that was agreed.
   */
  lemma CodeWorks(s: Provider, q: Request, now: real, e: Exchange, later: real)
    requires (q.Get? || q.Post?) && Serve(s, q, now).1 == CodeIssued && e.code == q.code && e.access != e.refresh
    ensures var (s', reply) := ExchangeCode(Serve(s, q, now).0, e, later);
            var scope := EffectiveScope(q.p.scope, Allowed(s, q.p.clientId));
            q.user.Some? &&
            (reply == TokensIssued <==>
               e.clientId != "" && Known(s, e.clientId, e.published) && ShowsSecret(s, e.clientId, e.secret) &&
               e.clientId == NameOf(s, q.p.clientId) && e.redirect == q.p.redirect && later < now + 60.0 && q.user.value in s.users &&
               if q.p.challenge.Some? then Answered(q.p.challenge.value, q.p.kind, e.verifier, e.digest) else !IsPublic(s, e.clientId)) &&
            (reply == TokensIssued ==>
               e.access in s'.tokens && e.refresh in s'.tokens &&
               s'.tokens[e.access] == Token(false, e.clientId, q.user.value, scope, later + s.accessTtl, false) &&
               s'.tokens[e.refresh] == Token(true, e.clientId, q.user.value, scope, later + s.refreshTtl, false))
  {
    var s1 := Serve(s, q, now).0;
    CodeRow(s, q, now);
    ClientStays(s, q, now);
    FreshCode(s1, e, later);
  }

  lemma FreshCode(s: Provider, e: Exchange, later: real)
    requires e.code in s.codes && !s.codes[e.code].used && e.access != e.refresh
    ensures var (s', reply) := ExchangeCode(s, e, later);
            var row := s.codes[e.code];
            (reply == TokensIssued <==>
               e.clientId != "" && Known(s, e.clientId, e.published) && ShowsSecret(s, e.clientId, e.secret) &&
               row.expiresAt > later && Earns(s, e, row)) &&
            (reply == TokensIssued ==>
               e.access in s'.tokens && e.refresh in s'.tokens &&
               s'.tokens[e.access] == Token(false, e.clientId, row.user, row.scope, later + s.accessTtl, false) &&
               s'.tokens[e.refresh] == Token(true, e.clientId, row.user, row.scope, later + s.refreshTtl, false))
  {
    ExchangeExactly(s, e, later);
    if ExchangeCode(s, e, later).1 == TokensIssued {
      AuthenticatedExactly(s, e.clientId, e.published, e.secret);
      ExchangeBurns(s, e, later);
    }
  }

  /**
   * A code bears the client's name without closing slashes: a client that publishes its
   * own document under an id closed by a slash never redeems its codes under that id.
   */
  lemma SlashedClient(s: Provider, id: ClientId, s': Provider, e: Exchange, later: real)
    requires id !in s.clients && id != "" && id[|id| - 1] == '/' && e.clientId == id
    requires e.code in s'.codes && s'.codes[e.code].client == NameOf(s, id)
    ensures ExchangeCode(s', e, later).1 != TokensIssued
  {
    Trimmed(id[..|id| - 1]);
    WrongName(s', e, later);
  }

  lemma WrongName(s: Provider, e: Exchange, later: real)
    requires e.code in s.codes && s.codes[e.code].client != e.clientId
    ensures ExchangeCode(s, e, later).1 != TokensIssued
  {
  }

  lemma ClientStays(s: Provider, q: Request, now: real)
    requires (q.Get? || q.Post?) && Serve(s, q, now).1 == CodeIssued
    ensures var s' := Serve(s, q, now).0;
            s'.clients == s.clients && s'.users == s.users && s'.accessTtl == s.accessTtl && s'.refreshTtl == s.refreshTtl &&
            Known(s, q.p.clientId, q.p.published)
  {
    ResolveIs(s, q.p.clientId, q.p.published);
  }

  /** A refresh yields tokens exactly for an authenticated client with a live refresh token of its own whose user still exists. */
  lemma RefreshExactly(s: Provider, r: Rotation, now: real)
    ensures var reply := RotateRefresh(s, r, now).1;
            var known := r.clientId != "" && Known(s, r.clientId, r.published) && ShowsSecret(s, r.clientId, r.secret);
            (reply == BadClient <==> !known) &&
            (reply == TokensIssued <==>
               known && r.h in s.tokens && s.tokens[r.h].isRefresh && s.tokens[r.h].client == r.clientId &&
               !s.tokens[r.h].revoked && s.tokens[r.h].expiresAt > now && s.tokens[r.h].user in s.users) &&
            (reply != BadClient && reply != TokensIssued ==> reply == BadGrant)
  {
    AuthenticatedExactly(s, r.clientId, r.published, r.secret);
  }

  /** The tokens a refresh hands out are the presented one's, but new and with a new life. */
  lemma RefreshedTokens(s: Provider, r: Rotation, now: real)
    requires RotateRefresh(s, r, now).1 == TokensIssued && r.access != r.refresh && r.h != r.access && r.h != r.refresh
    ensures var s' := RotateRefresh(s, r, now).0;
            r.h in s.tokens &&
            var row := s.tokens[r.h];
            s'.tokens == s.tokens[r.h := row.(revoked := true)]
                                 [r.access := Token(false, row.client, row.user, row.scope, now + s.accessTtl, false)]
                                 [r.refresh := Token(true, row.client, row.user, row.scope, now + s.refreshTtl, false)]
  {
  }

  // ── administration ────────────────────────────────────────────────────

  /** A disabled client gets nothing more, and nothing else changes. */
  lemma DisabledClient(s: Provider, id: ClientId, now: real, p: Params, enabled: bool, user: Option<UserId>, code: CodeId, e: Exchange, r: Rotation)
    requires id in s.clients && p.clientId == id && e.clientId == id && r.clientId == id
    ensures var s' := Serve(s, DisableClient(id), now).0;
            s' == s.(clients := s'.clients) && (forall c :: c in s.clients && c != id ==> c in s'.clients && s'.clients[c] == s.clients[c]) &&
            AuthorizeGet(s', enabled, p, user, code, now).1 == ErrorPage &&
            ExchangeCode(s', e, now).1 == BadClient && RotateRefresh(s', r, now).1 == BadClient
  {
    var s' := Serve(s, DisableClient(id), now).0;
    GetExactly(s', enabled, p, user, code, now);
    ExchangeExactly(s', e, now);
    RefreshExactly(s', r, now);
  }

  /** Revoking kills exactly the presented token. */
  lemma RevokedToken(s: Provider, h: Hash, now: real, k: Hash)
    ensures var s' := Serve(s, Revoke(h), now).0;
            (k in s'.tokens <==> k in s.tokens) && s' == s.(tokens := s'.tokens) &&
            (k in s.tokens ==> s'.tokens[k] == if k == h then s.tokens[k].(revoked := true) else s.tokens[k])
  {
  }

  /** A removed client leaves no token, code or consent; a registered one is found as registered. */
  lemma RemovedClient(s: Provider, id: ClientId, now: real, h: Hash, k: CodeId, u: UserId, c: ClientId)
    ensures var s' := Serve(s, RemoveClient(id), now).0;
            id !in s'.clients && (c != id && c in s.clients ==> c in s'.clients && s'.clients[c] == s.clients[c]) &&
            (h in s'.tokens <==> h in s.tokens && s.tokens[h].client != id) && (h in s'.tokens ==> s'.tokens[h] == s.tokens[h]) &&
            (k in s'.codes <==> k in s.codes && s.codes[k].client != id) && (k in s'.codes ==> s'.codes[k] == s.codes[k]) &&
            ((u, c) in s'.consents <==> (u, c) in s.consents && c != id) &&
            ((u, c) in s'.consents ==> s'.consents[(u, c)] == s.consents[(u, c)])
  {
  }

  lemma RegisteredClient(s: Provider, id: ClientId, client: Client, now: real, c: ClientId)
    requires Drawn(s, Register(id, client))
    ensures var s' := Serve(s, Register(id, client), now).0;
            id in s'.clients && s'.clients[id] == client && s' == s.(clients := s'.clients) &&
            (c in s.clients ==> c in s'.clients && s'.clients[c] == s.clients[c])
  {
  }
}
