// The authorization-code and refresh grants of the OpenID provider
// (crates/userserver/src/oidc/tokens.rs, crates/userserver/src/routes/oidc.rs).
// A handler is one atomic step. Drawn codes and tokens, the clock and the hashes of
// presented secrets are passed in.

module OAuthSpec {
  import opened Options
  import opened Scopes

  type ClientId = string
  type UserId = string
  type CodeId = string
  type Hash = string   // SHA-256 of a token or secret

  /** A row of oauth_clients. */
  datatype Client = Client(isPublic: bool, secretHash: Option<Hash>, allowed: string, redirects: set<string>, disabled: bool)

  /** What `resolve` yields: a registered client, or a relying party that publishes its own document. */
  datatype Resolved = Resolved(
    id: ClientId, isPublic: bool, registered: bool, secretHash: Option<Hash>, allowed: string, redirects: set<string>)

  datatype Code = Code(
    client: ClientId, user: UserId, redirect: string, scope: string,
    challenge: Option<string>, kind: Option<string>, expiresAt: real, used: bool)

  datatype Token = Token(isRefresh: bool, client: ClientId, user: UserId, scope: string, expiresAt: real, revoked: bool)

  /** What a client showed for a challenge; `digest` is the encoded SHA-256 of `verifier`. */
  datatype Proof = Proof(challenge: string, kind: Option<string>, verifier: string, digest: string)

  /** Bookkeeping of one exchanged code: who got what, and the refresh tokens since, oldest first. */
  datatype Grant = Grant(
    client: ClientId, user: UserId, scope: string, isPublic: bool, proof: Option<Proof>, chain: seq<Hash>)

  datatype Provider = Provider(
    accessTtl: real, refreshTtl: real,
    users: set<UserId>,
    clients: map<ClientId, Client>,
    codes: map<CodeId, Code>,
    tokens: map<Hash, Token>,
    consents: map<(UserId, ClientId), string>,
    grants: map<CodeId, Grant>)   // kept by this model only

  datatype Reply =
    | ErrorPage | RedirectError | LoginPage | ConsentPage(scope: string) | CodeIssued
    | BadClient | BadGrant | TokensIssued | Done

  type Answer = (Provider, Reply)

  const CODE_TTL: real := 60.0

  // ── clients ───────────────────────────────────────────────────────────

  function TrimSlashes(s: string): string { if s != "" && s[|s| - 1] == '/' then TrimSlashes(s[..|s| - 1]) else s }

  /** `published` holds the redirect URIs of the document fetched from the client's own origin, if there is one. */
  function Resolve(s: Provider, id: ClientId, published: Option<set<string>>): Option<Resolved> {
    if id in s.clients then
      var c := s.clients[id];
      if c.disabled then None else Some(Resolved(id, c.isPublic, true, c.secretHash, c.allowed, c.redirects))
    else if published.Some? then
      Some(Resolved(TrimSlashes(id), true, false, None, "openid profile email bscp:links", published.value))
    else None
  }

  // ── authorize ─────────────────────────────────────────────────────────

  datatype Params = Params(
    clientId: ClientId, published: Option<set<string>>, redirect: string, responseType: string, scope: string,
    challenge: Option<string>, kind: Option<string>, prompt: Option<string>)

  /** `has_consent`. */
  predicate HasConsent(s: Provider, u: UserId, c: ClientId, scope: string) {
    (u, c) in s.consents && forall w :: w in Words(scope) ==> ScopeHas(s.consents[(u, c)], w)
  }

  function IssueCode(s: Provider, c: Resolved, u: UserId, p: Params, scope: string, code: CodeId, now: real): Provider {
    s.(codes := s.codes[code := Code(c.id, u, p.redirect, scope, p.challenge, p.kind, now + CODE_TTL, false)])
  }

  /** What a request must get right before a user is asked. */
  function Vet(c: Resolved, p: Params): Option<Reply> {
    if p.redirect !in c.redirects then Some(ErrorPage)
    else if p.responseType != "code" then Some(RedirectError)
    else if c.isPublic && p.challenge.None? then Some(RedirectError)
    else if p.challenge.Some? && p.kind != Some("S256") then Some(RedirectError)
    else None
  }

  predicate SkipsConsent(s: Provider, c: Resolved, u: UserId, p: Params) {
    c.registered && p.prompt != Some("consent") && HasConsent(s, u, c.id, EffectiveScope(p.scope, c.allowed))
  }

  function AuthorizeGet(s: Provider, enabled: bool, p: Params, user: Option<UserId>, code: CodeId, now: real): Answer {
    var found := Resolve(s, p.clientId, p.published);
    if !enabled || found.None? then (s, ErrorPage)
    else
      var c := found.value;
      if Vet(c, p).Some? then (s, Vet(c, p).value)
      else if user.None? then (s, LoginPage)
      else if SkipsConsent(s, c, user.value, p) then
        (IssueCode(s, c, user.value, p, EffectiveScope(p.scope, c.allowed), code, now), CodeIssued)
      else (s, ConsentPage(EffectiveScope(p.scope, c.allowed)))
  }

  /** The posted form. It is checked for the redirect, the session, the form token and the decision, and for nothing else. */
  function AuthorizePost(s: Provider, p: Params, user: Option<UserId>, formOk: bool, approved: bool, code: CodeId, now: real): Answer {
    var found := Resolve(s, p.clientId, p.published);
    if found.None? || p.redirect !in found.value.redirects || user.None? || !formOk then (s, ErrorPage)
    else if !approved then (s, RedirectError)
    else
      var c := found.value;
      var scope := EffectiveScope(p.scope, c.allowed);
      (IssueCode(s.(consents := s.consents[(user.value, c.id) := scope]), c, user.value, p, scope, code, now), CodeIssued)
  }

  // ── token ─────────────────────────────────────────────────────────────

  /** RFC 7636, section 4.6. Any method but S256 compares the strings themselves. */
  predicate VerifyPkce(p: Proof) { if p.kind == Some("S256") then p.digest == p.challenge else p.challenge == p.verifier }

  /** `secret` is the hash of the presented client secret. */
  function Authenticated(s: Provider, id: ClientId, published: Option<set<string>>, secret: Hash): Option<Resolved> {
    var found := Resolve(s, id, published);
    if id == "" || found.None? || (found.value.secretHash.Some? && found.value.secretHash.value != secret) then None
    else found
  }

  function IssueTokens(s: Provider, client: ClientId, user: UserId, scope: string, access: Hash, refresh: Hash, now: real): Provider {
    s.(tokens := s.tokens[access := Token(false, client, user, scope, now + s.accessTtl, false)]
                         [refresh := Token(true, client, user, scope, now + s.refreshTtl, false)])
  }

  /** A code-grant request at the token endpoint. */
  datatype Exchange = Exchange(
    clientId: ClientId, published: Option<set<string>>, secret: Hash, code: CodeId, redirect: string,
    verifier: string, digest: string, access: Hash, refresh: Hash)

  predicate Usable(s: Provider, code: CodeId, now: real) {
    code in s.codes && !s.codes[code].used && s.codes[code].expiresAt > now
  }

  function Consumed(s: Provider, code: CodeId): Provider {
    if code in s.codes then s.(codes := s.codes[code := s.codes[code].(used := true)]) else s
  }

  function ProofOf(row: Code, e: Exchange): Option<Proof> {
    if row.challenge.Some? then Some(Proof(row.challenge.value, row.kind, e.verifier, e.digest)) else None
  }

  /** The code is this client's, for this redirect, the challenge is answered, and the user still exists. */
  predicate Redeems(s: Provider, c: Resolved, e: Exchange, row: Code) {
    row.client == e.clientId && row.redirect == e.redirect &&
    (if row.challenge.Some? then e.verifier != "" && VerifyPkce(ProofOf(row, e).value) else !c.isPublic) &&
    row.user in s.users
  }

  function ExchangeCode(s: Provider, e: Exchange, now: real): Answer {
    var found := Authenticated(s, e.clientId, e.published, e.secret);
    if found.None? then (s, BadClient)
    else if !Usable(s, e.code, now) then (s, BadGrant)
    else
      var row := s.codes[e.code];
      var burnt := Consumed(s, e.code);
      if !Redeems(s, found.value, e, row) then (burnt, BadGrant)
      else
        (IssueTokens(burnt, e.clientId, row.user, row.scope, e.access, e.refresh, now)
           .(grants := s.grants[e.code := Grant(e.clientId, row.user, row.scope, found.value.isPublic, ProofOf(row, e), [e.refresh])]),
         TokensIssued)
  }

  function Revoked(s: Provider, h: Hash): Provider {
    if h in s.tokens then s.(tokens := s.tokens[h := s.tokens[h].(revoked := true)]) else s
  }

  /** A refresh-grant request; `h` is the hash of the presented token. */
  datatype Rotation = Rotation(
    clientId: ClientId, published: Option<set<string>>, secret: Hash, h: Hash, access: Hash, refresh: Hash)

  predicate Refreshable(s: Provider, r: Rotation, now: real) {
    r.h in s.tokens && s.tokens[r.h].isRefresh && s.tokens[r.h].client == r.clientId &&
    !s.tokens[r.h].revoked && s.tokens[r.h].expiresAt > now
  }

  function Lengthened(grants: map<CodeId, Grant>, h: Hash, refresh: Hash): map<CodeId, Grant> {
    map k | k in grants :: if h in grants[k].chain then grants[k].(chain := grants[k].chain + [refresh]) else grants[k]
  }

  function RotateRefresh(s: Provider, r: Rotation, now: real): Answer {
    var found := Authenticated(s, r.clientId, r.published, r.secret);
    if found.None? then (s, BadClient)
    else if !Refreshable(s, r, now) then (s, BadGrant)
    else
      var row := s.tokens[r.h];
      var spent := Revoked(s, r.h);
      if row.user !in s.users then (spent, BadGrant)
      else
        (IssueTokens(spent, r.clientId, row.user, row.scope, r.access, r.refresh, now)
           .(grants := Lengthened(s.grants, r.h, r.refresh)),
         TokensIssued)
  }

  // ── administration ────────────────────────────────────────────────────

  function DropClient(s: Provider, c: ClientId): Provider {
    s.(tokens := (map h | h in s.tokens && s.tokens[h].client != c :: s.tokens[h]),
       codes := (map k | k in s.codes && s.codes[k].client != c :: s.codes[k]),
       consents := (map k | k in s.consents && k.1 != c :: s.consents[k]),
       clients := s.clients - {c})
  }

  function Disable(s: Provider, c: ClientId): Provider {
    if c in s.clients then s.(clients := s.clients[c := s.clients[c].(disabled := true)]) else s
  }

  // ── requests ──────────────────────────────────────────────────────────

  datatype Request =
    | Get(enabled: bool, p: Params, user: Option<UserId>, code: CodeId)
    | Post(p: Params, user: Option<UserId>, formOk: bool, approved: bool, code: CodeId)
    | Redeem(e: Exchange)
    | Refresh(r: Rotation)
    | Revoke(h: Hash)
    | Register(id: ClientId, client: Client)
    | DisableClient(id: ClientId)
    | RemoveClient(id: ClientId)

  /** A token's hash that was never handed out before. */
  ghost predicate NewHash(s: Provider, h: Hash) {
    h !in s.tokens && forall k :: k in s.grants ==> h !in s.grants[k].chain
  }

  predicate NewCode(s: Provider, code: CodeId) { code !in s.codes && code !in s.grants }

  /** Random codes, tokens and client ids are new. */
  ghost predicate Drawn(s: Provider, q: Request) {
    match q
    case Get(_, _, _, code) => NewCode(s, code)
    case Post(_, _, _, _, code) => NewCode(s, code)
    case Redeem(e) => NewHash(s, e.access) && NewHash(s, e.refresh) && e.access != e.refresh
    case Refresh(r) => NewHash(s, r.access) && NewHash(s, r.refresh) && r.access != r.refresh
    case Register(id, client) => id !in s.clients && !client.disabled
    case _ => true
  }

  function Serve(s: Provider, q: Request, now: real): Answer {
    match q
    case Get(enabled, p, user, code) => AuthorizeGet(s, enabled, p, user, code, now)
    case Post(p, user, formOk, approved, code) => AuthorizePost(s, p, user, formOk, approved, code, now)
    case Redeem(e) => ExchangeCode(s, e, now)
    case Refresh(r) => RotateRefresh(s, r, now)
    case Revoke(h) => (Revoked(s, h), Done)
    case Register(id, client) => (s.(clients := s.clients[id := client]), Done)
    case DisableClient(id) => (Disable(s, id), Done)
    case RemoveClient(id) => (DropClient(s, id), Done)
  }

  // ── runs ──────────────────────────────────────────────────────────────

  /** A request and the time it is served at. */
  datatype Event = Event(q: Request, now: real)

  function After(s: Provider, es: seq<Event>): Provider
    decreases |es|
  {
    if es == [] then s else After(Serve(s, es[0].q, es[0].now).0, es[1..])
  }

  ghost predicate AllDrawn(s: Provider, es: seq<Event>)
    decreases |es|
  {
    es == [] || (Drawn(s, es[0].q) && AllDrawn(Serve(s, es[0].q, es[0].now).0, es[1..]))
  }

  function Blank(accessTtl: real, refreshTtl: real, users: set<UserId>): Provider {
    Provider(accessTtl, refreshTtl, users, map[], map[], map[], map[], map[])
  }
}
