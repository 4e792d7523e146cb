// The provider's tables and handlers (crates/userserver/src/oidc/tokens.rs,
// crates/userserver/src/routes/oidc.rs). Each method is proved against the
// transition of OAuthSpec it performs.

module OAuth {
  import opened Options
  import opened Scopes
  import opened OAuthSpec

  class OAuthProvider {
    const accessTtl: real
    const refreshTtl: real
    const users: set<UserId>
    var clients: map<ClientId, Client>
    var codes: map<CodeId, Code>
    var tokens: map<Hash, Token>
    var consents: map<(UserId, ClientId), string>
    ghost var grants: map<CodeId, Grant>

    ghost function State(): Provider
      reads this
    {
      Provider(accessTtl, refreshTtl, users, clients, codes, tokens, consents, grants)
    }

    constructor (accessTtl: real, refreshTtl: real, users: set<UserId>)
      ensures State() == Blank(accessTtl, refreshTtl, users)
    {
      this.accessTtl, this.refreshTtl, this.users := accessTtl, refreshTtl, users;
      clients, codes, tokens, consents, grants := map[], map[], map[], map[], map[];
    }

    /** Registered clients first, then the relying party's own document. */
    method Resolve(id: ClientId, published: Option<set<string>>) returns (found: Option<Resolved>)
      ensures found == OAuthSpec.Resolve(State(), id, published)
    {
      if id in clients {
        var c := clients[id];
        if c.disabled {
          return None;
        }
        return Some(Resolved(id, c.isPublic, true, c.secretHash, c.allowed, c.redirects));
      }
      if published.None? {
        return None;
      }
      found := Some(Resolved(TrimSlashes(id), true, false, None, "openid profile email bscp:links", published.value));
    }

    // ── authorize ───────────────────────────────────────────────────────

    method HasConsent(u: UserId, c: ClientId, scope: string) returns (ok: bool)
      ensures ok == OAuthSpec.HasConsent(State(), u, c, scope)
    {
      if (u, c) !in consents {
        return false;
      }
      var granted := SplitWhitespace(consents[(u, c)]);
      var ws := SplitWhitespace(scope);
      for i := 0 to |ws|
        invariant forall k :: 0 <= k < i ==> ws[k] in granted
      {
        if ws[i] !in granted {
          assert ws[i] in Words(scope);
          return false;
        }
      }
      ok := true;
    }

    method IssueCode(c: Resolved, u: UserId, p: Params, scope: string, code: CodeId, now: real)
      modifies this`codes
      ensures State() == OAuthSpec.IssueCode(old(State()), c, u, p, scope, code, now)
    {
      codes := codes[code := Code(c.id, u, p.redirect, scope, p.challenge, p.kind, now + CODE_TTL, false)];
    }

    method AuthorizeGet(enabled: bool, p: Params, user: Option<UserId>, code: CodeId, now: real) returns (reply: Reply)
      modifies this
      ensures (State(), reply) == OAuthSpec.AuthorizeGet(old(State()), enabled, p, user, code, now)
    {
      if !enabled {
        return ErrorPage;
      }
      var found := Resolve(p.clientId, p.published);
      if found.None? {
        return ErrorPage;
      }
      var c := found.value;
      if p.redirect !in c.redirects {
        return ErrorPage;
      }
      if p.responseType != "code" {
        return RedirectError;
      }
      if c.isPublic && p.challenge.None? {
        return RedirectError;
      }
      if p.challenge.Some? && p.kind != Some("S256") {
        return RedirectError;
      }
      var scope := NarrowScope(p.scope, c.allowed);
      if user.None? {
        return LoginPage;
      }
      var skip := c.registered && p.prompt != Some("consent");
      if skip {
        skip := HasConsent(user.value, c.id, scope);
      }
      if skip {
        IssueCode(c, user.value, p, scope, code, now);
        return CodeIssued;
      }
      reply := ConsentPage(scope);
    }

    method AuthorizePost(p: Params, user: Option<UserId>, formOk: bool, approved: bool, code: CodeId, now: real) returns (reply: Reply)
      modifies this
      ensures (State(), reply) == OAuthSpec.AuthorizePost(old(State()), p, user, formOk, approved, code, now)
    {
      var found := Resolve(p.clientId, p.published);
      if found.None? {
        return ErrorPage;
      }
      var c := found.value;
      if p.redirect !in c.redirects {
        return ErrorPage;
      }
      if user.None? || !formOk {
        return ErrorPage;
      }
      if !approved {
        return RedirectError;
      }
      var scope := NarrowScope(p.scope, c.allowed);
      consents := consents[(user.value, c.id) := scope];
      IssueCode(c, user.value, p, scope, code, now);
      reply := CodeIssued;
    }

    // ── token ───────────────────────────────────────────────────────────

    method Authenticate(id: ClientId, published: Option<set<string>>, secret: Hash) returns (found: Option<Resolved>)
      ensures found == Authenticated(State(), id, published, secret)
    {
      if id == "" {
        return None;
      }
      found := Resolve(id, published);
      if found.Some? && found.value.secretHash.Some? && secret != found.value.secretHash.value {
        return None;
      }
    }

    /** Fetch and single-use-consume a code. */
    method ConsumeCode(code: CodeId, now: real) returns (row: Option<Code>)
      modifies this`codes
      ensures row == if Usable(old(State()), code, now) then Some(old(codes)[code]) else None
      ensures State() == if row.Some? then Consumed(old(State()), code) else old(State())
    {
      if code !in codes || codes[code].used || codes[code].expiresAt <= now {
        return None;
      }
      row := Some(codes[code]);
      codes := codes[code := codes[code].(used := true)];
    }

    method IssueTokens(client: ClientId, user: UserId, scope: string, access: Hash, refresh: Hash, now: real)
      modifies this`tokens
      ensures State() == OAuthSpec.IssueTokens(old(State()), client, user, scope, access, refresh, now)
    {
      tokens := tokens[access := Token(false, client, user, scope, now + accessTtl, false)];
      tokens := tokens[refresh := Token(true, client, user, scope, now + refreshTtl, false)];
    }

    method ExchangeCode(e: Exchange, now: real) returns (reply: Reply)
      modifies this
      ensures (State(), reply) == OAuthSpec.ExchangeCode(old(State()), e, now)
    {
      var found := Authenticate(e.clientId, e.published, e.secret);
      if found.None? {
        return BadClient;
      }
      var consumed := ConsumeCode(e.code, now);
      if consumed.None? {
        return BadGrant;
      }
      var row := consumed.value;
      if row.client != e.clientId || row.redirect != e.redirect {
        return BadGrant;
      }
      if row.challenge.Some? {
        if e.verifier == "" || !VerifyPkce(Proof(row.challenge.value, row.kind, e.verifier, e.digest)) {
          return BadGrant;
        }
      } else if found.value.isPublic {
        return BadGrant;
      }
      if row.user !in users {
        return BadGrant;
      }
      IssueTokens(e.clientId, row.user, row.scope, e.access, e.refresh, now);
      grants := grants[e.code := Grant(e.clientId, row.user, row.scope, found.value.isPublic, ProofOf(row, e), [e.refresh])];
      reply := TokensIssued;
    }

    method RotateRefresh(r: Rotation, now: real) returns (reply: Reply)
      modifies this
      ensures (State(), reply) == OAuthSpec.RotateRefresh(old(State()), r, now)
    {
      var found := Authenticate(r.clientId, r.published, r.secret);
      if found.None? {
        return BadClient;
      }
      if r.h !in tokens || !tokens[r.h].isRefresh || tokens[r.h].client != r.clientId || tokens[r.h].revoked ||
         tokens[r.h].expiresAt <= now {
        return BadGrant;
      }
      var row := tokens[r.h];
      tokens := tokens[r.h := row.(revoked := true)];
      if row.user !in users {
        return BadGrant;
      }
      IssueTokens(r.clientId, row.user, row.scope, r.access, r.refresh, now);
      grants := Lengthened(grants, r.h, r.refresh);
      reply := TokensIssued;
    }

    method Revoke(h: Hash)
      modifies this`tokens
      ensures State() == Revoked(old(State()), h)
    {
      if h in tokens {
        tokens := tokens[h := tokens[h].(revoked := true)];
      }
    }

    // ── administration ──────────────────────────────────────────────────

    method RemoveClient(c: ClientId)
      modifies this
      ensures State() == DropClient(old(State()), c)
    {
      tokens := map h | h in tokens && tokens[h].client != c :: tokens[h];
      codes := map k | k in codes && codes[k].client != c :: codes[k];
      consents := map k | k in consents && k.1 != c :: consents[k];
      clients := clients - {c};
    }

    method DisableClient(c: ClientId)
      modifies this`clients
      ensures State() == Disable(old(State()), c)
    {
      if c in clients {
        clients := clients[c := clients[c].(disabled := true)];
      }
    }
  }
}
