/** The authorization server (oauth.go, oauth_routes.go, mcp.go), as functions on the state. */
module OAuth {
  import opened Tables
  import opened Oidc
  import opened Cimd
  import opened Urls
  import opened Auth

  datatype AuthzInput = AuthzInput(
    clientId: Url, redirect: Url, responseType: string, scope: string, state: string,
    challenge: string, method_: string, resource: string)

  datatype CodeInput = CodeInput(clientId: Url, code: Id, redirect: Url, verifier: string, resource: string)

  predicate ResourceOk(cfg: Config, resource: string) {
    resource == "" || cfg.resourceOk(resource)
  }

  /** What is wrong with an authorization request, in the order the server looks. */
  function AuthzError(cfg: Config, client: Option<Client>, i: AuthzInput): Option<ErrorCode> {
    if client.None? then Some(InvalidClient)
    else if !Allowed(client.value.redirects, i.redirect) then Some(InvalidRedirectUri)
    else if !ResourceOk(cfg, i.resource) then Some(InvalidTarget)
    else if i.responseType != "code" then Some(UnsupportedResponseType)
    else if i.challenge == "" then Some(InvalidRequest)
    else if i.method_ != "S256" then Some(InvalidRequest)
    else if i.scope != "" && !cfg.scopeOk(i.scope) then Some(InvalidScope)
    else None
  }

  /** beginAuthz */
  function BeginAuthz(cfg: Config, s: State, i: AuthzInput, now: int, f: Fetch, id: Id): (State, Answer) {
    var (t, client) := ResolveClient(cfg, s, i.clientId, now, f);
    var e := AuthzError(cfg, client, i);
    if e.Some? then (t, Failed(e.value))
    else
      var r := Request(i.clientId, i.redirect, i.scope, i.state, i.challenge, i.method_, now + REQUEST_TTL, "");
      (t.(requests := t.requests[id := r], issued := t.issued + {id}), RequestPending(id))
  }

  /** loadAuthzRequest */
  function LoadRequest(s: State, id: Id, now: int): (State, Option<Request>) {
    if id !in s.requests then (s, None)
    else if s.requests[id].expiresAt < now then (s.(requests := s.requests - {id}), None)
    else (s, Some(s.requests[id]))
  }

  /** renderConsent: the request is bound to the session that sees the page. */
  function RenderConsent(cfg: Config, s: State, id: Id, sid: Id, now: int, f: Fetch): (State, Answer) {
    var (t, r) := LoadRequest(s, id, now);
    if r.None? then (t, Failed(InvalidRequest))
    else
      var u := t.(requests := t.requests[id := r.value.(session := sid)]);
      (ResolveClient(cfg, u, r.value.clientId, now, f).0, ConsentShown(r.value.clientId, r.value.redirect))
  }

  /** The consent page is shown to a signed-in session only. */
  function ShowConsent(cfg: Config, s: State, id: Id, sid: Id, now: int, reply: TokenReply, f: Fetch): (State, Answer) {
    var (t, who) := ResolveSession(cfg, s, sid, now, reply);
    if !who.Someone? then (t, NotSignedIn) else RenderConsent(cfg, t, id, sid, now, f)
  }

  /** completeAuthz */
  function CompleteAuthz(s: State, id: Id, sid: Id, subject: string, login: Id, now: int, code: Id): (State, Answer) {
    var (t, r) := LoadRequest(s, id, now);
    if r.None? then (t, Failed(InvalidRequest))
    else if r.value.session == "" || r.value.session != sid then (t, Failed(AccessDenied))
    else
      var q := r.value;
      var c := Code(q.clientId, subject, q.redirect, q.challenge, q.method_, q.scope, now + CODE_TTL, false, login);
      (t.(codes := t.codes[code := c], requests := t.requests - {id}, issued := t.issued + {code}),
       CodeSent(code, q.redirect, q.state))
  }

  /** POST /oauth/approve */
  function Approve(cfg: Config, s: State, id: Id, sid: Id, now: int, reply: TokenReply, code: Id): (State, Answer) {
    var (t, who) := ResolveSession(cfg, s, sid, now, reply);
    if !who.Someone? then (t, NotSignedIn)
    else if id == "" then (t, Failed(InvalidRequest))
    else CompleteAuthz(t, id, sid, who.subject, who.login, now, code)
  }

  /** POST /oauth/deny */
  function Deny(s: State, id: Id, now: int): State {
    var (t, r) := LoadRequest(s, id, now);
    if r.None? then t else t.(requests := t.requests - {id})
  }

  predicate VerifyPkce(cfg: Config, challenge: string, method_: string, verifier: string) {
    method_ == "S256" && cfg.s256(verifier) == challenge
  }

  /** checkIdpSessionForGrant: None when the login behind the grant is alive. */
  function CheckLogin(cfg: Config, s: State, login: Id, now: int, reply: TokenReply): (State, Option<ErrorCode>) {
    if login == "" then (s, Some(InvalidGrant))
    else
      var (t, r) := FreshLogin(cfg, s, login, now, reply);
      match r
      case Alive(_) => (t, None)
      case Ended => (t, Some(InvalidGrant))
      case Unavailable => (t, Some(TemporarilyUnavailable))
  }

  /** mintTokens */
  function MintTokens(s: State, clientId: Url, subject: string, scope: string, login: Id, now: int, access: Id, refresh: Id): (State, Answer) {
    (s.(tokens := s.tokens[access := Token(Access, clientId, subject, scope, now + ACCESS_TTL, false, login)]
                          [refresh := Token(Refresh, clientId, subject, scope, now + REFRESH_TTL, false, login)],
        issued := s.issued + {access, refresh}),
     Issued(access, refresh, if scope == "" then "mcp" else scope))
  }

  /** What is wrong with a code at the token endpoint. */
  function CodeError(cfg: Config, s: State, i: CodeInput, now: int): Option<ErrorCode> {
    if i.code !in s.codes then Some(InvalidGrant)
    else
      var c := s.codes[i.code];
      if c.used || c.expiresAt < now || c.clientId != i.clientId || c.redirect != i.redirect then Some(InvalidGrant)
      else if !VerifyPkce(cfg, c.challenge, c.method_, i.verifier) then Some(InvalidGrant)
      else if !ResourceOk(cfg, i.resource) then Some(InvalidTarget)
      else None
  }

  /** The last part of both grants: the login is checked, then tokens are minted from where it leaves the state. */
  function Grant(cfg: Config, s: State, clientId: Url, subject: string, scope: string, login: Id, now: int, reply: TokenReply,
                 access: Id, refresh: Id, giveUp: Option<Id>): (State, Answer) {
    var (t, dead) := CheckLogin(cfg, s, login, now, reply);
    if dead.Some? then (t, Failed(dead.value))
    else MintTokens(if giveUp.Some? then RevokeToken(t, giveUp.value) else t, clientId, subject, scope, login, now, access, refresh)
  }

  function RevokeToken(s: State, token: Id): State {
    if token in s.tokens then s.(tokens := s.tokens[token := s.tokens[token].(revoked := true)]) else s
  }

  function UseCode(s: State, code: Id): State
    requires code in s.codes
  {
    s.(codes := s.codes[code := s.codes[code].(used := true)])
  }

  /** exchangeAuthorizationCode */
  function ExchangeCode(cfg: Config, s: State, i: CodeInput, now: int, f: Fetch, reply: TokenReply, access: Id, refresh: Id): (State, Answer) {
    var (t, client) := ResolveClient(cfg, s, i.clientId, now, f);
    if client.None? then (t, Failed(InvalidClient)) else RedeemCode(cfg, t, i, now, reply, access, refresh)
  }

  /** The code is used up before the login behind it is checked. */
  function RedeemCode(cfg: Config, s: State, i: CodeInput, now: int, reply: TokenReply, access: Id, refresh: Id): (State, Answer) {
    var e := CodeError(cfg, s, i, now);
    if e.Some? then (s, Failed(e.value))
    else
      var c := s.codes[i.code];
      Grant(cfg, UseCode(s, i.code), c.clientId, c.subject, c.scope, c.idp, now, reply, access, refresh, None)
  }

  /** A refresh token the token endpoint accepts from clientId. */
  predicate RefreshTokenOk(s: State, clientId: Url, token: Id, now: int) {
    token in s.tokens && var t := s.tokens[token];
    t.kind == Refresh && !t.revoked && !(t.expiresAt < now) && t.clientId == clientId
  }

  /** exchangeRefreshToken */
  function ExchangeRefresh(cfg: Config, s: State, clientId: Url, token: Id, now: int, f: Fetch, reply: TokenReply, access: Id, refresh: Id): (State, Answer) {
    var (t, client) := ResolveClient(cfg, s, clientId, now, f);
    if client.None? then (t, Failed(InvalidClient)) else RenewToken(cfg, t, clientId, token, now, reply, access, refresh)
  }

  /** The login is checked before the old token is given up. */
  function RenewToken(cfg: Config, s: State, clientId: Url, token: Id, now: int, reply: TokenReply, access: Id, refresh: Id): (State, Answer) {
    if !RefreshTokenOk(s, clientId, token, now) then (s, Failed(InvalidGrant))
    else
      var o := s.tokens[token];
      Grant(cfg, s, o.clientId, o.subject, o.scope, o.idp, now, reply, access, refresh, Some(token))
  }

  /** resolveAccessToken */
  predicate AccessTokenOk(s: State, token: Id, now: int) {
    token in s.tokens && var t := s.tokens[token];
    t.kind == Access && !t.revoked && !(t.expiresAt < now) && t.idp != ""
  }

  /** bearerContext */
  function BearerContext(cfg: Config, s: State, token: Id, now: int, reply: TokenReply): (State, Who) {
    if !AccessTokenOk(s, token, now) then (s, Nobody)
    else
      var (t, who) := ContextFor(cfg, s, s.tokens[token].idp, now, reply);
      if who.Someone? && who.subject != s.tokens[token].subject then (t, Nobody) else (t, who)
  }

  /** revokeClient */
  function RevokeClient(s: State, subject: string, clientId: Url): State {
    s.(tokens := TokensRevoked(s.tokens, subject, clientId), codes := CodesDropped(s.codes, subject, clientId))
  }

  function TokensRevoked(tokens: map<Id, Token>, subject: string, clientId: Url): map<Id, Token> {
    map k | k in tokens ::
      if tokens[k].subject == subject && tokens[k].clientId == clientId then tokens[k].(revoked := true) else tokens[k]
  }

  function CodesDropped(codes: map<Id, Code>, subject: string, clientId: Url): map<Id, Code> {
    map k | k in codes && !(codes[k].subject == subject && codes[k].clientId == clientId) :: codes[k]
  }

  /** POST /revoke */
  function Disconnect(cfg: Config, s: State, sid: Id, clientId: Url, now: int, reply: TokenReply): (State, Answer) {
    var (t, who) := ResolveSession(cfg, s, sid, now, reply);
    if !who.Someone? then (t, NotSignedIn) else (RevokeClient(t, who.subject, clientId), Done)
  }

  function AnswerOf(who: Who): Answer {
    match who
    case Nobody => NotSignedIn
    case Down => ProviderDown
    case Someone(subject, user, teams, _) => SignedInAs(subject, user, teams)
  }
}
