/** Provider logins and browser sessions (auth.go, web_auth.go), as functions on the state. */
module Auth {
  import opened Tables
  import opened Oidc
  import opened Cimd
  import opened Urls
  import Text

  // ----- freshness ---------------------------------------------------------------------

  /** Duration.Milliseconds truncates toward zero. */
  function Millis(ns: int): int {
    if ns >= 0 then ns / 1_000_000 else -(-ns / 1_000_000)
  }

  /** accessExpiry: expires_in seconds, multiplied in int64, capped by the refresh interval. */
  function AccessExpiry(cfg: Config, expiresIn: int, now: int): int {
    var d := Wrap64(expiresIn * SECOND);
    var lifetime := if expiresIn > 0 && d < cfg.refreshInterval then d else cfg.refreshInterval;
    now + Millis(lifetime)
  }

  predicate RefreshDue(row: Login, now: int) {
    now >= row.accessExpiresAt - REFRESH_LEEWAY
  }

  /** Even a lifetime that wraps int64 never stretches a login beyond the refresh interval. */
  lemma ExpiryBounded(cfg: Config, expiresIn: int, now: int)
    requires ValidConfig(cfg)
    ensures AccessExpiry(cfg, expiresIn, now) <= now + Millis(cfg.refreshInterval) == now + cfg.refreshInterval / 1_000_000
    ensures expiresIn <= 0 ==> AccessExpiry(cfg, expiresIn, now) == now + cfg.refreshInterval / 1_000_000
    ensures 0 < expiresIn && expiresIn * SECOND <= INT64_MAX ==>
              AccessExpiry(cfg, expiresIn, now) ==
              now + if expiresIn * SECOND < cfg.refreshInterval then expiresIn * 1000 else cfg.refreshInterval / 1_000_000
  {
    if 0 < expiresIn && expiresIn * SECOND <= INT64_MAX {
      assert Wrap64(expiresIn * SECOND) == expiresIn * SECOND;
      assert Millis(expiresIn * SECOND) == expiresIn * 1000;
    }
  }

  predicate LacksTeam(cfg: Config, teams: seq<Team>) {
    cfg.requireTeam && teams == []
  }

  // ----- ending logins --------------------------------------------------------------------

  /** The conditions on idp_sessions that callers pass; "" in sid is NULL and matches nothing. */
  datatype Where = ById(id: Id) | BySubject(sub: string) | BySid(sid: string) | BySidAndSubject(sid: string, sub: string) | All

  predicate Matches(w: Where, id: Id, row: Login) {
    match w
    case ById(i) => i == id
    case BySubject(sub) => row.subject == sub
    case BySid(sid) => row.sid != "" && row.sid == sid
    case BySidAndSubject(sid, sub) => row.sid != "" && row.sid == sid && row.subject == sub
    case All => true
  }

  function Selected(s: State, w: Where): set<Id> {
    set i | i in s.logins && Matches(w, i, s.logins[i])
  }

  function SessionsWithout(m: map<Id, Session>, ids: set<Id>): map<Id, Session> {
    map k | k in m && m[k].idp !in ids :: m[k]
  }

  function TokensWithout(m: map<Id, Token>, ids: set<Id>): map<Id, Token> {
    map k | k in m && m[k].idp !in ids :: m[k]
  }

  function CodesWithout(m: map<Id, Code>, ids: set<Id>): map<Id, Code> {
    map k | k in m && m[k].idp !in ids :: m[k]
  }

  /** endIdpSessions on a set of ids: the logins and everything bound to them. */
  function EndLogins(s: State, ids: set<Id>): State {
    s.(sessions := SessionsWithout(s.sessions, ids), tokens := TokensWithout(s.tokens, ids),
       codes := CodesWithout(s.codes, ids), logins := s.logins - ids)
  }

  /** Ending logins one after the other or all at once is the same. */
  lemma EndTwice(s: State, a: set<Id>, b: set<Id>)
    ensures EndLogins(EndLogins(s, a), b) == EndLogins(s, a + b)
  {
    assert SessionsWithout(SessionsWithout(s.sessions, a), b) == SessionsWithout(s.sessions, a + b);
    assert TokensWithout(TokensWithout(s.tokens, a), b) == TokensWithout(s.tokens, a + b);
    assert CodesWithout(CodesWithout(s.codes, a), b) == CodesWithout(s.codes, a + b);
    assert s.logins - a - b == s.logins - (a + b);
  }

  lemma EndNone(s: State)
    ensures EndLogins(s, {}) == s
  {
    assert SessionsWithout(s.sessions, {}) == s.sessions && TokensWithout(s.tokens, {}) == s.tokens;
    assert CodesWithout(s.codes, {}) == s.codes && s.logins - {} == s.logins;
  }

  /** forceRefresh */
  function ForceRefresh(s: State, w: Where): State {
    s.(logins := Forced(s.logins, w))
  }

  function Forced(logins: map<Id, Login>, w: Where): map<Id, Login> {
    map i | i in logins :: if Matches(w, i, logins[i]) then logins[i].(accessExpiresAt := 0) else logins[i]
  }

  // ----- refreshing -------------------------------------------------------------------------

  datatype FreshResult = Alive(row: Login) | Ended | Unavailable

  function Refreshed(cfg: Config, row: Login, id: Identity, now: int): Login {
    row.(refreshToken := id.refreshToken, sid := if id.sid != "" then id.sid else row.sid, teams := id.teams,
         refreshedAt := now, accessExpiresAt := AccessExpiry(cfg, id.expiresIn, now))
  }

  function UpsertUser(users: map<string, User>, subject: string, username: string, name: string): map<string, User> {
    users[subject := User(if username == "" then subject else username, name, if subject in users then users[subject].email else "")]
  }

  function SetEmail(users: map<string, User>, subject: string, email: string): map<string, User> {
    if subject in users then users[subject := users[subject].(email := email)] else users
  }

  function RefreshProfile(users: map<string, User>, subject: string, id: Identity): map<string, User> {
    SetEmail(if id.name != "" then UpsertUser(users, subject, id.name, id.name) else users, subject, id.email)
  }

  /** What a due login becomes of the provider's answer. */
  function AfterReply(cfg: Config, s: State, id: Id, row: Login, v: Verdict, now: int): (State, FreshResult) {
    match v
    case Rejected => (EndLogins(s, {id}), Ended)
    case Transient => (s, Unavailable)
    case Accepted(ident) =>
      if LacksTeam(cfg, ident.teams) then (EndLogins(s, {id}), Ended)
      else
        var next := Refreshed(cfg, row, ident, now);
        (s.(logins := s.logins[id := next], users := RefreshProfile(s.users, row.subject, ident)), Alive(next))
  }

  /** freshIdpSession, undisturbed; reply is what the provider would answer if asked. */
  function FreshLogin(cfg: Config, s: State, id: Id, now: int, reply: TokenReply): (State, FreshResult) {
    if id == "" || id !in s.logins then (s, Ended)
    else
      var row := s.logins[id];
      if !RefreshDue(row, now) then (s, Alive(row))
      else if row.refreshToken == "" then (EndLogins(s, {id}), Ended)
      else AfterReply(cfg, s, id, row, OidcRefresh(cfg, reply, row.refreshToken, row.subject), now)
  }

  // ----- requests ------------------------------------------------------------------------------

  datatype Who = Nobody | Down | Someone(subject: string, user: User, teams: seq<Team>, login: Id)

  /** contextForIdpSession */
  function ContextFor(cfg: Config, s: State, id: Id, now: int, reply: TokenReply): (State, Who) {
    var (t, r) := FreshLogin(cfg, s, id, now, reply);
    match r
    case Ended => (t, Nobody)
    case Unavailable => (t, Down)
    case Alive(row) =>
      if row.subject in t.users then (t, Someone(row.subject, t.users[row.subject], row.teams, id)) else (t, Nobody)
  }

  function DestroySession(s: State, sid: Id): State {
    s.(sessions := s.sessions - {sid})
  }

  /** resolveSession */
  function ResolveSession(cfg: Config, s: State, sid: Id, now: int, reply: TokenReply): (State, Who) {
    if sid == "" || sid !in s.sessions then (s, Nobody)
    else if s.sessions[sid].expiresAt < now || s.sessions[sid].idp == "" then (DestroySession(s, sid), Nobody)
    else
      var (t, who) := ContextFor(cfg, s, s.sessions[sid].idp, now, reply);
      if who.Nobody? then (DestroySession(t, sid), Nobody) else (t, who)
  }

  /** loginViaOIDC, after the code exchange: nothing is stored for a refused login. */
  function LogIn(cfg: Config, s: State, id: Option<Identity>, now: int, login: Id, session: Id): (State, Answer) {
    if id.None? || LacksTeam(cfg, id.value.teams) then (s, NotSignedIn)
    else
      var i := id.value;
      var users := SetEmail(UpsertUser(s.users, i.subject, Text.Trim(i.name, Text.IsSpace), i.name), i.subject, i.email);
      var row := Login(i.subject, i.sid, i.refreshToken, i.teams, now, now, AccessExpiry(cfg, i.expiresIn, now));
      (s.(users := users, logins := s.logins[login := row],
          sessions := s.sessions[session := Session(i.subject, now + SESSION_TTL, login)],
          issued := s.issued + {login, session}),
       SignedInAs(i.subject, users[i.subject], i.teams))
  }

  /** logoutSession */
  function LogOut(s: State, sid: Id): State {
    if sid !in s.sessions then s
    else
      var idp := s.sessions[sid].idp;
      var t := DestroySession(s, sid);
      if idp == "" then t else EndLogins(t, Selected(t, ById(idp)))
  }

  // ----- purging -----------------------------------------------------------------------------

  function UnexpiredSessions(m: map<Id, Session>, now: int): map<Id, Session> {
    map k | k in m && !(m[k].expiresAt < now) :: m[k]
  }

  function UnexpiredTokens(m: map<Id, Token>, now: int): map<Id, Token> {
    map k | k in m && !(m[k].expiresAt < now) :: m[k]
  }

  function UnexpiredCodes(m: map<Id, Code>, now: int): map<Id, Code> {
    map k | k in m && !(m[k].expiresAt < now) :: m[k]
  }

  function UnexpiredRequests(m: map<Id, Request>, now: int): map<Id, Request> {
    map k | k in m && !(m[k].expiresAt < now) :: m[k]
  }

  function PurgeRows(s: State, now: int): State {
    s.(sessions := UnexpiredSessions(s.sessions, now), tokens := UnexpiredTokens(s.tokens, now),
       codes := UnexpiredCodes(s.codes, now), requests := UnexpiredRequests(s.requests, now))
  }

  /** A login some session, unrevoked token or code still points to. */
  predicate Referenced(sessions: map<Id, Session>, tokens: map<Id, Token>, codes: map<Id, Code>, id: Id) {
    || (exists k :: k in sessions && sessions[k].idp == id)
    || (exists k :: k in tokens && !tokens[k].revoked && tokens[k].idp == id)
    || (exists k :: k in codes && codes[k].idp == id)
  }

  function PurgeLogins(s: State, now: int): State {
    s.(logins := LoginsInUse(s.logins, s.sessions, s.tokens, s.codes, now))
  }

  function LoginsInUse(logins: map<Id, Login>, sessions: map<Id, Session>, tokens: map<Id, Token>, codes: map<Id, Code>, now: int)
    : map<Id, Login>
  {
    map i | i in logins && !(logins[i].createdAt < now - CODE_TTL && !Referenced(sessions, tokens, codes, i)) :: logins[i]
  }

  /** purgeAuth: its statements in order. */
  function PurgeAuth(s: State, now: int): State {
    PurgeLogins(EvictExpired(PurgeClients(PurgeRows(s, now), now), now), now)
  }
}
