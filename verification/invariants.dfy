/** What every step keeps. */
module Invariants {
  import opened Tables
  import opened Oidc
  import opened Cimd
  import opened Urls
  import opened Auth
  import opened OAuth
  import opened Runs
  import Text

  ghost predicate BoundTo(logins: map<Id, Login>, login: Id, subject: string) {
    login in logins && logins[login].subject == subject
  }

  ghost predicate SessionsBound(logins: map<Id, Login>, sessions: map<Id, Session>) {
    forall k :: k in sessions ==> BoundTo(logins, sessions[k].idp, sessions[k].subject)
  }

  ghost predicate CodesBound(logins: map<Id, Login>, codes: map<Id, Code>) {
    forall k :: k in codes ==> BoundTo(logins, codes[k].idp, codes[k].subject)
  }

  ghost predicate TokensBound(logins: map<Id, Login>, tokens: map<Id, Token>) {
    forall k :: k in tokens && !tokens[k].revoked ==> BoundTo(logins, tokens[k].idp, tokens[k].subject)
  }

  /** Every session, code and unrevoked token points to an existing login of the same subject. */
  ghost predicate Bound(s: State) {
    SessionsBound(s.logins, s.sessions) && CodesBound(s.logins, s.codes) && TokensBound(s.logins, s.tokens)
  }

  /** Every login has its user row, a team if one is required, and a lifetime within the refresh interval of its last refresh. */
  ghost predicate LoginsOk(cfg: Config, logins: map<Id, Login>, users: map<string, User>) {
    forall i :: i in logins ==>
      && logins[i].subject in users
      && (cfg.requireTeam ==> logins[i].teams != [])
      && 0 <= logins[i].refreshedAt
      && logins[i].accessExpiresAt <= logins[i].refreshedAt + Millis(cfg.refreshInterval)
  }

  ghost predicate IdsIssued(s: State) {
    && "" !in s.issued
    && s.sessions.Keys <= s.issued && s.logins.Keys <= s.issued && s.requests.Keys <= s.issued
    && s.codes.Keys <= s.issued && s.tokens.Keys <= s.issued
  }

  /** Every request is for S256, with a redirect that is safe for its client. */
  ghost predicate RequestsSafe(requests: map<Id, Request>) {
    forall r :: r in requests ==> SafeRedirect(requests[r].clientId, requests[r].redirect) && requests[r].method_ == "S256"
  }

  ghost predicate CodesSafe(codes: map<Id, Code>) {
    forall c :: c in codes ==> SafeRedirect(codes[c].clientId, codes[c].redirect) && codes[c].method_ == "S256"
  }

  /** Every stored redirect, from the metadata document to the code, is safe for its client. */
  ghost predicate RedirectsSafe(s: State) {
    ClientsSafe(s.clients) && RequestsSafe(s.requests) && CodesSafe(s.codes)
  }

  ghost predicate Inv(cfg: Config, s: State) {
    ValidConfig(cfg) && Bound(s) && LoginsOk(cfg, s.logins, s.users) && IdsIssued(s) && RedirectsSafe(s) && CacheOk(s.cache)
  }

  /** Nothing but logins, their users and their dependants moved. */
  ghost predicate SameFlow(s: State, t: State) {
    t.requests == s.requests && t.clients == s.clients && t.cache == s.cache && t.issued == s.issued
  }

  /** Sessions, codes and tokens of t are rows of s. */
  ghost predicate Fewer(s: State, t: State) {
    && (forall k :: k in t.sessions ==> k in s.sessions && t.sessions[k] == s.sessions[k])
    && (forall k :: k in t.codes ==> k in s.codes && t.codes[k] == s.codes[k])
    && (forall k :: k in t.tokens ==> k in s.tokens && t.tokens[k] == s.tokens[k])
  }

  ghost predicate SameDependants(s: State, t: State) {
    t.sessions == s.sessions && t.tokens == s.tokens && t.codes == s.codes
  }

  lemma EndingKeepsInv(cfg: Config, s: State, ids: set<Id>)
    requires Inv(cfg, s)
    ensures Inv(cfg, EndLogins(s, ids)) && SameFlow(s, EndLogins(s, ids))
  {
  }

  /** Ending removes the chosen logins with everything bound to them, and nothing else. */
  lemma EndingIsExact(cfg: Config, s: State, w: Where)
    requires Inv(cfg, s)
    ensures var t := EndLogins(s, Selected(s, w));
            && (forall i :: i in t.logins <==> i in s.logins && !Matches(w, i, s.logins[i]))
            && (forall k :: k in t.sessions <==> k in s.sessions && s.sessions[k].idp in t.logins)
            && (forall k :: k in t.codes <==> k in s.codes && s.codes[k].idp in t.logins)
            && (forall k :: k in s.tokens && !s.tokens[k].revoked ==> (k in t.tokens <==> s.tokens[k].idp in t.logins))
            && (forall i :: i in t.logins ==> t.logins[i] == s.logins[i])
            && Fewer(s, t) && t.users == s.users && SameFlow(s, t)
  {
  }

  lemma RefreshedKeepsInv(cfg: Config, s: State, id: Id, ident: Identity, now: int)
    requires Inv(cfg, s) && id in s.logins && 0 <= now && !LacksTeam(cfg, ident.teams)
    ensures var row := s.logins[id];
            var t := s.(logins := s.logins[id := Refreshed(cfg, row, ident, now)], users := RefreshProfile(s.users, row.subject, ident));
            Inv(cfg, t)
  {
    var row := s.logins[id];
    ExpiryBounded(cfg, ident.expiresIn, now);
    assert s.users.Keys <= RefreshProfile(s.users, row.subject, ident).Keys;
  }

  lemma AfterReplyKeepsInv(cfg: Config, s: State, id: Id, v: Verdict, now: int)
    requires Inv(cfg, s) && 0 <= now && id in s.logins
    ensures var t := AfterReply(cfg, s, id, s.logins[id], v, now).0; Inv(cfg, t) && SameFlow(s, t)
  {
    EndingKeepsInv(cfg, s, {id});
    if v.Accepted? && !LacksTeam(cfg, v.identity.teams) {
      RefreshedKeepsInv(cfg, s, id, v.identity, now);
    }
  }

  /** What a freshness check may have done: nothing but refresh this login, or end it with its dependants. */
  ghost predicate Checked(s: State, t: State, id: Id, r: FreshResult) {
    && SameFlow(s, t) && Fewer(s, t)
    && (r.Alive? ==> id in s.logins && t.logins == s.logins[id := r.row] && r.row.subject == s.logins[id].subject && SameDependants(s, t))
    && (r.Ended? ==> id !in t.logins)
  }

  lemma AfterReplyChecked(cfg: Config, s: State, id: Id, v: Verdict, now: int)
    requires id in s.logins
    ensures var (t, r) := AfterReply(cfg, s, id, s.logins[id], v, now); Checked(s, t, id, r)
  {
  }

  /** freshIdpSession keeps the invariants; a login it returns is the stored one, of the same subject. */
  lemma FreshLoginFacts(cfg: Config, s: State, id: Id, now: int, reply: TokenReply)
    requires Inv(cfg, s) && 0 <= now
    ensures var (t, r) := FreshLogin(cfg, s, id, now, reply); Inv(cfg, t) && Checked(s, t, id, r)
  {
    if id != "" && id in s.logins && RefreshDue(s.logins[id], now) {
      var row := s.logins[id];
      var v := if row.refreshToken == "" then Rejected else OidcRefresh(cfg, reply, row.refreshToken, row.subject);
      assert FreshLogin(cfg, s, id, now, reply) == AfterReply(cfg, s, id, row, v, now);
      AfterReplyKeepsInv(cfg, s, id, v, now);
      AfterReplyChecked(cfg, s, id, v, now);
    }
  }

  /** Teams handed to a request were read from the provider in this very call, or less than the interval minus 15 s ago. */
  lemma TeamsAreFresh(cfg: Config, s: State, id: Id, now: int, reply: TokenReply)
    requires Inv(cfg, s) && 0 <= now && FreshLogin(cfg, s, id, now, reply).1.Alive?
    ensures var row := FreshLogin(cfg, s, id, now, reply).1.row;
            if s.logins[id].accessExpiresAt - REFRESH_LEEWAY <= now then
              row.refreshedAt == now && Confirms(cfg, reply, row.subject) && row.teams == TeamsTold(cfg, reply)
            else row == s.logins[id] && now < row.refreshedAt + Millis(cfg.refreshInterval) - REFRESH_LEEWAY
  {
    FreshLoginFacts(cfg, s, id, now, reply);
    var was := s.logins[id];
    if RefreshDue(was, now) {
      RefreshOutcome(cfg, reply, was.refreshToken, was.subject);
      RefreshTells(cfg, reply, was.refreshToken, was.subject);
    }
  }

  /** A forced login is due at once: its next use asks the provider or is refused. */
  lemma ForcedIsDue(cfg: Config, s: State, w: Where, id: Id, now: int, reply: TokenReply)
    requires Inv(cfg, s) && 0 <= now && id in s.logins && Matches(w, id, s.logins[id])
    ensures var r := FreshLogin(cfg, ForceRefresh(s, w), id, now, reply).1;
            r.Alive? ==> r.row.refreshedAt == now && reply.Tokens?
  {
    var row := s.logins[id];
    assert RefreshDue(ForceRefresh(s, w).logins[id], now);
    if row.refreshToken != "" && OidcRefresh(cfg, reply, row.refreshToken, row.subject).Accepted? {
      RefreshTells(cfg, reply, row.refreshToken, row.subject);
    }
  }

  /** In a reachable state a login that survives its freshness check always yields a user: the row is never missing. */
  lemma ContextFacts(cfg: Config, s: State, id: Id, now: int, reply: TokenReply)
    requires Inv(cfg, s) && 0 <= now
    ensures var (t, who) := ContextFor(cfg, s, id, now, reply);
            && Inv(cfg, t) && SameFlow(s, t)
            && (who.Nobody? <==> FreshLogin(cfg, s, id, now, reply).1.Ended?)
            && (who.Someone? ==> who.login == id && BoundTo(s.logins, id, who.subject) && BoundTo(t.logins, id, who.subject))
            && (who.Someone? ==> SameDependants(s, t))
            && Fewer(s, t)
  {
    FreshLoginFacts(cfg, s, id, now, reply);
  }

  /** The subject check of bearerContext never fires: an accepted token and its login always agree. */
  lemma SubjectCheckNeverFires(cfg: Config, s: State, token: Id, now: int, reply: TokenReply)
    requires Inv(cfg, s) && 0 <= now && AccessTokenOk(s, token, now)
    ensures BearerContext(cfg, s, token, now, reply) == ContextFor(cfg, s, s.tokens[token].idp, now, reply)
  {
    ContextFacts(cfg, s, s.tokens[token].idp, now, reply);
  }

  lemma DestroyKeepsInv(cfg: Config, s: State, sid: Id)
    requires Inv(cfg, s)
    ensures Inv(cfg, DestroySession(s, sid)) && SameFlow(s, DestroySession(s, sid)) && Fewer(s, DestroySession(s, sid))
  {
  }

  lemma ResolveSessionFacts(cfg: Config, s: State, sid: Id, now: int, reply: TokenReply)
    requires Inv(cfg, s) && 0 <= now
    ensures var (t, who) := ResolveSession(cfg, s, sid, now, reply);
            && Inv(cfg, t) && SameFlow(s, t)
            && (who.Someone? ==> sid in s.sessions && sid != "" && s.sessions[sid].idp == who.login)
            && (who.Someone? ==> BoundTo(t.logins, who.login, who.subject) && SameDependants(s, t))
            && Fewer(s, t)
  {
    if sid != "" && sid in s.sessions {
      if s.sessions[sid].expiresAt < now || s.sessions[sid].idp == "" {
        DestroyKeepsInv(cfg, s, sid);
      } else {
        ContextFacts(cfg, s, s.sessions[sid].idp, now, reply);
        var (t, who) := ContextFor(cfg, s, s.sessions[sid].idp, now, reply);
        if who.Nobody? {
          DestroyKeepsInv(cfg, t, sid);
          assert ResolveSession(cfg, s, sid, now, reply) == (DestroySession(t, sid), Nobody);
        } else {
          assert ResolveSession(cfg, s, sid, now, reply) == (t, who);
        }
      }
    }
  }

  lemma ResolveClientKeepsInv(cfg: Config, s: State, clientId: Url, now: int, f: Fetch)
    requires Inv(cfg, s)
    ensures var (t, c) := ResolveClient(cfg, s, clientId, now, f);
            && Inv(cfg, t) && t == s.(cache := t.cache, clients := t.clients)
            && (c.Some? ==> RegisteredOk(clientId, c.value.redirects))
  {
    ResolvedClient(cfg, s, clientId, now, f);
  }

  lemma NewLoginKeepsInv(cfg: Config, s: State, login: Id, row: Login, users: map<string, User>)
    requires Inv(cfg, s) && Unused(s, login) && s.users.Keys <= users.Keys && LoginsOk(cfg, map[login := row], users)
    ensures Inv(cfg, s.(users := users, logins := s.logins[login := row], issued := s.issued + {login}))
  {
    assert map[login := row][login] == row;
    var logins := s.logins[login := row];
    assert SessionsBound(logins, s.sessions) && CodesBound(logins, s.codes) && TokensBound(logins, s.tokens);
  }

  lemma NewSessionKeepsInv(cfg: Config, s: State, session: Id, row: Session)
    requires Inv(cfg, s) && session != "" && BoundTo(s.logins, row.idp, row.subject)
    ensures Inv(cfg, s.(sessions := s.sessions[session := row], issued := s.issued + {session}))
  {
  }

  lemma LogInKeepsInv(cfg: Config, s: State, id: Option<Identity>, now: int, login: Id, session: Id)
    requires Inv(cfg, s) && 0 <= now && Unused(s, login) && Unused(s, session)
    ensures Inv(cfg, LogIn(cfg, s, id, now, login, session).0)
  {
    if id.Some? && !LacksTeam(cfg, id.value.teams) {
      var i := id.value;
      ExpiryBounded(cfg, i.expiresIn, now);
      var users := SetEmail(UpsertUser(s.users, i.subject, Text.Trim(i.name, Text.IsSpace), i.name), i.subject, i.email);
      var row := Login(i.subject, i.sid, i.refreshToken, i.teams, now, now, AccessExpiry(cfg, i.expiresIn, now));
      NewLoginKeepsInv(cfg, s, login, row, users);
      var t := s.(users := users, logins := s.logins[login := row], issued := s.issued + {login});
      NewSessionKeepsInv(cfg, t, session, Session(i.subject, now + SESSION_TTL, login));
      assert s.issued + {login} + {session} == s.issued + {login, session};
    }
  }

  lemma BeginKeepsInv(cfg: Config, s: State, i: AuthzInput, now: int, f: Fetch, id: Id)
    requires Inv(cfg, s) && Unused(s, id)
    ensures Inv(cfg, BeginAuthz(cfg, s, i, now, f, id).0)
  {
    ResolveClientKeepsInv(cfg, s, i.clientId, now, f);
    var (t, c) := ResolveClient(cfg, s, i.clientId, now, f);
    if AuthzError(cfg, c, i).None? {
      AllowedIsSafe(i.clientId, c.value.redirects, i.redirect);
    }
  }

  lemma DropRequestKeepsInv(cfg: Config, s: State, id: Id)
    requires Inv(cfg, s)
    ensures Inv(cfg, s.(requests := s.requests - {id}))
  {
  }

  lemma BindRequestKeepsInv(cfg: Config, s: State, id: Id, sid: Id)
    requires Inv(cfg, s) && id in s.requests
    ensures Inv(cfg, s.(requests := s.requests[id := s.requests[id].(session := sid)]))
  {
  }

  lemma RenderKeepsInv(cfg: Config, s: State, id: Id, sid: Id, now: int, f: Fetch)
    requires Inv(cfg, s)
    ensures Inv(cfg, RenderConsent(cfg, s, id, sid, now, f).0)
  {
    var (t, r) := LoadRequest(s, id, now);
    DropRequestKeepsInv(cfg, s, id);
    if r.Some? {
      BindRequestKeepsInv(cfg, t, id, sid);
      ResolveClientKeepsInv(cfg, t.(requests := t.requests[id := r.value.(session := sid)]), r.value.clientId, now, f);
    }
  }

  lemma ShowKeepsInv(cfg: Config, s: State, id: Id, sid: Id, now: int, reply: TokenReply, f: Fetch)
    requires Inv(cfg, s) && 0 <= now
    ensures Inv(cfg, ShowConsent(cfg, s, id, sid, now, reply, f).0)
  {
    ResolveSessionFacts(cfg, s, sid, now, reply);
    RenderKeepsInv(cfg, ResolveSession(cfg, s, sid, now, reply).0, id, sid, now, f);
  }

  lemma NewCodeKeepsInv(cfg: Config, s: State, code: Id, row: Code)
    requires Inv(cfg, s) && code != "" && BoundTo(s.logins, row.idp, row.subject)
    requires SafeRedirect(row.clientId, row.redirect) && row.method_ == "S256"
    ensures Inv(cfg, s.(codes := s.codes[code := row], issued := s.issued + {code}))
  {
  }

  lemma CompleteKeepsInv(cfg: Config, s: State, id: Id, sid: Id, subject: string, login: Id, now: int, code: Id)
    requires Inv(cfg, s) && BoundTo(s.logins, login, subject) && code != ""
    ensures Inv(cfg, CompleteAuthz(s, id, sid, subject, login, now, code).0)
  {
    DropRequestKeepsInv(cfg, s, id);
    if id in s.requests {
      var q := s.requests[id];
      var c := Code(q.clientId, subject, q.redirect, q.challenge, q.method_, q.scope, now + CODE_TTL, false, login);
      NewCodeKeepsInv(cfg, s.(requests := s.requests - {id}), code, c);
    }
  }

  lemma ApproveKeepsInv(cfg: Config, s: State, id: Id, sid: Id, now: int, reply: TokenReply, code: Id)
    requires Inv(cfg, s) && 0 <= now && Unused(s, code)
    ensures Inv(cfg, Approve(cfg, s, id, sid, now, reply, code).0)
  {
    ResolveSessionFacts(cfg, s, sid, now, reply);
    var (t, who) := ResolveSession(cfg, s, sid, now, reply);
    if who.Someone? {
      CompleteKeepsInv(cfg, t, id, sid, who.subject, who.login, now, code);
    }
  }

  lemma CheckLoginFacts(cfg: Config, s: State, login: Id, now: int, reply: TokenReply)
    requires Inv(cfg, s) && 0 <= now
    ensures var (t, dead) := CheckLogin(cfg, s, login, now, reply);
            && Inv(cfg, t) && SameFlow(s, t)
            && (dead.None? ==> login in s.logins && BoundTo(t.logins, login, s.logins[login].subject))
            && (dead.None? ==> SameDependants(s, t))
            && Fewer(s, t)
  {
    FreshLoginFacts(cfg, s, login, now, reply);
  }

  lemma MintKeepsInv(cfg: Config, s: State, clientId: Url, subject: string, scope: string, login: Id, now: int, access: Id, refresh: Id)
    requires Inv(cfg, s) && BoundTo(s.logins, login, subject) && access != "" && refresh != ""
    ensures Inv(cfg, MintTokens(s, clientId, subject, scope, login, now, access, refresh).0)
  {
  }

  lemma RevokeKeepsInv(cfg: Config, s: State, token: Id)
    requires Inv(cfg, s)
    ensures Inv(cfg, RevokeToken(s, token))
  {
  }

  lemma UseCodeKeepsInv(cfg: Config, s: State, code: Id)
    requires Inv(cfg, s) && code in s.codes
    ensures Inv(cfg, UseCode(s, code))
  {
  }

  lemma GrantKeepsInv(cfg: Config, s: State, clientId: Url, subject: string, scope: string, login: Id, now: int, reply: TokenReply,
                      access: Id, refresh: Id, giveUp: Option<Id>)
    requires Inv(cfg, s) && 0 <= now && BoundTo(s.logins, login, subject) && access != "" && refresh != ""
    ensures Inv(cfg, Grant(cfg, s, clientId, subject, scope, login, now, reply, access, refresh, giveUp).0)
  {
    CheckLoginFacts(cfg, s, login, now, reply);
    var (t, dead) := CheckLogin(cfg, s, login, now, reply);
    if dead.None? {
      var u := if giveUp.Some? then RevokeToken(t, giveUp.value) else t;
      if giveUp.Some? {
        RevokeKeepsInv(cfg, t, giveUp.value);
      }
      MintKeepsInv(cfg, u, clientId, subject, scope, login, now, access, refresh);
    }
  }

  lemma RedeemKeepsInv(cfg: Config, s: State, i: CodeInput, now: int, f: Fetch, reply: TokenReply, access: Id, refresh: Id)
    requires Inv(cfg, s) && 0 <= now && Unused(s, access) && Unused(s, refresh)
    ensures Inv(cfg, ExchangeCode(cfg, s, i, now, f, reply, access, refresh).0)
  {
    ResolveClientKeepsInv(cfg, s, i.clientId, now, f);
    var (t, client) := ResolveClient(cfg, s, i.clientId, now, f);
    if client.Some? && CodeError(cfg, t, i, now).None? {
      var c := t.codes[i.code];
      UseCodeKeepsInv(cfg, t, i.code);
      GrantKeepsInv(cfg, UseCode(t, i.code), c.clientId, c.subject, c.scope, c.idp, now, reply, access, refresh, None);
    }
  }

  lemma RenewKeepsInv(cfg: Config, s: State, clientId: Url, token: Id, now: int, f: Fetch, reply: TokenReply, access: Id, refresh: Id)
    requires Inv(cfg, s) && 0 <= now && Unused(s, access) && Unused(s, refresh)
    ensures Inv(cfg, ExchangeRefresh(cfg, s, clientId, token, now, f, reply, access, refresh).0)
  {
    ResolveClientKeepsInv(cfg, s, clientId, now, f);
    var (t, client) := ResolveClient(cfg, s, clientId, now, f);
    if client.Some? && RefreshTokenOk(t, clientId, token, now) {
      var o := t.tokens[token];
      GrantKeepsInv(cfg, t, o.clientId, o.subject, o.scope, o.idp, now, reply, access, refresh, Some(token));
    }
  }

  lemma DisconnectKeepsInv(cfg: Config, s: State, sid: Id, clientId: Url, now: int, reply: TokenReply)
    requires Inv(cfg, s) && 0 <= now
    ensures Inv(cfg, Disconnect(cfg, s, sid, clientId, now, reply).0)
  {
    ResolveSessionFacts(cfg, s, sid, now, reply);
  }

  lemma LogOutKeepsInv(cfg: Config, s: State, sid: Id)
    requires Inv(cfg, s)
    ensures Inv(cfg, LogOut(s, sid))
  {
    if sid in s.sessions {
      var t := DestroySession(s, sid);
      assert Inv(cfg, t);
      EndingKeepsInv(cfg, t, Selected(t, ById(s.sessions[sid].idp)));
    }
  }

  lemma PurgeKeepsInv(cfg: Config, s: State, now: int)
    requires Inv(cfg, s)
    ensures Inv(cfg, PurgeAuth(s, now))
  {
    var q := PurgeRows(s, now);
    assert Inv(cfg, q);
    var r := EvictExpired(PurgeClients(q, now), now);
    assert Inv(cfg, r);
    PurgeLoginsKeepsInv(cfg, r, now);
  }

  /** The clean-up of logins spares whatever something still points to. */
  lemma PurgeLoginsKeepsInv(cfg: Config, s: State, now: int)
    requires Inv(cfg, s)
    ensures Inv(cfg, PurgeLogins(s, now))
  {
    var logins := PurgeLogins(s, now).logins;
    forall k | k in s.sessions ensures BoundTo(logins, s.sessions[k].idp, s.sessions[k].subject) {
      assert Referenced(s.sessions, s.tokens, s.codes, s.sessions[k].idp);
    }
    forall k | k in s.codes ensures BoundTo(logins, s.codes[k].idp, s.codes[k].subject) {
      assert Referenced(s.sessions, s.tokens, s.codes, s.codes[k].idp);
    }
    forall k | k in s.tokens && !s.tokens[k].revoked ensures BoundTo(logins, s.tokens[k].idp, s.tokens[k].subject) {
      assert Referenced(s.sessions, s.tokens, s.codes, s.tokens[k].idp);
    }
  }

  lemma BrowserStepKeepsInv(cfg: Config, s: State, e: Event)
    requires Inv(cfg, s) && EventOk(s, e) && 0 <= e.at
    ensures Inv(cfg, BrowserStep(cfg, s, e).0)
  {
    match e {
      case LoginEvent(at, reply, nonceOk, login, session) => LogInKeepsInv(cfg, s, OidcExchange(cfg, reply, nonceOk), at, login, session);
      case VisitEvent(at, sid, reply) => ResolveSessionFacts(cfg, s, sid, at, reply);
      case ShowEvent(at, id, sid, reply, fetch) => ShowKeepsInv(cfg, s, id, sid, at, reply, fetch);
      case ApproveEvent(at, id, sid, reply, code) => ApproveKeepsInv(cfg, s, id, sid, at, reply, code);
      case DisconnectEvent(at, sid, clientId, reply) => DisconnectKeepsInv(cfg, s, sid, clientId, at, reply);
      case LogoutEvent(at, sid) => LogOutKeepsInv(cfg, s, sid);
      case _ =>
    }
  }

  lemma ClientStepKeepsInv(cfg: Config, s: State, e: Event)
    requires Inv(cfg, s) && EventOk(s, e) && 0 <= e.at
    ensures Inv(cfg, ClientStep(cfg, s, e).0)
  {
    match e {
      case BeginEvent(at, input, fetch, id) => BeginKeepsInv(cfg, s, input, at, fetch, id);
      case DenyEvent(at, id) => DropRequestKeepsInv(cfg, s, id);
      case RedeemEvent(at, input, fetch, reply, access, refresh) => RedeemKeepsInv(cfg, s, input, at, fetch, reply, access, refresh);
      case RenewEvent(at, clientId, token, fetch, reply, access, refresh) => RenewKeepsInv(cfg, s, clientId, token, at, fetch, reply, access, refresh);
      case CallEvent(at, token, reply) => if AccessTokenOk(s, token, at) { ContextFacts(cfg, s, s.tokens[token].idp, at, reply); }
      case _ =>
    }
  }

  lemma ForceKeepsInv(cfg: Config, s: State, w: Where)
    requires Inv(cfg, s)
    ensures Inv(cfg, ForceRefresh(s, w))
  {
  }

  /** Every step keeps every invariant. */
  lemma StepKeepsInv(cfg: Config, s: State, e: Event)
    requires Inv(cfg, s) && EventOk(s, e) && 0 <= e.at
    ensures Inv(cfg, Step(cfg, s, e).0)
  {
    if FromBrowser(e) {
      BrowserStepKeepsInv(cfg, s, e);
    } else if FromClient(e) {
      ClientStepKeepsInv(cfg, s, e);
    } else if e.EndEvent? {
      EndingKeepsInv(cfg, s, Selected(s, e.which));
    } else if e.ForceEvent? {
      ForceKeepsInv(cfg, s, e.which);
    } else if e.PurgeEvent? {
      PurgeKeepsInv(cfg, s, e.at);
    }
  }

  /** Every reachable state satisfies them. */
  lemma {:induction false} RunKeepsInv(cfg: Config, h: History, n: nat)
    requires Run(cfg, h) && n <= |h.es|
    ensures Inv(cfg, h.ss[n])
  {
    if n > 0 {
      RunKeepsInv(cfg, h, n - 1);
      assert StepAt(cfg, h, n - 1);
      StepKeepsInv(cfg, h.ss[n - 1], h.es[n - 1]);
    }
  }
}
