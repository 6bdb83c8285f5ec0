/**
  What each request is answered and what it leaves behind, spelled out in the stored rows and in what the provider and the
  metadata host say, from every reachable state.
 */
module Answers {
  import opened Tables
  import opened Oidc
  import opened Cimd
  import opened Urls
  import opened Auth
  import opened OAuth
  import opened Runs
  import opened Invariants
  import opened Provenance
  import opened Grants
  import Text

  // ----- logging in --------------------------------------------------------------------------------

  /** An ID token for this very attempt, all there is to know of its subject, and a team if one is required. */
  ghost predicate Admitted(cfg: Config, r: TokenReply, nonceOk: bool) {
    && nonceOk && r.Tokens? && r.idToken.IdToken? && r.idToken.claims.sub != ""
    && Confirms(cfg, r, r.idToken.claims.sub) && !TeamMissing(cfg, r)
  }

  /** The row of a user who logged in. */
  ghost function NewUser(cfg: Config, r: TokenReply): User
    requires r.Tokens? && r.idToken.IdToken?
  {
    var name := NameTold(cfg, r);
    User(if Text.Trim(name, Text.IsSpace) == "" then r.idToken.claims.sub else Text.Trim(name, Text.IsSpace), name, EmailTold(r))
  }

  /** A login is refused and nothing is stored, or it is stored whole: user, login and a session of seven days. */
  lemma LoginExactly(cfg: Config, s: State, e: Event)
    requires e.LoginEvent?
    ensures var ((t, a), r) := (Step(cfg, s, e), e.reply);
            if !Admitted(cfg, r, e.nonceOk) then t == s && a == NotSignedIn
            else
              var sub := r.idToken.claims.sub;
              && a == SignedInAs(sub, NewUser(cfg, r), TeamsTold(cfg, r))
              && t == s.(users := s.users[sub := NewUser(cfg, r)],
                         logins := s.logins[e.login := Login(sub, SidTold(r), r.refreshToken, TeamsTold(cfg, r), e.at, e.at,
                                                             AccessExpiry(cfg, r.expiresIn, e.at))],
                         sessions := s.sessions[e.session := Session(sub, e.at + 604_800_000, e.login)],
                         issued := s.issued + {e.login, e.session})
  {
    ExchangeOutcome(cfg, e.reply, e.nonceOk);
    var id := OidcExchange(cfg, e.reply, e.nonceOk);
    if id.Some? {
      StoredUser(s.users, id.value);
    }
  }

  lemma StoredUser(users: map<string, User>, i: Identity)
    ensures var name := Text.Trim(i.name, Text.IsSpace);
            var after := SetEmail(UpsertUser(users, i.subject, name, i.name), i.subject, i.email);
            after == users[i.subject := User(if name == "" then i.subject else name, i.name, i.email)]
  {
  }

  // ----- browser sessions and bearers -----------------------------------------------------------------

  /** What a check of login id leaves behind: the login refreshed, ended or as it was. */
  ghost predicate AfterCheck(cfg: Config, s: State, id: Id, now: int, reply: TokenReply, t: State)
    requires id in s.logins
  {
    var row := s.logins[id];
    if Current(row, now) then t == s
    else if Lapsed(cfg, row, now, reply) then t == EndLogins(s, {id})
    else if Undecided(cfg, reply, row.subject) then t == s
    else
      && reply.Tokens? && row.subject in s.users && id in t.logins && Renewing(cfg, row, t.logins[id], now, reply)
      && t == s.(logins := s.logins[id := t.logins[id]], users := s.users[row.subject := Told(cfg, s.users[row.subject], reply)])
  }

  lemma CheckLeaves(cfg: Config, s: State, id: Id, now: int, reply: TokenReply)
    requires Inv(cfg, s) && id in s.logins
    ensures AfterCheck(cfg, s, id, now, reply, FreshLogin(cfg, s, id, now, reply).0)
  {
    NoEmptyId(cfg, s);
    FreshExactly(cfg, s, id, now, reply);
    FreshDoes(cfg, s, id, now, reply);
  }

  /** A session that is over is deleted; one whose login lapsed goes with it; any other stays. */
  ghost predicate AfterSession(cfg: Config, s: State, sid: Id, now: int, reply: TokenReply, t: State)
    requires sid in s.sessions ==> s.sessions[sid].idp in s.logins
  {
    if sid !in s.sessions then t == s
    else if s.sessions[sid].expiresAt < now then t == s.(sessions := s.sessions - {sid})
    else AfterCheck(cfg, s, s.sessions[sid].idp, now, reply, t)
  }

  lemma SessionLeaves(cfg: Config, s: State, sid: Id, now: int, reply: TokenReply)
    requires Inv(cfg, s) && 0 <= now
    ensures AfterSession(cfg, s, sid, now, reply, ResolveSession(cfg, s, sid, now, reply).0)
  {
    NoEmptyId(cfg, s);
    if sid in s.sessions && now <= s.sessions[sid].expiresAt {
      var id := s.sessions[sid].idp;
      assert BoundTo(s.logins, id, s.sessions[sid].subject);
      ContextExactly(cfg, s, id, now, reply);
      CheckLeaves(cfg, s, id, now, reply);
      ContextLeaves(cfg, s, id, now, reply);
      if Lapsed(cfg, s.logins[id], now, reply) {
        EndedSession(s, id, sid);
      }
    }
  }

  lemma ContextLeaves(cfg: Config, s: State, id: Id, now: int, reply: TokenReply)
    ensures ContextFor(cfg, s, id, now, reply).0 == FreshLogin(cfg, s, id, now, reply).0
  {
  }

  lemma EndedSession(s: State, id: Id, sid: Id)
    requires sid in s.sessions && s.sessions[sid].idp == id
    ensures DestroySession(EndLogins(s, {id}), sid) == EndLogins(s, {id})
  {
    assert SessionsWithout(s.sessions, {id}) - {sid} == SessionsWithout(s.sessions, {id});
  }

  /** What somebody who is let in by login id is answered. */
  ghost predicate ToldOf(cfg: Config, s: State, id: Id, now: int, reply: TokenReply, a: Answer)
    requires id in s.logins && s.logins[id].subject in s.users
  {
    var (row, user) := (s.logins[id], s.users[s.logins[id].subject]);
    if Current(row, now) then a == SignedInAs(row.subject, user, row.teams)
    else reply.Tokens? && a == SignedInAs(row.subject, Told(cfg, user, reply), TeamsTold(cfg, reply))
  }

  /** A page for a browser: the user and teams, a request to log in, or word that the provider is down; each exactly when. */
  lemma VisitAnswer(cfg: Config, s: State, e: Event)
    requires Inv(cfg, s) && 0 <= e.at && e.VisitEvent?
    ensures var (t, a) := Step(cfg, s, e);
            && AfterSession(cfg, s, e.session, e.at, e.reply, t)
            && if SignedIn(cfg, s, e.session, e.at, e.reply) then ToldOf(cfg, s, s.sessions[e.session].idp, e.at, e.reply, a)
               else if e.session in s.sessions && e.at <= s.sessions[e.session].expiresAt
                       && !Lapsed(cfg, s.logins[s.sessions[e.session].idp], e.at, e.reply) then a == ProviderDown
               else a == NotSignedIn
  {
    VisitExactly(cfg, s, e.session, e.at, e.reply);
    SessionLeaves(cfg, s, e.session, e.at, e.reply);
  }

  /** The same of a call with an access token; here nothing but the login is touched. */
  lemma CallAnswer(cfg: Config, s: State, e: Event)
    requires Inv(cfg, s) && 0 <= e.at && e.CallEvent?
    ensures var (t, a) := Step(cfg, s, e);
            if !BearerValid(s.tokens, e.token, e.at) then t == s && a == NotSignedIn
            else
              var id := s.tokens[e.token].idp;
              && AfterCheck(cfg, s, id, e.at, e.reply, t)
              && if Vouched(cfg, s.logins, id, e.at, e.reply) then ToldOf(cfg, s, id, e.at, e.reply, a)
                 else a == if Lapsed(cfg, s.logins[id], e.at, e.reply) then NotSignedIn else ProviderDown
  {
    CallExactly(cfg, s, e.token, e.at, e.reply);
    if BearerValid(s.tokens, e.token, e.at) {
      var id := s.tokens[e.token].idp;
      NoEmptyId(cfg, s);
      assert BoundTo(s.logins, id, s.tokens[e.token].subject);
      CheckLeaves(cfg, s, id, e.at, e.reply);
      ContextLeaves(cfg, s, id, e.at, e.reply);
    }
  }

  /** Where a team is required nobody is ever let in without one, in any run. */
  lemma NobodyWithoutTeam(cfg: Config, h: History, n: nat)
    requires Run(cfg, h) && n < |h.es| && cfg.requireTeam && h.answers[n].SignedInAs?
    ensures h.answers[n].teams != []
  {
    RunKeepsInv(cfg, h, n);
    assert StepAt(cfg, h, n);
    var s, e := h.ss[n], h.es[n];
    if e.LoginEvent? {
      LoginExactly(cfg, s, e);
    } else if e.VisitEvent? {
      VisitAnswer(cfg, s, e);
    } else if e.CallEvent? {
      CallAnswer(cfg, s, e);
    } else {
      OnlyTheseSignIn(cfg, s, e);
    }
  }

  lemma OnlyTheseSignIn(cfg: Config, s: State, e: Event)
    requires !e.LoginEvent? && !e.VisitEvent? && !e.CallEvent?
    ensures !Step(cfg, s, e).1.SignedInAs?
  {
  }

  // ----- metadata documents ----------------------------------------------------------------------------

  /** A URL that can be a client: https, or http where that is allowed, with a host of the list if there is one. */
  ghost predicate Eligible(cfg: Config, u: Url) {
    && u.Url? && (u.scheme == "https" || (cfg.allowLocal && u.scheme == "http"))
    && (u.hostname != "" || u.port != "") && !u.credentials && u.hash != Fragment && u.path != "" && u.path != "/"
    && (cfg.clientHosts == [] || LowerAscii(u.hostname) in cfg.clientHosts)
  }

  ghost predicate ThisMachine(u: Url) {
    u.Url? && u.scheme == "http" && u.hostname in {"localhost", "127.0.0.1", "::1"}
  }

  /** A redirect the document of clientId may list. */
  ghost predicate Listable(clientId: Url, u: Url) {
    && u.Url? && !u.credentials && u.hash == NoHash && (u.hostname != "" || u.port != "")
    && (ThisMachine(u) ||
        (u.scheme == "https" && clientId.Url? && clientId.scheme == "https" && u.port == clientId.port
         && LowerAscii(u.hostname) == LowerAscii(clientId.hostname)))
  }

  /** A document for clientId: it names itself, lists such redirects only, and wants no client secret. */
  ghost predicate Trusted(clientId: Url, f: Fetch) {
    && f.Document? && f.clientId == clientId && f.redirects != []
    && (forall r :: r in f.redirects ==> Listable(clientId, r))
    && (f.authMethod == "" || f.authMethod == "none")
  }

  lemma TrustedExactly(clientId: Url, f: Fetch)
    ensures DocumentOk(clientId, f) <==> Trusted(clientId, f)
  {
    if f.Document? {
      forall i | 0 <= i < |f.redirects|
        ensures ValidRedirect(f.redirects[i]) && SafeRedirect(clientId, f.redirects[i]) <==> Listable(clientId, f.redirects[i])
      {
        ListableExactly(clientId, f.redirects[i]);
      }
      assert forall r :: r in f.redirects <==> exists i :: 0 <= i < |f.redirects| && f.redirects[i] == r;
    }
  }

  lemma ListableExactly(clientId: Url, u: Url)
    ensures ValidRedirect(u) && SafeRedirect(clientId, u) <==> Listable(clientId, u)
  {
  }

  /** A client comes from memory, else from its document, else from the last good copy of less than seven days; or from nowhere. */
  lemma ClientExactly(cfg: Config, s: State, u: Url, now: int, f: Fetch)
    ensures var (t, c) := ResolveClient(cfg, s, u, now, f);
            if Eligible(cfg, u) && u in s.cache && now < s.cache[u].expires then t == s && c == Some(s.cache[u].client)
            else if Eligible(cfg, u) && Trusted(u, f) then
              var client := Client(Text.Trim(f.name, Text.IsSpace), f.redirects, now);
              && c == Some(client)
              && t == s.(cache := s.cache[u := CacheEntry(client, now + Ttl(f.cacheControl))], clients := s.clients[u := client])
            else if Eligible(cfg, u) && u in s.clients && now - s.clients[u].createdAt < 604_800_000 then
              c == Some(s.clients[u]) && t == s.(cache := s.cache[u := CacheEntry(s.clients[u], now + 60_000)])
            else t == s && c == None
  {
    TrustedExactly(u, f);
  }

  // ----- authorization ------------------------------------------------------------------------------------

  /** The redirect is registered, or is one on this machine that differs from a registered one in the port only. */
  ghost predicate Fits(registered: seq<Url>, u: Url) {
    || u in registered
    || exists r :: r in registered && ThisMachine(r) && ThisMachine(u) && r.hostname == u.hostname && r.path == u.path
  }

  ghost predicate WellAsked(cfg: Config, i: AuthzInput) {
    && (i.resource != "" ==> cfg.resourceOk(i.resource)) && i.responseType == "code" && i.challenge != "" && i.method_ == "S256"
    && (i.scope != "" ==> cfg.scopeOk(i.scope))
  }

  /** A request is stored for 30 minutes, exactly as asked; or the first thing that is wrong with it is answered. */
  lemma BeginExactly(cfg: Config, s: State, e: Event)
    requires e.BeginEvent?
    ensures var ((t, a), (u, client)) := (Step(cfg, s, e), ResolveClient(cfg, s, e.input.clientId, e.at, e.fetch));
            var i := e.input;
            if client.Some? && Fits(client.value.redirects, i.redirect) && WellAsked(cfg, i) then
              && a == RequestPending(e.request)
              && t == u.(requests := u.requests[e.request := Request(i.clientId, i.redirect, i.scope, i.state, i.challenge, "S256",
                                                                     e.at + 1_800_000, "")],
                         issued := u.issued + {e.request})
            else
              && t == u && a.Failed?
              && (a.error == InvalidClient <==> client.None?)
              && (a.error == InvalidRedirectUri <==> client.Some? && !Fits(client.value.redirects, i.redirect))
              && (a.error == InvalidTarget ==> i.resource != "" && !cfg.resourceOk(i.resource))
              && (a.error == UnsupportedResponseType ==> i.responseType != "code")
              && (a.error == InvalidRequest ==> i.challenge == "" || i.method_ != "S256")
              && (a.error == InvalidScope ==> i.scope != "" && !cfg.scopeOk(i.scope))
              && a.error in {InvalidClient, InvalidRedirectUri, InvalidTarget, UnsupportedResponseType, InvalidRequest, InvalidScope}
  {
    var client := ResolveClient(cfg, s, e.input.clientId, e.at, e.fetch).1;
    if client.Some? {
      FitsExactly(client.value.redirects, e.input.redirect);
    }
  }

  lemma FitsExactly(registered: seq<Url>, u: Url)
    ensures Allowed(registered, u) <==> Fits(registered, u)
  {
    if r :| r in registered && ThisMachine(r) && ThisMachine(u) && r.hostname == u.hostname && r.path == u.path {
      assert PortBlindMatch(r, u);
    }
    if r :| r in registered && PortBlindMatch(r, u) {
      assert ThisMachine(r) && ThisMachine(u);
    }
  }

  /** A request that is there and has not expired. */
  ghost predicate Pending(requests: map<Id, Request>, id: Id, now: int) {
    id in requests && now <= requests[id].expiresAt
  }

  /** The page is shown to a signed-in session and binds the request to it; an expired request is deleted. */
  lemma ShowExactly(cfg: Config, s: State, e: Event)
    requires Inv(cfg, s) && 0 <= e.at && e.ShowEvent?
    ensures var ((t, a), u) := (Step(cfg, s, e), ResolveSession(cfg, s, e.session, e.at, e.reply).0);
            if !SignedIn(cfg, s, e.session, e.at, e.reply) then t == u && a == NotSignedIn
            else if !Pending(s.requests, e.request, e.at) then
              t == u.(requests := s.requests - {e.request}) && a == Failed(InvalidRequest)
            else
              var q := s.requests[e.request];
              && a == ConsentShown(q.clientId, q.redirect)
              && t == ResolveClient(cfg, u.(requests := s.requests[e.request := q.(session := e.session)]), q.clientId, e.at, e.fetch).0
  {
    VisitExactly(cfg, s, e.session, e.at, e.reply);
    ResolveSessionFacts(cfg, s, e.session, e.at, e.reply);
    if e.request !in s.requests {
      assert s.requests - {e.request} == s.requests;
    }
  }

  /** completeAuthz, for a session that is signed in. */
  ghost predicate Completed(s: State, id: Id, sid: Id, subject: string, login: Id, now: int, code: Id, t: State, a: Answer) {
    if !Pending(s.requests, id, now) then t == s.(requests := s.requests - {id}) && a == Failed(InvalidRequest)
    else
      var q := s.requests[id];
      if q.session != sid then t == s && a == Failed(AccessDenied)
      else
        && a == CodeSent(code, q.redirect, q.state)
        && t == s.(requests := s.requests - {id}, issued := s.issued + {code},
                   codes := s.codes[code := Code(q.clientId, subject, q.redirect, q.challenge, q.method_, q.scope,
                                                 now + 300_000, false, login)])
  }

  lemma CompleteExactly(s: State, id: Id, sid: Id, subject: string, login: Id, now: int, code: Id)
    requires sid != ""
    ensures var (t, a) := CompleteAuthz(s, id, sid, subject, login, now, code); Completed(s, id, sid, subject, login, now, code, t, a)
  {
    if id !in s.requests {
      assert s.requests - {id} == s.requests;
    }
  }

  /** A code is sent exactly to the session the page was shown to, for a pending request, which is gone then; it lasts five minutes. */
  lemma ApproveExactly(cfg: Config, s: State, e: Event)
    requires Inv(cfg, s) && 0 <= e.at && e.ApproveEvent?
    ensures var ((t, a), u) := (Step(cfg, s, e), ResolveSession(cfg, s, e.session, e.at, e.reply).0);
            if !SignedIn(cfg, s, e.session, e.at, e.reply) then t == u && a == NotSignedIn
            else
              var p := s.sessions[e.session];
              SameDependants(s, u) && SameFlow(s, u) && Completed(u, e.request, e.session, p.subject, p.idp, e.at, e.code, t, a)
  {
    NoEmptyId(cfg, s);
    VisitExactly(cfg, s, e.session, e.at, e.reply);
    ResolveSessionFacts(cfg, s, e.session, e.at, e.reply);
    if SignedIn(cfg, s, e.session, e.at, e.reply) {
      var p, u := s.sessions[e.session], ResolveSession(cfg, s, e.session, e.at, e.reply).0;
      CompleteExactly(u, e.request, e.session, p.subject, p.idp, e.at, e.code);
      NoRequest(cfg, u);
    }
  }

  lemma NoRequest(cfg: Config, s: State)
    requires Inv(cfg, s)
    ensures "" !in s.requests && s.(requests := s.requests - {""}) == s
  {
    assert s.requests - {""} == s.requests;
  }

  // ----- tokens ----------------------------------------------------------------------------------------------

  /** The tables with a new pair: an access token for an hour, a refresh token for 30 days. */
  ghost function WithPair(tokens: map<Id, Token>, clientId: Url, subject: string, scope: string, login: Id, now: int, access: Id, refresh: Id)
    : map<Id, Token>
  {
    tokens[access := Token(Access, clientId, subject, scope, now + 3_600_000, false, login)]
          [refresh := Token(Refresh, clientId, subject, scope, now + 2_592_000_000, false, login)]
  }

  /** From s to t by way of the check of the login; left are the tokens the new pair joins. */
  ghost predicate Granted(cfg: Config, s: State, clientId: Url, subject: string, scope: string, login: Id, now: int, reply: TokenReply,
                          access: Id, refresh: Id, left: map<Id, Token>, t: State, a: Answer)
  {
    var u := FreshLogin(cfg, s, login, now, reply).0;
    && login in s.logins && AfterCheck(cfg, s, login, now, reply, u)
    && if Vouched(cfg, s.logins, login, now, reply) then
         && a == Issued(access, refresh, if scope == "" then "mcp" else scope)
         && t == u.(tokens := WithPair(left, clientId, subject, scope, login, now, access, refresh), issued := s.issued + {access, refresh})
       else t == u && a == Failed(if Lapsed(cfg, s.logins[login], now, reply) then InvalidGrant else TemporarilyUnavailable)
  }

  lemma GrantExactly(cfg: Config, s: State, clientId: Url, subject: string, scope: string, login: Id, now: int, reply: TokenReply,
                     access: Id, refresh: Id, giveUp: Option<Id>)
    requires Inv(cfg, s) && login in s.logins && (giveUp.Some? ==> giveUp.value in s.tokens)
    ensures var (t, a) := Grant(cfg, s, clientId, subject, scope, login, now, reply, access, refresh, giveUp);
            var left := if giveUp.Some? then s.tokens[giveUp.value := s.tokens[giveUp.value].(revoked := true)] else s.tokens;
            Granted(cfg, s, clientId, subject, scope, login, now, reply, access, refresh, left, t, a)
  {
    CheckExactly(cfg, s, login, now, reply);
    CheckLeaves(cfg, s, login, now, reply);
  }

  lemma CheckExactly(cfg: Config, s: State, login: Id, now: int, reply: TokenReply)
    requires Inv(cfg, s) && login in s.logins
    ensures var ((t, dead), u) := (CheckLogin(cfg, s, login, now, reply), FreshLogin(cfg, s, login, now, reply).0);
            && t == u
            && dead == (if Vouched(cfg, s.logins, login, now, reply) then None
                        else Some(if Lapsed(cfg, s.logins[login], now, reply) then InvalidGrant else TemporarilyUnavailable))
            && (dead.None? ==> t.tokens == s.tokens && t.issued == s.issued)
  {
    NoEmptyId(cfg, s);
    FreshExactly(cfg, s, login, now, reply);
    FreshDoes(cfg, s, login, now, reply);
  }

  /** A code is used up and gives a pair, or the first thing that is wrong with it is answered and nothing happens. */
  lemma RedeemExactly(cfg: Config, s: State, e: Event)
    requires Inv(cfg, s) && 0 <= e.at && e.RedeemEvent?
    ensures var ((t, a), (u, client), i) := (Step(cfg, s, e), ResolveClient(cfg, s, e.redeem.clientId, e.at, e.fetch), e.redeem);
            if client.None? then t == u && a == Failed(InvalidClient)
            else if Redeemable(cfg, s.codes, i, e.at) then
              var c := s.codes[i.code];
              Granted(cfg, u.(codes := s.codes[i.code := c.(used := true)]), c.clientId, c.subject, c.scope, c.idp, e.at, e.reply,
                      e.access, e.refresh, s.tokens, t, a)
            else t == u && a == Failed(if Redeemable(cfg, s.codes, i.(resource := ""), e.at) then InvalidTarget else InvalidGrant)
  {
    ResolveClientKeepsInv(cfg, s, e.redeem.clientId, e.at, e.fetch);
    var (u, client) := ResolveClient(cfg, s, e.redeem.clientId, e.at, e.fetch);
    if client.Some? {
      RedeemCodeAnswer(cfg, u, e);
    }
  }

  lemma RedeemCodeAnswer(cfg: Config, s: State, e: Event)
    requires Inv(cfg, s) && 0 <= e.at && e.RedeemEvent?
    ensures var ((t, a), i) := (RedeemCode(cfg, s, e.redeem, e.at, e.reply, e.access, e.refresh), e.redeem);
            if Redeemable(cfg, s.codes, i, e.at) then
              var c := s.codes[i.code];
              Granted(cfg, s.(codes := s.codes[i.code := c.(used := true)]), c.clientId, c.subject, c.scope, c.idp, e.at, e.reply,
                      e.access, e.refresh, s.tokens, t, a)
            else t == s && a == Failed(if Redeemable(cfg, s.codes, i.(resource := ""), e.at) then InvalidTarget else InvalidGrant)
  {
    CodeErrorExactly(cfg, s, e.redeem, e.at);
    if Redeemable(cfg, s.codes, e.redeem, e.at) {
      var c := s.codes[e.redeem.code];
      assert BoundTo(s.logins, c.idp, c.subject);
      UseCodeKeepsInv(cfg, s, e.redeem.code);
      GrantExactly(cfg, UseCode(s, e.redeem.code), c.clientId, c.subject, c.scope, c.idp, e.at, e.reply, e.access, e.refresh, None);
    } else {
      CodeErrorIs(cfg, s, e.redeem, e.at);
    }
  }

  lemma CodeErrorIs(cfg: Config, s: State, i: CodeInput, now: int)
    requires CodesSafe(s.codes) && !Redeemable(cfg, s.codes, i, now)
    ensures CodeError(cfg, s, i, now) == Some(if Redeemable(cfg, s.codes, i.(resource := ""), now) then InvalidTarget else InvalidGrant)
  {
  }

  /** A refresh token this client may use. */
  ghost predicate Renewable(tokens: map<Id, Token>, clientId: Url, token: Id, now: int) {
    && token in tokens && tokens[token].kind == Refresh && !tokens[token].revoked && now <= tokens[token].expiresAt
    && tokens[token].clientId == clientId
  }

  /** A refresh token is revoked and gives a new pair, once its login was confirmed; or it stays as it is. */
  lemma RenewExactly(cfg: Config, s: State, e: Event)
    requires Inv(cfg, s) && 0 <= e.at && e.RenewEvent?
    ensures var ((t, a), (u, client)) := (Step(cfg, s, e), ResolveClient(cfg, s, e.clientId, e.at, e.fetch));
            if client.None? then t == u && a == Failed(InvalidClient)
            else if Renewable(s.tokens, e.clientId, e.token, e.at) then
              var o := s.tokens[e.token];
              Granted(cfg, u, o.clientId, o.subject, o.scope, o.idp, e.at, e.reply, e.access, e.refresh,
                      s.tokens[e.token := o.(revoked := true)], t, a)
            else t == u && a == Failed(InvalidGrant)
  {
    ResolveClientKeepsInv(cfg, s, e.clientId, e.at, e.fetch);
    var (u, client) := ResolveClient(cfg, s, e.clientId, e.at, e.fetch);
    if client.Some? && Renewable(s.tokens, e.clientId, e.token, e.at) {
      var o := s.tokens[e.token];
      assert BoundTo(s.logins, o.idp, o.subject);
      GrantExactly(cfg, u, o.clientId, o.subject, o.scope, o.idp, e.at, e.reply, e.access, e.refresh, Some(e.token));
    }
  }

  // ----- leaving -----------------------------------------------------------------------------------------------

  /** A signed-in user's client is disconnected: its tokens for that user are revoked, its codes gone, and no others. */
  lemma DisconnectExactly(cfg: Config, s: State, e: Event)
    requires Inv(cfg, s) && 0 <= e.at && e.DisconnectEvent?
    ensures var ((t, a), u) := (Step(cfg, s, e), ResolveSession(cfg, s, e.session, e.at, e.reply).0);
            if !SignedIn(cfg, s, e.session, e.at, e.reply) then t == u && a == NotSignedIn
            else
              var sub := s.sessions[e.session].subject;
              && a == Done && t == u.(tokens := t.tokens, codes := t.codes)
              && t.tokens.Keys == s.tokens.Keys
              && (forall k :: k in t.tokens ==>
                    t.tokens[k] == if s.tokens[k].subject == sub && s.tokens[k].clientId == e.clientId then s.tokens[k].(revoked := true) else s.tokens[k])
              && (forall k :: k in t.codes <==> k in s.codes && !(s.codes[k].subject == sub && s.codes[k].clientId == e.clientId))
              && (forall k :: k in t.codes ==> t.codes[k] == s.codes[k])
  {
    VisitExactly(cfg, s, e.session, e.at, e.reply);
    ResolveSessionFacts(cfg, s, e.session, e.at, e.reply);
  }

  /** A logout ends the session's login with all that is bound to it, an expired session's as well; nothing else changes. */
  lemma LogoutExactly(cfg: Config, s: State, e: Event)
    requires Inv(cfg, s) && e.LogoutEvent?
    ensures Step(cfg, s, e) == (if e.session in s.sessions then EndLogins(s, {s.sessions[e.session].idp}) else s, Done)
  {
    if e.session in s.sessions {
      var id := s.sessions[e.session].idp;
      assert BoundTo(s.logins, id, s.sessions[e.session].subject);
      NoEmptyId(cfg, s);
      var t := DestroySession(s, e.session);
      assert Selected(t, ById(id)) == {id};
      assert SessionsWithout(s.sessions - {e.session}, {id}) == SessionsWithout(s.sessions, {id});
    }
  }

  ghost predicate StillNamed(u: Url, tokens: map<Id, Token>, codes: map<Id, Code>) {
    (exists k :: k in tokens && tokens[k].clientId == u) || (exists k :: k in codes && codes[k].clientId == u)
  }

  /** The clean-up keeps a persisted client exactly if it is younger than seven days or some row left still names it. */
  lemma PurgeExactly(cfg: Config, s: State, e: Event)
    requires e.PurgeEvent?
    ensures var (t, a) := Step(cfg, s, e);
            && a == Done && t.users == s.users && t.issued == s.issued
            && (forall u :: u in t.clients <==>
                  u in s.clients && (e.at - 604_800_000 <= s.clients[u].createdAt || StillNamed(u, t.tokens, t.codes)))
            && (forall u :: u in t.clients ==> t.clients[u] == s.clients[u])
            && (forall u :: u in t.cache <==> u in s.cache && e.at <= s.cache[u].expires)
            && (forall u :: u in t.cache ==> t.cache[u] == s.cache[u])
  {
  }
}
