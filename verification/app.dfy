/**
  The server's methods, statement by statement on its tables, each proved to do exactly what the functions of modules
  Cimd, Auth and OAuth say, so that everything proved about runs of those functions holds of the server.
 */
module Server {
  import opened Tables
  import opened Oidc
  import opened Cimd
  import opened Urls
  import opened Auth
  import opened OAuth
  import opened Runs
  import opened Invariants
  import opened Events
  import Grants
  import Provenance
  import Text

  class App {
    const cfg: Config
    var users: map<string, User>
    var sessions: map<Id, Session>
    var logins: map<Id, Login>
    var clients: map<Url, Client>
    var entries: map<Url, CacheEntry>
    var requests: map<Id, Request>
    var codes: map<Id, Code>
    var tokens: map<Id, Token>
    var refreshLocks: map<Id, nat>  // the mutex of each login, by number
    var mutexes: nat                // how many were made
    var held: set<nat>
    ghost var issued: set<Id>

    ghost function Db(): State
      reads this
    {
      State(users, sessions, logins, clients, entries, requests, codes, tokens, issued)
    }

    constructor (cfg: Config)
      ensures this.cfg == cfg && Db() == EMPTY && refreshLocks == map[] && held == {}
    {
      this.cfg := cfg;
      users, sessions, logins, clients, entries := map[], map[], map[], map[], map[];
      requests, codes, tokens, issued := map[], map[], map[], {};
      refreshLocks, mutexes, held := map[], 0, {};
    }

    // ----- client metadata ---------------------------------------------------------------

    /** fetchClientMetadata: the checks on a document, one redirect after the other. */
    method CheckDocument(clientId: Url, f: Fetch) returns (ok: bool)
      ensures ok <==> DocumentOk(clientId, f)
    {
      if f.FetchFailed? || f.clientId != clientId || f.redirects == [] {
        return false;
      }
      for i := 0 to |f.redirects|
        invariant RegisteredOk(clientId, f.redirects[..i])
      {
        var r := f.redirects[i];
        if !ValidRedirect(r) || !(IsLoopback(r) || SameOrigin(r, clientId)) {
          assert !RegisteredOk(clientId, f.redirects);
          return false;
        }
        assert f.redirects[..i + 1] == f.redirects[..i] + [r];
      }
      assert f.redirects[..|f.redirects|] == f.redirects;
      return f.authMethod == "" || f.authMethod == "none";
    }

    method ResolveClient(clientId: Url, now: int, f: Fetch) returns (c: Option<Client>)
      modifies this`entries, this`clients
      ensures (Db(), c) == Cimd.ResolveClient(cfg, old(Db()), clientId, now, f)
    {
      if !IsClientIdUrl(clientId, cfg.allowLocal) || !HostAllowed(cfg, clientId) {
        return None;
      }
      if clientId in entries && now < entries[clientId].expires {
        return Some(entries[clientId].client);
      }
      var ok := CheckDocument(clientId, f);
      if ok {
        var fetched := Client(Text.Trim(f.name, Text.IsSpace), f.redirects, now);
        var ttl := CacheTtl(f.cacheControl);
        entries := entries[clientId := CacheEntry(fetched, now + ttl)];
        clients := clients[clientId := fetched];
        return Some(fetched);
      }
      if clientId in clients && now - clients[clientId].createdAt < STALE_MAX {
        var stale := clients[clientId];
        entries := entries[clientId := CacheEntry(stale, now + MIN_TTL)];
        return Some(stale);
      }
      return None;
    }

    method EvictExpired(now: int)
      modifies this`entries
      ensures Db() == Cimd.EvictExpired(old(Db()), now)
    {
      var rest := entries.Keys;
      while rest != {}
        invariant rest <= entries.Keys <= old(entries).Keys
        invariant forall u :: u in entries ==> entries[u] == old(entries)[u]
        invariant forall u :: u in old(entries) && u !in entries ==> now > old(entries)[u].expires
        invariant forall u :: u in entries && u !in rest ==> !(now > entries[u].expires)
        decreases |rest|
      {
        var u :| u in rest;
        if now > entries[u].expires {
          entries := entries - {u};
        }
        rest := rest - {u};
      }
      assert entries == Unexpired(old(entries), now);
    }

    // ----- provider logins ------------------------------------------------------------------

    /** Selects first, then deletes login by login, each with its entry in refreshLocks. */
    method EndIdpSessions(where_: Where) returns (n: nat)
      modifies this`sessions, this`tokens, this`codes, this`logins, this`refreshLocks
      ensures Db() == EndLogins(old(Db()), Selected(old(Db()), where_)) && n == |Selected(old(Db()), where_)|
      ensures refreshLocks == old(refreshLocks) - Selected(old(Db()), where_)
    {
      var ids := set i | i in logins && Matches(where_, i, logins[i]);
      assert ids == Selected(Db(), where_);
      DeleteLogins(ids);
      return |ids|;
    }

    method DeleteLogins(ids: set<Id>)
      modifies this`sessions, this`tokens, this`codes, this`logins, this`refreshLocks
      ensures Db() == EndLogins(old(Db()), ids) && refreshLocks == old(refreshLocks) - ids
    {
      ghost var before, done := Db(), {};
      var rest := ids;
      EndNone(before);
      while rest != {}
        invariant done + rest == ids && Db() == EndLogins(before, done) && refreshLocks == old(refreshLocks) - done
        decreases |rest|
      {
        var id :| id in rest;
        EndTwice(before, done, {id});
        DeleteLogin(id);
        done := done + {id};
        rest := rest - {id};
      }
    }

    /** The four DELETEs for one login, and its mutex forgotten. */
    method DeleteLogin(id: Id)
      modifies this`sessions, this`tokens, this`codes, this`logins, this`refreshLocks
      ensures Db() == EndLogins(old(Db()), {id}) && refreshLocks == old(refreshLocks) - {id}
    {
      sessions := SessionsWithout(sessions, {id});
      tokens := TokensWithout(tokens, {id});
      codes := CodesWithout(codes, {id});
      logins := logins - {id};
      refreshLocks := refreshLocks - {id};
    }

    /** One UPDATE: each matching login is due whenever it is used next, and nothing else changes. */
    method ForceRefresh(where_: Where) returns (n: nat)
      modifies this`logins
      ensures Db() == Auth.ForceRefresh(old(Db()), where_) && n == |Selected(old(Db()), where_)|
      ensures logins.Keys == old(logins).Keys
      ensures forall i, now :: i in logins && Matches(where_, i, old(logins)[i]) && 0 <= now ==> RefreshDue(logins[i], now)
      ensures forall i :: i in logins ==>
                && logins[i].(accessExpiresAt := 0) == old(logins)[i].(accessExpiresAt := 0)
                && (!Matches(where_, i, old(logins)[i]) ==> logins[i] == old(logins)[i])
    {
      n := |set i | i in logins && Matches(where_, i, logins[i])|;
      logins := Forced(logins, where_);
    }

    method EndOne(id: Id)
      requires id in logins
      modifies this`sessions, this`tokens, this`codes, this`logins, this`refreshLocks
      ensures Db() == EndLogins(old(Db()), {id}) && refreshLocks == old(refreshLocks) - {id}
    {
      assert Selected(Db(), ById(id)) == {id};
      var _ := EndIdpSessions(ById(id));
    }

    /** The mutex of a login, made on first use; never the mutex of another login. */
    method RefreshLock(id: Id) returns (m: nat)
      requires LocksOk()
      modifies this`refreshLocks, this`mutexes
      ensures LocksOk() && refreshLocks == old(refreshLocks)[id := m]
      ensures id in old(refreshLocks) ==> m == old(refreshLocks)[id]
    {
      if id !in refreshLocks {
        refreshLocks := refreshLocks[id := mutexes];
        mutexes := mutexes + 1;
      }
      m := refreshLocks[id];
    }

    /** Two logins never share a mutex. */
    ghost predicate LocksOk()
      reads this`refreshLocks, this`mutexes
    {
      && (forall i :: i in refreshLocks ==> refreshLocks[i] < mutexes)
      && (forall i, j :: i in refreshLocks && j in refreshLocks && i != j ==> refreshLocks[i] != refreshLocks[j])
    }

    /** Between two requests no mutex is held. */
    ghost predicate Idle()
      reads this`refreshLocks, this`mutexes, this`held
    {
      LocksOk() && held == {}
    }

    /**
      The login as stored; a due one is refreshed under its mutex, which every path gives back. It is alive exactly if the
      provider need not be asked or vouches for it, and ended exactly if it has to be confirmed and the provider turns it away.
     */
    method FreshIdpSession(id: Id, now: int, reply: TokenReply) returns (r: FreshResult)
      requires Idle()
      modifies this
      ensures Idle() && (Db(), r) == FreshLogin(cfg, old(Db()), id, now, reply)
      ensures id != "" ==> (r.Alive? <==> Grants.Vouched(cfg, old(logins), id, now, reply))
      ensures id != "" && id in old(logins) ==> (r.Ended? <==> Grants.Lapsed(cfg, old(logins)[id], now, reply))
    {
      if id != "" && id in logins {
        Grants.FreshExactly(cfg, Db(), id, now, reply);
      }
      if id == "" || id !in logins {
        return Ended;
      }
      if !RefreshDue(logins[id], now) {
        return Alive(logins[id]);
      }
      var lock := RefreshLock(id);
      held := held + {lock};
      r := RefreshHolding(id, lock, now, reply);
      held := held - {lock};
    }

    /** The part under the mutex: the row is loaded again, since others may have refreshed or ended it. */
    method RefreshHolding(id: Id, lock: nat, now: int, reply: TokenReply) returns (r: FreshResult)
      requires LocksOk() && id != "" && lock in held
      modifies this`users, this`sessions, this`tokens, this`codes, this`logins, this`refreshLocks
      ensures LocksOk() && (Db(), r) == FreshLogin(cfg, old(Db()), id, now, reply)
    {
      if id !in logins {
        return Ended;
      }
      var s := logins[id];
      if !RefreshDue(s, now) {
        return Alive(s);
      }
      if s.refreshToken == "" {
        EndOne(id);
        return Ended;
      }
      var v := OidcRefresh(cfg, reply, s.refreshToken, s.subject);
      if v.Rejected? {
        EndOne(id);
        return Ended;
      }
      if v.Transient? {
        return Unavailable;
      }
      var ident := v.identity;
      if LacksTeam(cfg, ident.teams) {
        EndOne(id);
        return Ended;
      }
      r := StoreRefreshed(id, s, ident, now);
    }

    /** The UPDATEs after an accepted refresh: the login, the profile, the address. */
    method StoreRefreshed(id: Id, row: Login, ident: Identity, now: int) returns (r: FreshResult)
      modifies this`users, this`logins
      ensures var next := Refreshed(cfg, row, ident, now);
              && r == Alive(next)
              && Db() == old(Db()).(logins := old(logins)[id := next], users := RefreshProfile(old(users), row.subject, ident))
    {
      var s := row;
      var sid := s.sid;
      if ident.sid != "" {
        sid := ident.sid;
      }
      var expires := AccessExpiry(cfg, ident.expiresIn, now);
      s := s.(refreshToken := ident.refreshToken, sid := sid, teams := ident.teams, refreshedAt := now, accessExpiresAt := expires);
      logins := logins[id := s];
      if ident.name != "" {
        users := UpsertUser(users, s.subject, ident.name, ident.name);
      }
      users := SetEmail(users, s.subject, ident.email);
      return Alive(s);
    }

    method ContextForIdpSession(id: Id, now: int, reply: TokenReply) returns (who: Who)
      requires Idle()
      modifies this
      ensures Idle() && (Db(), who) == ContextFor(cfg, old(Db()), id, now, reply)
    {
      var r := FreshIdpSession(id, now, reply);
      match r {
        case Ended => return Nobody;
        case Unavailable => return Down;
        case Alive(s) =>
          if s.subject !in users {
            return Nobody;
          }
          return Someone(s.subject, users[s.subject], s.teams, id);
      }
    }

    method ResolveSession(sid: Id, now: int, reply: TokenReply) returns (who: Who)
      requires Idle()
      modifies this
      ensures Idle() && (Db(), who) == Auth.ResolveSession(cfg, old(Db()), sid, now, reply)
    {
      if sid == "" || sid !in sessions {
        return Nobody;
      }
      if sessions[sid].expiresAt < now || sessions[sid].idp == "" {
        sessions := sessions - {sid};
        return Nobody;
      }
      who := ContextForIdpSession(sessions[sid].idp, now, reply);
      if who.Nobody? {
        sessions := sessions - {sid};
      }
    }

    /** Users, login and session, in this order; nothing at all for a login that is refused, as one without a required team is. */
    method LoginViaOidc(ident: Option<Identity>, now: int, login: Id, session: Id) returns (a: Answer)
      modifies this`users, this`logins, this`sessions, this`issued
      ensures (Db(), a) == LogIn(cfg, old(Db()), ident, now, login, session)
      ensures a.SignedInAs? <==> ident.Some? && (cfg.requireTeam ==> ident.value.teams != [])
      ensures !a.SignedInAs? ==> Db() == old(Db()) && a == NotSignedIn
    {
      if ident.None? || LacksTeam(cfg, ident.value.teams) {
        return NotSignedIn;
      }
      var i := ident.value;
      users := UpsertUser(users, i.subject, Text.Trim(i.name, Text.IsSpace), i.name);
      users := SetEmail(users, i.subject, i.email);
      logins := logins[login := Login(i.subject, i.sid, i.refreshToken, i.teams, now, now, AccessExpiry(cfg, i.expiresIn, now))];
      issued := issued + {login};
      sessions := sessions[session := Session(i.subject, now + SESSION_TTL, login)];
      issued := issued + {session};
      assert issued == old(issued) + {login, session};
      return SignedInAs(i.subject, users[i.subject], i.teams);
    }

    /** Ends the session with its login; revoke is the refresh token to be revoked at the provider. */
    method LogoutSession(sid: Id) returns (revoke: Option<string>)
      modifies this`sessions, this`tokens, this`codes, this`logins, this`refreshLocks
      ensures Db() == LogOut(old(Db()), sid)
      ensures old(LocksOk()) ==> LocksOk()
      ensures var idp := if sid in old(sessions) then old(sessions)[sid].idp else "";
              revoke == if idp != "" && idp in old(logins) && old(logins)[idp].refreshToken != "" then Some(old(logins)[idp].refreshToken) else None
    {
      if sid !in sessions {
        return None;
      }
      var idp := sessions[sid].idp;
      sessions := sessions - {sid};
      if idp == "" {
        return None;
      }
      revoke := None;
      if idp in logins && logins[idp].refreshToken != "" {
        revoke := Some(logins[idp].refreshToken);
      }
      var _ := EndIdpSessions(ById(idp));
    }

    /** The seven DELETEs; afterwards nothing expired is left, and of the old logins only those still referred to. */
    method PurgeAuth(now: int)
      modifies this`sessions, this`tokens, this`codes, this`requests, this`clients, this`entries, this`logins
      ensures Db() == Auth.PurgeAuth(old(Db()), now)
      ensures forall k :: k in sessions <==> k in old(sessions) && now <= old(sessions)[k].expiresAt
      ensures forall k :: k in tokens <==> k in old(tokens) && now <= old(tokens)[k].expiresAt
      ensures forall k :: k in codes <==> k in old(codes) && now <= old(codes)[k].expiresAt
      ensures forall k :: k in requests <==> k in old(requests) && now <= old(requests)[k].expiresAt
      ensures forall i :: i in logins <==>
                i in old(logins) && (now - CODE_TTL <= old(logins)[i].createdAt || Referenced(sessions, tokens, codes, i))
    {
      sessions := UnexpiredSessions(sessions, now);
      tokens := UnexpiredTokens(tokens, now);
      codes := UnexpiredCodes(codes, now);
      requests := UnexpiredRequests(requests, now);
      clients := ClientsInUse(clients, tokens, codes, now);
      EvictExpired(now);
      logins := LoginsInUse(logins, sessions, tokens, codes, now);
    }

    // ----- the provider's events ------------------------------------------------------------------

    /**
      A webhook ends exactly the logins it speaks of, has exactly those read again whose user changed, and counts both. As a
      step of a run it keeps the invariants of all runs.
     */
    method HandleZitadelEvent(n: Notice, ghost at: nat) returns (hit: nat)
      modifies this`sessions, this`tokens, this`codes, this`logins, this`refreshLocks
      ensures Handled(cfg, old(Db()), n, Db())
      ensures hit == |Reached(cfg, old(logins), n)|
      ensures Inv(cfg, old(Db())) ==> Inv(cfg, Db())
      ensures Db() == Apply(old(Db()), ZitadelEffect(cfg, old(logins), n))
      ensures ActsAs(cfg, old(Db()), ZitadelEffect(cfg, old(logins), n), at, Db())
    {
      EffectIsStep(cfg, Db(), ZitadelEffect(cfg, logins, n), at);
      EventExactly(cfg, Db(), n);
      EffectCount(cfg, Db(), n);
      hit := ActOn(n);
    }

    method ActOn(n: Notice) returns (hit: nat)
      modifies this`sessions, this`tokens, this`codes, this`logins, this`refreshLocks
      ensures Db() == Apply(old(Db()), ZitadelEffect(cfg, old(logins), n))
      ensures hit == match ZitadelEffect(cfg, old(logins), n) case Ignored => 0 case Ends(w) => |Selected(old(Db()), w)| case Forces(w) => |Selected(old(Db()), w)|
    {
      if n.kind in ACCOUNT_EVENTS && n.aggregate != "" {
        hit := EndIdpSessions(BySubject(n.aggregate));
      } else if n.kind in USER_TOKEN_EVENTS && n.aggregate != "" {
        hit := EndIdpSessions(BySubject(n.aggregate));
      } else if n.kind in EMAIL_EVENTS && n.aggregate != "" {
        hit := ForceRefresh(BySubject(n.aggregate));
      } else if n.kind == "session.terminated" && n.aggregate != "" {
        if !exists i :: i in logins && logins[i].sid == n.aggregate {
          return 0;
        }
        hit := EndIdpSessions(BySid(n.aggregate));
      } else if n.kind in OIDC_SESSION_EVENTS {
        hit := ForceRefresh(All);
      } else if StartsWith(n.kind, "user.grant.") {
        if ForeignProject(cfg, n.project) {
          return 0;
        }
        if n.kind in REVOKE_GRANT_EVENTS && n.user != "" {
          hit := EndIdpSessions(BySubject(n.user));
        } else if n.kind in REFRESH_GRANT_EVENTS && n.user != "" {
          hit := ForceRefresh(BySubject(n.user));
        } else if n.kind in REVOKE_GRANT_EVENTS || n.kind in REFRESH_GRANT_EVENTS {
          hit := ForceRefresh(All);
        } else {
          hit := 0;
        }
      } else {
        hit := 0;
      }
    }

    /** A logout token, which names a subject, a provider session, or both. */
    method HandleBackchannelLogout(sub: string, sid: string, ghost at: nat) returns (hit: nat)
      modifies this`sessions, this`tokens, this`codes, this`logins, this`refreshLocks
      ensures Inv(cfg, old(Db())) ==> Inv(cfg, Db())
      ensures ActsAs(cfg, old(Db()), Ends(BackchannelWhere(sub, sid)), at, Db())
      ensures Db() == Apply(old(Db()), Ends(BackchannelWhere(sub, sid)))
      ensures hit == |Selected(old(Db()), BackchannelWhere(sub, sid))|
    {
      EffectIsStep(cfg, Db(), Ends(BackchannelWhere(sub, sid)), at);
      if sid != "" && sub != "" {
        hit := EndIdpSessions(BySidAndSubject(sid, sub));
      } else if sid != "" {
        hit := EndIdpSessions(BySid(sid));
      } else {
        hit := EndIdpSessions(BySubject(sub));
      }
    }

    // ----- the authorization server --------------------------------------------------------------

    method BeginAuthz(i: AuthzInput, now: int, f: Fetch, id: Id) returns (a: Answer)
      modifies this`entries, this`clients, this`requests, this`issued
      ensures (Db(), a) == OAuth.BeginAuthz(cfg, old(Db()), i, now, f, id)
    {
      var client := ResolveClient(i.clientId, now, f);
      if client.None? {
        return Failed(InvalidClient);
      }
      var allowed := RedirectUriAllowed(client.value.redirects, i.redirect);
      if !allowed {
        return Failed(InvalidRedirectUri);
      }
      if !ResourceOk(cfg, i.resource) {
        return Failed(InvalidTarget);
      }
      if i.responseType != "code" {
        return Failed(UnsupportedResponseType);
      }
      if i.challenge == "" || i.method_ != "S256" {
        return Failed(InvalidRequest);
      }
      if i.scope != "" && !cfg.scopeOk(i.scope) {
        return Failed(InvalidScope);
      }
      requests := requests[id := Request(i.clientId, i.redirect, i.scope, i.state, i.challenge, i.method_, now + REQUEST_TTL, "")];
      issued := issued + {id};
      return RequestPending(id);
    }

    method LoadAuthzRequest(id: Id, now: int) returns (r: Option<Request>)
      modifies this`requests
      ensures (Db(), r) == LoadRequest(old(Db()), id, now)
    {
      if id !in requests {
        return None;
      }
      if requests[id].expiresAt < now {
        requests := requests - {id};
        return None;
      }
      return Some(requests[id]);
    }

    method RenderConsent(id: Id, sid: Id, now: int, f: Fetch) returns (a: Answer)
      modifies this`requests, this`entries, this`clients
      ensures (Db(), a) == OAuth.RenderConsent(cfg, old(Db()), id, sid, now, f)
    {
      var r := LoadAuthzRequest(id, now);
      if r.None? {
        return Failed(InvalidRequest);
      }
      requests := requests[id := r.value.(session := sid)];
      var _ := ResolveClient(r.value.clientId, now, f);
      return ConsentShown(r.value.clientId, r.value.redirect);
    }

    method CompleteAuthz(id: Id, sid: Id, subject: string, login: Id, now: int, code: Id) returns (a: Answer)
      modifies this`requests, this`codes, this`issued
      ensures (Db(), a) == OAuth.CompleteAuthz(old(Db()), id, sid, subject, login, now, code)
    {
      var r := LoadAuthzRequest(id, now);
      if r.None? {
        return Failed(InvalidRequest);
      }
      var q := r.value;
      if q.session == "" || q.session != sid {
        return Failed(AccessDenied);
      }
      codes := codes[code := Code(q.clientId, subject, q.redirect, q.challenge, q.method_, q.scope, now + CODE_TTL, false, login)];
      issued := issued + {code};
      requests := requests - {id};
      return CodeSent(code, q.redirect, q.state);
    }

    method CheckIdpSessionForGrant(login: Id, now: int, reply: TokenReply) returns (dead: Option<ErrorCode>)
      requires Idle()
      modifies this
      ensures Idle() && (Db(), dead) == CheckLogin(cfg, old(Db()), login, now, reply)
    {
      if login == "" {
        return Some(InvalidGrant);
      }
      var r := FreshIdpSession(login, now, reply);
      match r {
        case Alive(_) => return None;
        case Ended => return Some(InvalidGrant);
        case Unavailable => return Some(TemporarilyUnavailable);
      }
    }

    /** Two INSERTs. */
    method MintTokens(clientId: Url, subject: string, scope: string, login: Id, now: int, access: Id, refresh: Id) returns (a: Answer)
      modifies this`tokens, this`issued
      ensures (Db(), a) == OAuth.MintTokens(old(Db()), clientId, subject, scope, login, now, access, refresh)
    {
      tokens := tokens[access := Token(Access, clientId, subject, scope, now + ACCESS_TTL, false, login)];
      tokens := tokens[refresh := Token(Refresh, clientId, subject, scope, now + REFRESH_TTL, false, login)];
      issued := issued + {access, refresh};
      return Issued(access, refresh, if scope == "" then "mcp" else scope);
    }

    method ExchangeAuthorizationCode(i: CodeInput, now: int, f: Fetch, reply: TokenReply, access: Id, refresh: Id) returns (a: Answer)
      requires Idle()
      modifies this
      ensures Idle() && (Db(), a) == ExchangeCode(cfg, old(Db()), i, now, f, reply, access, refresh)
    {
      var client := ResolveClient(i.clientId, now, f);
      if client.None? {
        return Failed(InvalidClient);
      }
      if i.code !in codes {
        return Failed(InvalidGrant);
      }
      var c := codes[i.code];
      if c.used || c.expiresAt < now || c.clientId != i.clientId || c.redirect != i.redirect {
        return Failed(InvalidGrant);
      }
      if !VerifyPkce(cfg, c.challenge, c.method_, i.verifier) {
        return Failed(InvalidGrant);
      }
      if !ResourceOk(cfg, i.resource) {
        return Failed(InvalidTarget);
      }
      codes := codes[i.code := c.(used := true)];
      var dead := CheckIdpSessionForGrant(c.idp, now, reply);
      if dead.Some? {
        return Failed(dead.value);
      }
      a := MintTokens(c.clientId, c.subject, c.scope, c.idp, now, access, refresh);
    }

    method ExchangeRefreshToken(clientId: Url, token: Id, now: int, f: Fetch, reply: TokenReply, access: Id, refresh: Id) returns (a: Answer)
      requires Idle()
      modifies this
      ensures Idle() && (Db(), a) == ExchangeRefresh(cfg, old(Db()), clientId, token, now, f, reply, access, refresh)
    {
      var client := ResolveClient(clientId, now, f);
      if client.None? {
        return Failed(InvalidClient);
      }
      a := RotateToken(clientId, token, now, reply, access, refresh);
    }

    /** For a known client: the login is checked, the old token revoked, the new pair inserted. */
    method RotateToken(clientId: Url, token: Id, now: int, reply: TokenReply, access: Id, refresh: Id) returns (a: Answer)
      requires Idle()
      modifies this
      ensures Idle() && (Db(), a) == RenewToken(cfg, old(Db()), clientId, token, now, reply, access, refresh)
    {
      if token !in tokens || tokens[token].kind != Refresh {
        return Failed(InvalidGrant);
      }
      var o := tokens[token];
      if o.revoked || o.expiresAt < now || o.clientId != clientId {
        return Failed(InvalidGrant);
      }
      var dead := CheckIdpSessionForGrant(o.idp, now, reply);
      if dead.Some? {
        return Failed(dead.value);
      }
      if token in tokens {
        tokens := tokens[token := tokens[token].(revoked := true)];
      }
      a := MintTokens(o.clientId, o.subject, o.scope, o.idp, now, access, refresh);
    }

    method BearerContext(token: Id, now: int, reply: TokenReply) returns (who: Who)
      requires Idle()
      modifies this
      ensures Idle() && (Db(), who) == OAuth.BearerContext(cfg, old(Db()), token, now, reply)
    {
      if token !in tokens || tokens[token].kind != Access {
        return Nobody;
      }
      var info := tokens[token];
      if info.revoked || info.expiresAt < now || info.idp == "" {
        return Nobody;
      }
      who := ContextForIdpSession(info.idp, now, reply);
      if who.Someone? && who.subject != info.subject {
        who := Nobody;
      }
    }

    /** The user's client is out: none of its tokens or codes works, and no other's changed. */
    method RevokeClient(subject: string, clientId: Url)
      modifies this`tokens, this`codes
      ensures Db() == OAuth.RevokeClient(old(Db()), subject, clientId)
      ensures forall k :: k in tokens && tokens[k].subject == subject && tokens[k].clientId == clientId ==> tokens[k].revoked
      ensures forall k :: k in codes ==> !(codes[k].subject == subject && codes[k].clientId == clientId)
      ensures forall k :: k in old(tokens) && !(old(tokens)[k].subject == subject && old(tokens)[k].clientId == clientId) ==>
                k in tokens && tokens[k] == old(tokens)[k]
      ensures forall k :: k in old(codes) && !(old(codes)[k].subject == subject && old(codes)[k].clientId == clientId) ==>
                k in codes && codes[k] == old(codes)[k]
    {
      tokens := TokensRevoked(tokens, subject, clientId);
      codes := CodesDropped(codes, subject, clientId);
    }

    // ----- everything --------------------------------------------------------------------------------

    /** One request, event or clean-up: a step of a run, which keeps the invariants of all runs. */
    method Serve(e: Event) returns (a: Answer)
      requires Idle()
      modifies this
      ensures Idle() && (Db(), a) == Step(cfg, old(Db()), e)
      ensures Inv(cfg, old(Db())) && EventOk(old(Db()), e) && 0 <= e.at ==> Inv(cfg, Db())
      ensures e.DenyEvent? ==> Db() == old(Db()).(requests := old(requests) - {e.request})
    {
      if e.DenyEvent? {
        Provenance.DenyExactly(cfg, Db(), e);
      }
      ghost var before := Db();
      a := Dispatch(e);
      if Inv(cfg, before) && EventOk(before, e) && 0 <= e.at {
        StepKeepsInv(cfg, before, e);
      }
    }

    method Dispatch(e: Event) returns (a: Answer)
      requires Idle()
      modifies this
      ensures Idle() && (Db(), a) == Step(cfg, old(Db()), e)
    {
      a := Done;
      if FromBrowser(e) {
        a := ServeBrowser(e);
      } else if FromClient(e) {
        a := ServeClient(e);
      } else if e.EndEvent? {
        var _ := EndIdpSessions(e.which);
      } else if e.ForceEvent? {
        var _ := ForceRefresh(e.which);
      } else {
        PurgeAuth(e.at);
      }
    }

    method ServeBrowser(e: Event) returns (a: Answer)
      requires FromBrowser(e) && Idle()
      modifies this
      ensures Idle() && (Db(), a) == BrowserStep(cfg, old(Db()), e)
    {
      if e.LoginEvent? {
        a := LoginViaOidc(OidcExchange(cfg, e.reply, e.nonceOk), e.at, e.login, e.session);
        return;
      }
      if e.LogoutEvent? {
        var _ := LogoutSession(e.session);
        return Done;
      }
      var who := ResolveSession(e.session, e.at, e.reply);
      if e.VisitEvent? {
        return AnswerOf(who);
      }
      if !who.Someone? {
        return NotSignedIn;
      }
      a := ServeSignedIn(e, who);
    }

    method ServeSignedIn(e: Event, who: Who) returns (a: Answer)
      requires who.Someone? && (e.ShowEvent? || e.DisconnectEvent? || e.ApproveEvent?)
      modifies this`requests, this`entries, this`clients, this`codes, this`tokens, this`issued
      ensures e.ShowEvent? ==> (Db(), a) == OAuth.RenderConsent(cfg, old(Db()), e.request, e.session, e.at, e.fetch)
      ensures e.DisconnectEvent? ==> (Db(), a) == (OAuth.RevokeClient(old(Db()), who.subject, e.clientId), Done)
      ensures e.ApproveEvent? && e.request == "" ==> (Db(), a) == (old(Db()), Failed(InvalidRequest))
      ensures e.ApproveEvent? && e.request != "" ==>
                (Db(), a) == OAuth.CompleteAuthz(old(Db()), e.request, e.session, who.subject, who.login, e.at, e.code)
    {
      if e.ShowEvent? {
        a := RenderConsent(e.request, e.session, e.at, e.fetch);
      } else if e.DisconnectEvent? {
        RevokeClient(who.subject, e.clientId);
        a := Done;
      } else if e.request == "" {
        a := Failed(InvalidRequest);
      } else {
        a := CompleteAuthz(e.request, e.session, who.subject, who.login, e.at, e.code);
      }
    }

    method ServeClient(e: Event) returns (a: Answer)
      requires FromClient(e) && Idle()
      modifies this
      ensures Idle() && (Db(), a) == ClientStep(cfg, old(Db()), e)
    {
      if e.BeginEvent? {
        a := BeginAuthz(e.input, e.at, e.fetch, e.request);
      } else if e.DenyEvent? {
        var r := LoadAuthzRequest(e.request, e.at);
        if r.Some? {
          requests := requests - {e.request};
        }
        a := Done;
      } else if e.RedeemEvent? {
        a := ExchangeAuthorizationCode(e.redeem, e.at, e.fetch, e.reply, e.access, e.refresh);
      } else if e.RenewEvent? {
        a := ExchangeRefreshToken(e.clientId, e.token, e.at, e.fetch, e.reply, e.access, e.refresh);
      } else {
        var who := BearerContext(e.token, e.at, e.reply);
        a := AnswerOf(who);
      }
    }
  }
}
