/**
  purgeAuth, run at any point, is not seen by any later request: a server that cleaned up and one that did not
  answer alike. One kind of request can tell them apart, and it is pinned down here: logging out with a browser
  session that had already expired when the clean-up ran, while something else bound to its login still works.
 */
module Purge {
  import opened Tables
  import opened Oidc
  import opened Cimd
  import opened Urls
  import opened Auth
  import opened OAuth
  import opened Runs
  import opened Invariants

  // ----- rows that still matter ---------------------------------------------------------

  ghost predicate LiveSession(sessions: map<Id, Session>, k: Id, now: int) {
    k in sessions && !(sessions[k].expiresAt < now)
  }

  ghost predicate LiveCode(codes: map<Id, Code>, k: Id, now: int) {
    k in codes && !codes[k].used && !(codes[k].expiresAt < now)
  }

  ghost predicate LiveToken(tokens: map<Id, Token>, k: Id, now: int) {
    k in tokens && !tokens[k].revoked && !(tokens[k].expiresAt < now)
  }

  ghost predicate LiveRequest(requests: map<Id, Request>, k: Id, now: int) {
    k in requests && !(requests[k].expiresAt < now)
  }

  /** Something bound to the login still works at time at. */
  ghost predicate HasLive(s: State, login: Id, at: int) {
    || (exists k :: LiveSession(s.sessions, k, at) && s.sessions[k].idp == login)
    || (exists k :: LiveToken(s.tokens, k, at) && s.tokens[k].idp == login)
    || (exists k :: LiveCode(s.codes, k, at) && s.codes[k].idp == login)
  }

  // ----- s is the server that did not clean up, t the one that did ------------------------

  /**
    The sessions that work are the same, and what both have is the same. t misses only expired ones, each of them in
    dropped unless its login is gone from t as well; s misses only those of logins it no longer has.
   */
  ghost predicate SessionsSim(a: map<Id, Session>, b: map<Id, Session>, p: map<Id, Login>, q: map<Id, Login>, dropped: set<Id>, now: int) {
    && SameSessions(a, b, now)
    && (forall k :: k in a && k in b ==> a[k] == b[k])
    && (forall k :: k in a && k !in b ==> k in dropped || a[k].idp !in q)
    && (forall k :: k in b && k !in a ==> b[k].idp !in p)
    && dropped !! b.Keys
  }

  ghost predicate SameSessions(a: map<Id, Session>, b: map<Id, Session>, now: int) {
    forall k :: LiveSession(a, k, now) || LiveSession(b, k, now) ==> k in a && k in b && a[k] == b[k]
  }

  ghost predicate CodesSim(a: map<Id, Code>, b: map<Id, Code>, now: int) {
    forall k :: LiveCode(a, k, now) || LiveCode(b, k, now) ==> k in a && k in b && a[k] == b[k]
  }

  ghost predicate TokensSim(a: map<Id, Token>, b: map<Id, Token>, now: int) {
    forall k :: LiveToken(a, k, now) || LiveToken(b, k, now) ==> k in a && k in b && a[k] == b[k]
  }

  ghost predicate RequestsSim(a: map<Id, Request>, b: map<Id, Request>, now: int) {
    forall k :: LiveRequest(a, k, now) || LiveRequest(b, k, now) ==> k in a && k in b && a[k] == b[k]
  }

  /** Either may have logins the other has not; nothing that works is bound to those. */
  ghost predicate LoginsSim(a: map<Id, Login>, b: map<Id, Login>) {
    forall i :: i in a && i in b ==> a[i] == b[i]
  }

  ghost predicate ClientsSim(a: map<Url, Client>, b: map<Url, Client>, now: int) {
    forall u :: Usable(a, u, now) || Usable(b, u, now) ==> u in a && u in b && a[u] == b[u]
  }

  ghost predicate CacheSim(a: map<Url, CacheEntry>, b: map<Url, CacheEntry>, now: int) {
    forall u :: Cached(a, u, now) || Cached(b, u, now) ==> u in a && u in b && a[u] == b[u]
  }

  ghost predicate Sim(s: State, t: State, dropped: set<Id>, now: int) {
    && t.users == s.users && t.issued == s.issued && dropped <= t.issued
    && SessionsSim(s.sessions, t.sessions, s.logins, t.logins, dropped, now)
    && CodesSim(s.codes, t.codes, now)
    && TokensSim(s.tokens, t.tokens, now)
    && RequestsSim(s.requests, t.requests, now)
    && LoginsSim(s.logins, t.logins)
    && ClientsSim(s.clients, t.clients, now) && CacheSim(s.cache, t.cache, now)
  }

  /** The same outcome, and states that are still alike. */
  ghost predicate Alike<A>(p: (State, A), q: (State, A), dropped: set<Id>, now: int) {
    p.1 == q.1 && Sim(p.0, q.0, dropped, now)
  }

  ghost predicate Both(cfg: Config, s: State, t: State, dropped: set<Id>, now: int) {
    Inv(cfg, s) && Inv(cfg, t) && Sim(s, t, dropped, now) && 0 <= now
  }

  // ----- table by table ---------------------------------------------------------------------

  lemma SessionsLater(a: map<Id, Session>, b: map<Id, Session>, now: int, later: int)
    requires SameSessions(a, b, now) && now <= later
    ensures SameSessions(a, b, later)
  {
    forall k | LiveSession(a, k, later) || LiveSession(b, k, later) ensures k in a && k in b && a[k] == b[k] {
      assert LiveSession(a, k, now) || LiveSession(b, k, now);
    }
  }

  lemma CodesLater(a: map<Id, Code>, b: map<Id, Code>, now: int, later: int)
    requires CodesSim(a, b, now) && now <= later
    ensures CodesSim(a, b, later)
  {
    forall k | LiveCode(a, k, later) || LiveCode(b, k, later) ensures k in a && k in b && a[k] == b[k] {
      assert LiveCode(a, k, now) || LiveCode(b, k, now);
    }
  }

  lemma TokensLater(a: map<Id, Token>, b: map<Id, Token>, now: int, later: int)
    requires TokensSim(a, b, now) && now <= later
    ensures TokensSim(a, b, later)
  {
    forall k | LiveToken(a, k, later) || LiveToken(b, k, later) ensures k in a && k in b && a[k] == b[k] {
      assert LiveToken(a, k, now) || LiveToken(b, k, now);
    }
  }

  lemma RequestsLater(a: map<Id, Request>, b: map<Id, Request>, now: int, later: int)
    requires RequestsSim(a, b, now) && now <= later
    ensures RequestsSim(a, b, later)
  {
    forall k | LiveRequest(a, k, later) || LiveRequest(b, k, later) ensures k in a && k in b && a[k] == b[k] {
      assert LiveRequest(a, k, now) || LiveRequest(b, k, now);
    }
  }

  lemma ClientsLater(a: map<Url, Client>, b: map<Url, Client>, now: int, later: int)
    requires ClientsSim(a, b, now) && now <= later
    ensures ClientsSim(a, b, later)
  {
    forall u | Usable(a, u, later) || Usable(b, u, later) ensures u in a && u in b && a[u] == b[u] {
      assert Usable(a, u, now) || Usable(b, u, now);
    }
  }

  lemma CacheLater(a: map<Url, CacheEntry>, b: map<Url, CacheEntry>, now: int, later: int)
    requires CacheSim(a, b, now) && now <= later
    ensures CacheSim(a, b, later)
  {
    forall u | Cached(a, u, later) || Cached(b, u, later) ensures u in a && u in b && a[u] == b[u] {
      assert Cached(a, u, now) || Cached(b, u, now);
    }
  }

  lemma SimLater(s: State, t: State, dropped: set<Id>, now: int, later: int)
    requires Sim(s, t, dropped, now) && now <= later
    ensures Sim(s, t, dropped, later)
  {
    SessionsLater(s.sessions, t.sessions, now, later);
    CodesLater(s.codes, t.codes, now, later);
    TokensLater(s.tokens, t.tokens, now, later);
    RequestsLater(s.requests, t.requests, now, later);
    ClientsLater(s.clients, t.clients, now, later);
    CacheLater(s.cache, t.cache, now, later);
  }

  lemma PutRequestSim(a: map<Id, Request>, b: map<Id, Request>, now: int, id: Id, q: Request)
    requires RequestsSim(a, b, now)
    ensures RequestsSim(a[id := q], b[id := q], now)
  {
    var c, d := a[id := q], b[id := q];
    forall k | LiveRequest(c, k, now) || LiveRequest(d, k, now) ensures k in c && k in d && c[k] == d[k] {
      assert k != id ==> LiveRequest(a, k, now) || LiveRequest(b, k, now);
    }
  }

  lemma DropRequestSim(a: map<Id, Request>, b: map<Id, Request>, now: int, id: Id)
    requires RequestsSim(a, b, now)
    ensures RequestsSim(a - {id}, b - {id}, now)
    ensures !LiveRequest(a, id, now) ==> RequestsSim(a - {id}, b, now) && RequestsSim(a, b - {id}, now)
  {
    var c, d := a - {id}, b - {id};
    forall k | LiveRequest(c, k, now) || LiveRequest(d, k, now) ensures LiveRequest(a, k, now) || LiveRequest(b, k, now) {
    }
    assert LiveRequest(a, id, now) <==> LiveRequest(b, id, now);
  }

  lemma PutSessionSim(a: map<Id, Session>, b: map<Id, Session>, now: int, id: Id, q: Session)
    requires SameSessions(a, b, now)
    ensures SameSessions(a[id := q], b[id := q], now)
  {
    var c, d := a[id := q], b[id := q];
    forall k | LiveSession(c, k, now) || LiveSession(d, k, now) ensures k in c && k in d && c[k] == d[k] {
      assert k != id ==> LiveSession(a, k, now) || LiveSession(b, k, now);
    }
  }

  lemma DropSessionSim(a: map<Id, Session>, b: map<Id, Session>, p: map<Id, Login>, q: map<Id, Login>, dropped: set<Id>, now: int, id: Id)
    requires SessionsSim(a, b, p, q, dropped, now)
    ensures SessionsSim(a - {id}, b - {id}, p, q, dropped, now)
  {
    var c, d := a - {id}, b - {id};
    forall k | LiveSession(c, k, now) || LiveSession(d, k, now) ensures k in c && k in d && c[k] == d[k] {
      assert LiveSession(a, k, now) || LiveSession(b, k, now);
    }
  }

  lemma PutCodeSim(a: map<Id, Code>, b: map<Id, Code>, now: int, id: Id, q: Code)
    requires CodesSim(a, b, now)
    ensures CodesSim(a[id := q], b[id := q], now)
  {
    var c, d := a[id := q], b[id := q];
    forall k | LiveCode(c, k, now) || LiveCode(d, k, now) ensures k in c && k in d && c[k] == d[k] {
      assert k != id ==> LiveCode(a, k, now) || LiveCode(b, k, now);
    }
  }

  lemma PutTokenSim(a: map<Id, Token>, b: map<Id, Token>, now: int, id: Id, q: Token)
    requires TokensSim(a, b, now)
    ensures TokensSim(a[id := q], b[id := q], now)
  {
    var c, d := a[id := q], b[id := q];
    forall k | LiveToken(c, k, now) || LiveToken(d, k, now) ensures k in c && k in d && c[k] == d[k] {
      assert k != id ==> LiveToken(a, k, now) || LiveToken(b, k, now);
    }
  }

  lemma PutCacheSim(a: map<Url, CacheEntry>, b: map<Url, CacheEntry>, now: int, u: Url, e: CacheEntry)
    requires CacheSim(a, b, now)
    ensures CacheSim(a[u := e], b[u := e], now)
  {
    var c, d := a[u := e], b[u := e];
    forall v | Cached(c, v, now) || Cached(d, v, now) ensures v in c && v in d && c[v] == d[v] {
      assert v != u ==> Cached(a, v, now) || Cached(b, v, now);
    }
  }

  lemma PutClientSim(a: map<Url, Client>, b: map<Url, Client>, now: int, u: Url, e: Client)
    requires ClientsSim(a, b, now)
    ensures ClientsSim(a[u := e], b[u := e], now)
  {
    var c, d := a[u := e], b[u := e];
    forall v | Usable(c, v, now) || Usable(d, v, now) ensures v in c && v in d && c[v] == d[v] {
      assert v != u ==> Usable(a, v, now) || Usable(b, v, now);
    }
  }

  // ----- cleaning up -------------------------------------------------------------------------

  /** The expired sessions whose login outlives the clean-up. */
  ghost function Dropped(s: State, now: int): set<Id> {
    set k | k in s.sessions && s.sessions[k].expiresAt < now && s.sessions[k].idp in PurgeAuth(s, now).logins
  }

  lemma PurgeIsSim(cfg: Config, s: State, now: int)
    requires Inv(cfg, s) && 0 <= now
    ensures Both(cfg, s, PurgeAuth(s, now), Dropped(s, now), now)
  {
    PurgeKeepsInv(cfg, s, now);
    var t := PurgeAuth(s, now);
    assert SameSessions(s.sessions, t.sessions, now);
    assert SessionsSim(s.sessions, t.sessions, s.logins, t.logins, Dropped(s, now), now);
    assert CodesSim(s.codes, t.codes, now);
    assert TokensSim(s.tokens, t.tokens, now);
    assert RequestsSim(s.requests, t.requests, now);
    assert ClientsSim(s.clients, t.clients, now);
    assert CacheSim(s.cache, t.cache, now);
  }

  lemma UnexpiredTokensAgree(a: map<Id, Token>, b: map<Id, Token>, now: int)
    requires TokensSim(a, b, now)
    ensures TokensSim(UnexpiredTokens(a, now), UnexpiredTokens(b, now), now)
  {
    var c, d := UnexpiredTokens(a, now), UnexpiredTokens(b, now);
    forall k | LiveToken(c, k, now) || LiveToken(d, k, now) ensures k in c && k in d && c[k] == d[k] {
      assert LiveToken(a, k, now) || LiveToken(b, k, now);
    }
  }

  lemma UnexpiredRequestsAgree(a: map<Id, Request>, b: map<Id, Request>, now: int)
    requires RequestsSim(a, b, now)
    ensures UnexpiredRequests(a, now) == UnexpiredRequests(b, now)
  {
    var c, d := UnexpiredRequests(a, now), UnexpiredRequests(b, now);
    forall k | k in c || k in d ensures k in c && k in d && c[k] == d[k] {
      assert LiveRequest(a, k, now) || LiveRequest(b, k, now);
    }
  }

  lemma UnexpiredSessionsAgree(a: map<Id, Session>, b: map<Id, Session>, now: int)
    requires SameSessions(a, b, now)
    ensures UnexpiredSessions(a, now) == UnexpiredSessions(b, now)
  {
    var c, d := UnexpiredSessions(a, now), UnexpiredSessions(b, now);
    forall k | k in c || k in d ensures k in c && k in d && c[k] == d[k] {
      assert LiveSession(a, k, now) || LiveSession(b, k, now);
    }
  }

  lemma UnexpiredCodesAgree(a: map<Id, Code>, b: map<Id, Code>, now: int)
    requires CodesSim(a, b, now)
    ensures CodesSim(UnexpiredCodes(a, now), UnexpiredCodes(b, now), now)
  {
    var c, d := UnexpiredCodes(a, now), UnexpiredCodes(b, now);
    forall k | LiveCode(c, k, now) || LiveCode(d, k, now) ensures k in c && k in d && c[k] == d[k] {
      assert LiveCode(a, k, now) || LiveCode(b, k, now);
    }
  }

  lemma PurgeClientsBoth(s: State, t: State, now: int)
    requires ClientsSim(s.clients, t.clients, now)
    ensures ClientsSim(PurgeClients(s, now).clients, PurgeClients(t, now).clients, now)
  {
    var a, b := PurgeClients(s, now).clients, PurgeClients(t, now).clients;
    forall u | Usable(a, u, now) || Usable(b, u, now) ensures u in a && u in b && a[u] == b[u] {
      assert Usable(s.clients, u, now) || Usable(t.clients, u, now);
    }
  }

  lemma EvictBoth(s: State, t: State, now: int)
    requires CacheSim(s.cache, t.cache, now)
    ensures CacheSim(EvictExpired(s, now).cache, EvictExpired(t, now).cache, now)
  {
    var a, b := EvictExpired(s, now).cache, EvictExpired(t, now).cache;
    forall u | Cached(a, u, now) || Cached(b, u, now) ensures u in a && u in b && a[u] == b[u] {
      assert Cached(s.cache, u, now) || Cached(t.cache, u, now);
    }
  }

  /** Cleaning both servers up, one of them for the second time. */
  lemma PurgeBoth(s: State, t: State, dropped: set<Id>, now: int)
    requires Sim(s, t, dropped, now)
    ensures Sim(PurgeAuth(s, now), PurgeAuth(t, now), dropped, now)
  {
    UnexpiredSessionsAgree(s.sessions, t.sessions, now);
    UnexpiredCodesAgree(s.codes, t.codes, now);
    UnexpiredRequestsAgree(s.requests, t.requests, now);
    UnexpiredTokensAgree(s.tokens, t.tokens, now);
    var p, q := PurgeRows(s, now), PurgeRows(t, now);
    PurgeClientsBoth(p, q, now);
    var x, y := PurgeClients(p, now), PurgeClients(q, now);
    EvictBoth(x, y, now);
  }

  /** A clean-up leaves no login, and so no refresh token, that is older than a code's life and of no use to anyone. */
  lemma NoOrphansLeft(s: State, now: int, i: Id)
    requires i in PurgeAuth(s, now).logins && s.logins[i].createdAt < now - CODE_TTL
    ensures var t := PurgeAuth(s, now);
            || (exists k :: LiveSession(t.sessions, k, now) && t.sessions[k].idp == i)
            || (exists k :: LiveToken(t.tokens, k, now) && t.tokens[k].idp == i)
            || (exists k :: k in t.codes && !(t.codes[k].expiresAt < now) && t.codes[k].idp == i)
  {
    var t := PurgeAuth(s, now);
    assert Referenced(t.sessions, t.tokens, t.codes, i);
    if k :| k in t.sessions && t.sessions[k].idp == i {
      assert LiveSession(t.sessions, k, now);
    } else if k :| k in t.tokens && !t.tokens[k].revoked && t.tokens[k].idp == i {
      assert LiveToken(t.tokens, k, now);
    }
  }

  // ----- ending --------------------------------------------------------------------------------

  lemma EndTokensBoth(a: map<Id, Token>, b: map<Id, Token>, now: int, c: set<Id>, d: set<Id>)
    requires TokensSim(a, b, now) && forall k :: LiveToken(a, k, now) ==> (a[k].idp in c <==> a[k].idp in d)
    ensures TokensSim(TokensWithout(a, c), TokensWithout(b, d), now)
  {
    var x, y := TokensWithout(a, c), TokensWithout(b, d);
    forall k | LiveToken(x, k, now) || LiveToken(y, k, now) ensures k in x && k in y && x[k] == y[k] {
      assert LiveToken(a, k, now) || LiveToken(b, k, now);
      assert LiveToken(a, k, now);
    }
  }

  lemma EndSessionsBoth(a: map<Id, Session>, b: map<Id, Session>, now: int, c: set<Id>, d: set<Id>)
    requires SameSessions(a, b, now) && forall k :: LiveSession(a, k, now) ==> (a[k].idp in c <==> a[k].idp in d)
    ensures SameSessions(SessionsWithout(a, c), SessionsWithout(b, d), now)
  {
    var x, y := SessionsWithout(a, c), SessionsWithout(b, d);
    forall k | LiveSession(x, k, now) || LiveSession(y, k, now) ensures k in x && k in y && x[k] == y[k] {
      assert LiveSession(a, k, now) || LiveSession(b, k, now);
      assert LiveSession(a, k, now);
    }
  }

  lemma EndCodesBoth(a: map<Id, Code>, b: map<Id, Code>, now: int, c: set<Id>, d: set<Id>)
    requires CodesSim(a, b, now) && forall k :: LiveCode(a, k, now) ==> (a[k].idp in c <==> a[k].idp in d)
    ensures CodesSim(CodesWithout(a, c), CodesWithout(b, d), now)
  {
    var x, y := CodesWithout(a, c), CodesWithout(b, d);
    forall k | LiveCode(x, k, now) || LiveCode(y, k, now) ensures k in x && k in y && x[k] == y[k] {
      assert LiveCode(a, k, now) || LiveCode(b, k, now);
      assert LiveCode(a, k, now);
    }
  }

  /** Ending c here and d there, if no login to which something live is bound is in only one of the two. */
  lemma EndSim(s: State, t: State, dropped: set<Id>, now: int, c: set<Id>, d: set<Id>)
    requires Sim(s, t, dropped, now) && forall i :: HasLive(s, i, now) ==> (i in c <==> i in d)
    ensures Sim(EndLogins(s, c), EndLogins(t, d), dropped, now)
  {
    forall k | LiveSession(s.sessions, k, now) ensures s.sessions[k].idp in c <==> s.sessions[k].idp in d {
      assert HasLive(s, s.sessions[k].idp, now);
    }
    forall k | LiveCode(s.codes, k, now) ensures s.codes[k].idp in c <==> s.codes[k].idp in d {
      assert HasLive(s, s.codes[k].idp, now);
    }
    forall k | LiveToken(s.tokens, k, now) ensures s.tokens[k].idp in c <==> s.tokens[k].idp in d {
      assert HasLive(s, s.tokens[k].idp, now);
    }
    EndSessionsBoth(s.sessions, t.sessions, now, c, d);
    EndCodesBoth(s.codes, t.codes, now, c, d);
    EndTokensBoth(s.tokens, t.tokens, now, c, d);
    assert SessionsSim(SessionsWithout(s.sessions, c), SessionsWithout(t.sessions, d), s.logins - c, t.logins - d, dropped, now);
  }

  /** Something live is bound only to logins that both have. */
  lemma LiveIsCommon(cfg: Config, s: State, t: State, dropped: set<Id>, now: int, i: Id)
    requires Both(cfg, s, t, dropped, now) && HasLive(s, i, now)
    ensures i in s.logins && i in t.logins && s.logins[i] == t.logins[i]
  {
    if k :| LiveSession(s.sessions, k, now) && s.sessions[k].idp == i {
      assert BoundTo(s.logins, i, s.sessions[k].subject) && BoundTo(t.logins, i, t.sessions[k].subject);
    } else if k :| LiveToken(s.tokens, k, now) && s.tokens[k].idp == i {
      assert BoundTo(s.logins, i, s.tokens[k].subject) && BoundTo(t.logins, i, t.tokens[k].subject);
    } else {
      var k :| LiveCode(s.codes, k, now) && s.codes[k].idp == i;
      assert BoundTo(s.logins, i, s.codes[k].subject) && BoundTo(t.logins, i, t.codes[k].subject);
    }
  }

  /** Ending the same of the common logins on both sides. */
  lemma EndBoth(cfg: Config, s: State, t: State, dropped: set<Id>, now: int, c: set<Id>, d: set<Id>)
    requires Both(cfg, s, t, dropped, now) && forall i :: i in s.logins && i in t.logins ==> (i in c <==> i in d)
    ensures Sim(EndLogins(s, c), EndLogins(t, d), dropped, now)
  {
    forall i | HasLive(s, i, now) ensures i in c <==> i in d {
      LiveIsCommon(cfg, s, t, dropped, now, i);
    }
    EndSim(s, t, dropped, now, c, d);
  }

  // ----- requests ---------------------------------------------------------------------------------

  lemma AfterReplyBoth(cfg: Config, s: State, t: State, dropped: set<Id>, now: int, id: Id, v: Verdict)
    requires Both(cfg, s, t, dropped, now) && id in s.logins && id in t.logins
    ensures Alike(AfterReply(cfg, s, id, s.logins[id], v, now), AfterReply(cfg, t, id, t.logins[id], v, now), dropped, now)
  {
    EndBoth(cfg, s, t, dropped, now, {id}, {id});
  }

  lemma FreshLoginBoth(cfg: Config, s: State, t: State, dropped: set<Id>, now: int, id: Id, reply: TokenReply)
    requires Both(cfg, s, t, dropped, now) && id in s.logins && id in t.logins
    ensures var (x, p) := FreshLogin(cfg, s, id, now, reply);
            var (y, q) := FreshLogin(cfg, t, id, now, reply);
            p == q && Both(cfg, x, y, dropped, now)
  {
    FreshLoginFacts(cfg, s, id, now, reply);
    FreshLoginFacts(cfg, t, id, now, reply);
    var row := s.logins[id];
    if id != "" && RefreshDue(row, now) {
      var v := if row.refreshToken == "" then Rejected else OidcRefresh(cfg, reply, row.refreshToken, row.subject);
      assert FreshLogin(cfg, s, id, now, reply) == AfterReply(cfg, s, id, row, v, now);
      assert FreshLogin(cfg, t, id, now, reply) == AfterReply(cfg, t, id, row, v, now);
      AfterReplyBoth(cfg, s, t, dropped, now, id, v);
    }
  }

  lemma ContextBoth(cfg: Config, s: State, t: State, dropped: set<Id>, now: int, id: Id, reply: TokenReply)
    requires Both(cfg, s, t, dropped, now) && id in s.logins && id in t.logins
    ensures var (x, p) := ContextFor(cfg, s, id, now, reply);
            var (y, q) := ContextFor(cfg, t, id, now, reply);
            p == q && Both(cfg, x, y, dropped, now)
  {
    FreshLoginBoth(cfg, s, t, dropped, now, id, reply);
  }

  lemma DestroyBoth(cfg: Config, s: State, t: State, dropped: set<Id>, now: int, sid: Id)
    requires Both(cfg, s, t, dropped, now)
    ensures Both(cfg, DestroySession(s, sid), DestroySession(t, sid), dropped, now)
  {
    DestroyKeepsInv(cfg, s, sid);
    DestroyKeepsInv(cfg, t, sid);
    DropSessionSim(s.sessions, t.sessions, s.logins, t.logins, dropped, now, sid);
  }

  lemma ResolveSessionBoth(cfg: Config, s: State, t: State, dropped: set<Id>, now: int, sid: Id, reply: TokenReply)
    requires Both(cfg, s, t, dropped, now)
    ensures var (x, p) := ResolveSession(cfg, s, sid, now, reply);
            var (y, q) := ResolveSession(cfg, t, sid, now, reply);
            p == q && Both(cfg, x, y, dropped, now)
  {
    ResolveSessionFacts(cfg, s, sid, now, reply);
    ResolveSessionFacts(cfg, t, sid, now, reply);
    ResolveSessionAlike(cfg, s, t, dropped, now, sid, reply);
  }

  /** The live case: the login is checked, and a login that ended takes the session along. */
  lemma LiveSessionAlike(cfg: Config, s: State, t: State, dropped: set<Id>, now: int, sid: Id, reply: TokenReply)
    requires Both(cfg, s, t, dropped, now) && LiveSession(t.sessions, sid, now)
    ensures Alike(ResolveSession(cfg, s, sid, now, reply), ResolveSession(cfg, t, sid, now, reply), dropped, now)
  {
    var id := t.sessions[sid].idp;
    assert BoundTo(s.logins, id, s.sessions[sid].subject) && BoundTo(t.logins, id, t.sessions[sid].subject);
    ContextBoth(cfg, s, t, dropped, now, id, reply);
    var (x, who) := ContextFor(cfg, s, id, now, reply);
    var y := ContextFor(cfg, t, id, now, reply).0;
    DestroyBoth(cfg, x, y, dropped, now, sid);
    if who.Nobody? {
      assert ResolveSession(cfg, s, sid, now, reply) == (DestroySession(x, sid), Nobody);
      assert ResolveSession(cfg, t, sid, now, reply) == (DestroySession(y, sid), Nobody);
    } else {
      assert ResolveSession(cfg, s, sid, now, reply) == (x, who);
      assert ResolveSession(cfg, t, sid, now, reply) == (y, who);
    }
  }

  /** A session that does not let in is as good as gone. */
  lemma DeadSession(cfg: Config, s: State, now: int, sid: Id, reply: TokenReply)
    requires Inv(cfg, s) && !LiveSession(s.sessions, sid, now)
    ensures ResolveSession(cfg, s, sid, now, reply) == (DestroySession(s, sid), Nobody)
  {
    if sid !in s.sessions {
      assert s.sessions - {sid} == s.sessions;
    }
  }

  lemma ResolveSessionAlike(cfg: Config, s: State, t: State, dropped: set<Id>, now: int, sid: Id, reply: TokenReply)
    requires Both(cfg, s, t, dropped, now)
    ensures Alike(ResolveSession(cfg, s, sid, now, reply), ResolveSession(cfg, t, sid, now, reply), dropped, now)
  {
    assert LiveSession(s.sessions, sid, now) <==> LiveSession(t.sessions, sid, now);
    if LiveSession(t.sessions, sid, now) {
      LiveSessionAlike(cfg, s, t, dropped, now, sid, reply);
    } else {
      DeadSession(cfg, s, now, sid, reply);
      DeadSession(cfg, t, now, sid, reply);
      DestroyBoth(cfg, s, t, dropped, now, sid);
    }
  }

  lemma ResolveClientBoth(cfg: Config, s: State, t: State, dropped: set<Id>, now: int, clientId: Url, f: Fetch)
    requires Both(cfg, s, t, dropped, now)
    ensures var (x, p) := ResolveClient(cfg, s, clientId, now, f);
            var (y, q) := ResolveClient(cfg, t, clientId, now, f);
            p == q && Both(cfg, x, y, dropped, now)
  {
    ResolveClientKeepsInv(cfg, s, clientId, now, f);
    ResolveClientKeepsInv(cfg, t, clientId, now, f);
    ResolveClientSim(cfg, s, t, dropped, now, clientId, f);
  }

  lemma KeepSim(s: State, t: State, dropped: set<Id>, now: int, clientId: Url, r: Source)
    requires Sim(s, t, dropped, now)
    ensures Alike(Keep(s, clientId, now, r), Keep(t, clientId, now, r), dropped, now)
  {
    if r.Fetched? {
      PutCacheSim(s.cache, t.cache, now, clientId, CacheEntry(r.client, now + r.ttl));
      PutClientSim(s.clients, t.clients, now, clientId, r.client);
    } else if r.LastGood? {
      PutCacheSim(s.cache, t.cache, now, clientId, CacheEntry(r.client, now + MIN_TTL));
    }
  }

  lemma ResolveClientSim(cfg: Config, s: State, t: State, dropped: set<Id>, now: int, clientId: Url, f: Fetch)
    requires Sim(s, t, dropped, now)
    ensures Alike(ResolveClient(cfg, s, clientId, now, f), ResolveClient(cfg, t, clientId, now, f), dropped, now)
  {
    SameSource(cfg, s, t, now, clientId, f);
    KeepSim(s, t, dropped, now, clientId, SourceOf(cfg, s.clients, s.cache, clientId, now, f));
  }

  lemma SameSource(cfg: Config, s: State, t: State, now: int, u: Url, f: Fetch)
    requires ClientsSim(s.clients, t.clients, now) && CacheSim(s.cache, t.cache, now)
    ensures SourceOf(cfg, s.clients, s.cache, u, now, f) == SourceOf(cfg, t.clients, t.cache, u, now, f)
  {
    assert Cached(s.cache, u, now) <==> Cached(t.cache, u, now);
    assert Usable(s.clients, u, now) <==> Usable(t.clients, u, now);
  }

  lemma WithoutRequest(cfg: Config, s: State, t: State, dropped: set<Id>, now: int, id: Id)
    requires Both(cfg, s, t, dropped, now)
    ensures Both(cfg, s.(requests := s.requests - {id}), t.(requests := t.requests - {id}), dropped, now)
    ensures !LiveRequest(s.requests, id, now) ==> Both(cfg, s.(requests := s.requests - {id}), t, dropped, now)
    ensures !LiveRequest(s.requests, id, now) ==> Both(cfg, s, t.(requests := t.requests - {id}), dropped, now)
  {
    DropRequestKeepsInv(cfg, s, id);
    DropRequestKeepsInv(cfg, t, id);
    DropRequestSim(s.requests, t.requests, now, id);
  }

  /** A request is loaded from both or from neither; an expired one goes. */
  lemma LoadRequestBoth(cfg: Config, s: State, t: State, dropped: set<Id>, now: int, id: Id)
    requires Both(cfg, s, t, dropped, now)
    ensures LoadRequest(s, id, now).1 == LoadRequest(t, id, now).1
    ensures Both(cfg, LoadRequest(s, id, now).0, LoadRequest(t, id, now).0, dropped, now)
    ensures Both(cfg, s.(requests := s.requests - {id}), t.(requests := t.requests - {id}), dropped, now)
  {
    WithoutRequest(cfg, s, t, dropped, now, id);
    LoadedAlike(s.requests, t.requests, now, id);
    if LiveRequest(s.requests, id, now) {
    } else if id in s.requests && id in t.requests {
    } else if id in s.requests {
    } else if id in t.requests {
    }
  }

  lemma LoadedAlike(a: map<Id, Request>, b: map<Id, Request>, now: int, id: Id)
    requires RequestsSim(a, b, now)
    ensures LiveRequest(a, id, now) <==> LiveRequest(b, id, now)
    ensures LiveRequest(a, id, now) ==> a[id] == b[id]
  {
  }

  lemma BeginBoth(cfg: Config, s: State, t: State, dropped: set<Id>, now: int, i: AuthzInput, f: Fetch, id: Id)
    requires Both(cfg, s, t, dropped, now)
    ensures Alike(BeginAuthz(cfg, s, i, now, f, id), BeginAuthz(cfg, t, i, now, f, id), dropped, now)
  {
    ResolveClientBoth(cfg, s, t, dropped, now, i.clientId, f);
    var x, y := ResolveClient(cfg, s, i.clientId, now, f).0, ResolveClient(cfg, t, i.clientId, now, f).0;
    PutRequestSim(x.requests, y.requests, now, id,
                  Request(i.clientId, i.redirect, i.scope, i.state, i.challenge, i.method_, now + REQUEST_TTL, ""));
  }

  lemma RenderBoth(cfg: Config, s: State, t: State, dropped: set<Id>, now: int, id: Id, sid: Id, f: Fetch)
    requires Both(cfg, s, t, dropped, now)
    ensures Alike(RenderConsent(cfg, s, id, sid, now, f), RenderConsent(cfg, t, id, sid, now, f), dropped, now)
  {
    LoadRequestBoth(cfg, s, t, dropped, now, id);
    var (x, r) := LoadRequest(s, id, now);
    var y := LoadRequest(t, id, now).0;
    if r.Some? {
      var q := r.value.(session := sid);
      PutRequestSim(x.requests, y.requests, now, id, q);
      BindRequestKeepsInv(cfg, x, id, sid);
      BindRequestKeepsInv(cfg, y, id, sid);
      ResolveClientBoth(cfg, x.(requests := x.requests[id := q]), y.(requests := y.requests[id := q]), dropped, now, q.clientId, f);
    }
  }

  lemma ShowBoth(cfg: Config, s: State, t: State, dropped: set<Id>, now: int, id: Id, sid: Id, reply: TokenReply, f: Fetch)
    requires Both(cfg, s, t, dropped, now)
    ensures Alike(ShowConsent(cfg, s, id, sid, now, reply, f), ShowConsent(cfg, t, id, sid, now, reply, f), dropped, now)
  {
    ResolveSessionBoth(cfg, s, t, dropped, now, sid, reply);
    RenderBoth(cfg, ResolveSession(cfg, s, sid, now, reply).0, ResolveSession(cfg, t, sid, now, reply).0, dropped, now, id, sid, f);
  }

  lemma SendBoth(s: State, t: State, dropped: set<Id>, now: int, id: Id, code: Id, c: Code)
    requires Sim(s, t, dropped, now)
    ensures Sim(s.(codes := s.codes[code := c], requests := s.requests - {id}, issued := s.issued + {code}),
                t.(codes := t.codes[code := c], requests := t.requests - {id}, issued := t.issued + {code}), dropped, now)
  {
    PutCodeSim(s.codes, t.codes, now, code, c);
    DropRequestSim(s.requests, t.requests, now, id);
  }

  lemma CompleteBoth(cfg: Config, s: State, t: State, dropped: set<Id>, now: int, id: Id, sid: Id, subject: string, login: Id, code: Id)
    requires Both(cfg, s, t, dropped, now)
    ensures Alike(CompleteAuthz(s, id, sid, subject, login, now, code), CompleteAuthz(t, id, sid, subject, login, now, code), dropped, now)
  {
    LoadRequestBoth(cfg, s, t, dropped, now, id);
    var (x, r) := LoadRequest(s, id, now);
    if r.Some? {
      var q := r.value;
      SendBoth(x, LoadRequest(t, id, now).0, dropped, now, id, code,
               Code(q.clientId, subject, q.redirect, q.challenge, q.method_, q.scope, now + CODE_TTL, false, login));
    }
  }

  lemma ApproveBoth(cfg: Config, s: State, t: State, dropped: set<Id>, now: int, id: Id, sid: Id, reply: TokenReply, code: Id)
    requires Both(cfg, s, t, dropped, now)
    ensures Alike(Approve(cfg, s, id, sid, now, reply, code), Approve(cfg, t, id, sid, now, reply, code), dropped, now)
  {
    ResolveSessionBoth(cfg, s, t, dropped, now, sid, reply);
    var (x, who) := ResolveSession(cfg, s, sid, now, reply);
    if who.Someone? {
      CompleteBoth(cfg, x, ResolveSession(cfg, t, sid, now, reply).0, dropped, now, id, sid, who.subject, who.login, code);
    }
  }

  lemma MintBoth(a: map<Id, Token>, b: map<Id, Token>, now: int, giveUp: Option<Id>, access: Id, p: Token, refresh: Id, q: Token)
    requires TokensSim(a, b, now) && (giveUp.Some? ==> LiveToken(a, giveUp.value, now))
    ensures var c := if giveUp.Some? then a[giveUp.value := a[giveUp.value].(revoked := true)] else a;
            var d := if giveUp.Some? then b[giveUp.value := a[giveUp.value].(revoked := true)] else b;
            TokensSim(c[access := p][refresh := q], d[access := p][refresh := q], now)
  {
    var c, d := a, b;
    if giveUp.Some? {
      PutTokenSim(a, b, now, giveUp.value, a[giveUp.value].(revoked := true));
      c, d := a[giveUp.value := a[giveUp.value].(revoked := true)], b[giveUp.value := a[giveUp.value].(revoked := true)];
    }
    PutTokenSim(c, d, now, access, p);
    PutTokenSim(c[access := p], d[access := p], now, refresh, q);
  }

  lemma CheckLoginBoth(cfg: Config, s: State, t: State, dropped: set<Id>, now: int, login: Id, reply: TokenReply)
    requires Both(cfg, s, t, dropped, now) && login in s.logins && login in t.logins
    ensures Alike(CheckLogin(cfg, s, login, now, reply), CheckLogin(cfg, t, login, now, reply), dropped, now)
    ensures CheckLogin(cfg, s, login, now, reply).1.None? ==>
              CheckLogin(cfg, s, login, now, reply).0.tokens == s.tokens && CheckLogin(cfg, t, login, now, reply).0.tokens == t.tokens
  {
    FreshLoginBoth(cfg, s, t, dropped, now, login, reply);
    CheckLoginFacts(cfg, s, login, now, reply);
    CheckLoginFacts(cfg, t, login, now, reply);
  }

  lemma GrantBoth(cfg: Config, s: State, t: State, dropped: set<Id>, now: int, clientId: Url, subject: string, scope: string, login: Id,
                  reply: TokenReply, access: Id, refresh: Id, giveUp: Option<Id>)
    requires Both(cfg, s, t, dropped, now) && login in s.logins && login in t.logins
    requires giveUp.Some? ==> LiveToken(s.tokens, giveUp.value, now)
    ensures Alike(Grant(cfg, s, clientId, subject, scope, login, now, reply, access, refresh, giveUp),
                  Grant(cfg, t, clientId, subject, scope, login, now, reply, access, refresh, giveUp), dropped, now)
  {
    CheckLoginBoth(cfg, s, t, dropped, now, login, reply);
    MintBoth(s.tokens, t.tokens, now, giveUp,
             access, Token(Access, clientId, subject, scope, now + ACCESS_TTL, false, login),
             refresh, Token(Refresh, clientId, subject, scope, now + REFRESH_TTL, false, login));
    if giveUp.Some? {
      assert giveUp.value in t.tokens && t.tokens[giveUp.value] == s.tokens[giveUp.value];
    }
  }

  lemma RedeemCodeBoth(cfg: Config, s: State, t: State, dropped: set<Id>, now: int, i: CodeInput, reply: TokenReply, access: Id, refresh: Id)
    requires Both(cfg, s, t, dropped, now)
    ensures Alike(RedeemCode(cfg, s, i, now, reply, access, refresh), RedeemCode(cfg, t, i, now, reply, access, refresh), dropped, now)
  {
    assert LiveCode(s.codes, i.code, now) <==> LiveCode(t.codes, i.code, now);
    assert CodeError(cfg, s, i, now) == CodeError(cfg, t, i, now);
    if CodeError(cfg, s, i, now).None? {
      var c := t.codes[i.code];
      UseCodeKeepsInv(cfg, s, i.code);
      UseCodeKeepsInv(cfg, t, i.code);
      PutCodeSim(s.codes, t.codes, now, i.code, c.(used := true));
      assert BoundTo(s.logins, c.idp, c.subject) && BoundTo(t.logins, c.idp, c.subject);
      assert Sim(UseCode(s, i.code), UseCode(t, i.code), dropped, now);
      GrantBoth(cfg, UseCode(s, i.code), UseCode(t, i.code), dropped, now, c.clientId, c.subject, c.scope, c.idp, reply, access, refresh, None);
    }
  }

  lemma RedeemBoth(cfg: Config, s: State, t: State, dropped: set<Id>, now: int, i: CodeInput, f: Fetch, reply: TokenReply, access: Id, refresh: Id)
    requires Both(cfg, s, t, dropped, now)
    ensures Alike(ExchangeCode(cfg, s, i, now, f, reply, access, refresh), ExchangeCode(cfg, t, i, now, f, reply, access, refresh), dropped, now)
  {
    ResolveClientBoth(cfg, s, t, dropped, now, i.clientId, f);
    RedeemCodeBoth(cfg, ResolveClient(cfg, s, i.clientId, now, f).0, ResolveClient(cfg, t, i.clientId, now, f).0, dropped, now, i, reply, access, refresh);
  }

  lemma RenewTokenBoth(cfg: Config, s: State, t: State, dropped: set<Id>, now: int, clientId: Url, token: Id, reply: TokenReply, access: Id, refresh: Id)
    requires Both(cfg, s, t, dropped, now)
    ensures Alike(RenewToken(cfg, s, clientId, token, now, reply, access, refresh), RenewToken(cfg, t, clientId, token, now, reply, access, refresh), dropped, now)
  {
    assert LiveToken(s.tokens, token, now) <==> LiveToken(t.tokens, token, now);
    if RefreshTokenOk(s, clientId, token, now) {
      var o := t.tokens[token];
      assert BoundTo(s.logins, o.idp, o.subject) && BoundTo(t.logins, o.idp, o.subject);
      GrantBoth(cfg, s, t, dropped, now, o.clientId, o.subject, o.scope, o.idp, reply, access, refresh, Some(token));
    }
  }

  lemma RenewBoth(cfg: Config, s: State, t: State, dropped: set<Id>, now: int, clientId: Url, token: Id, f: Fetch, reply: TokenReply, access: Id, refresh: Id)
    requires Both(cfg, s, t, dropped, now)
    ensures Alike(ExchangeRefresh(cfg, s, clientId, token, now, f, reply, access, refresh), ExchangeRefresh(cfg, t, clientId, token, now, f, reply, access, refresh), dropped, now)
  {
    ResolveClientBoth(cfg, s, t, dropped, now, clientId, f);
    RenewTokenBoth(cfg, ResolveClient(cfg, s, clientId, now, f).0, ResolveClient(cfg, t, clientId, now, f).0, dropped, now, clientId, token, reply, access, refresh);
  }

  lemma CallBoth(cfg: Config, s: State, t: State, dropped: set<Id>, now: int, token: Id, reply: TokenReply)
    requires Both(cfg, s, t, dropped, now)
    ensures Alike(BearerContext(cfg, s, token, now, reply), BearerContext(cfg, t, token, now, reply), dropped, now)
  {
    assert LiveToken(s.tokens, token, now) <==> LiveToken(t.tokens, token, now);
    if AccessTokenOk(s, token, now) {
      assert BoundTo(s.logins, t.tokens[token].idp, t.tokens[token].subject) && BoundTo(t.logins, t.tokens[token].idp, t.tokens[token].subject);
      ContextBoth(cfg, s, t, dropped, now, t.tokens[token].idp, reply);
    }
  }

  lemma RevokeBoth(s: State, t: State, dropped: set<Id>, now: int, subject: string, clientId: Url)
    requires Sim(s, t, dropped, now)
    ensures Sim(RevokeClient(s, subject, clientId), RevokeClient(t, subject, clientId), dropped, now)
  {
    var a, b := RevokeClient(s, subject, clientId).tokens, RevokeClient(t, subject, clientId).tokens;
    forall k | LiveToken(a, k, now) || LiveToken(b, k, now) ensures k in a && k in b && a[k] == b[k] {
      assert LiveToken(s.tokens, k, now) || LiveToken(t.tokens, k, now);
    }
    var c, d := RevokeClient(s, subject, clientId).codes, RevokeClient(t, subject, clientId).codes;
    forall k | LiveCode(c, k, now) || LiveCode(d, k, now) ensures k in c && k in d && c[k] == d[k] {
      assert LiveCode(s.codes, k, now) || LiveCode(t.codes, k, now);
    }
  }

  lemma DisconnectBoth(cfg: Config, s: State, t: State, dropped: set<Id>, now: int, sid: Id, clientId: Url, reply: TokenReply)
    requires Both(cfg, s, t, dropped, now)
    ensures Alike(Disconnect(cfg, s, sid, clientId, now, reply), Disconnect(cfg, t, sid, clientId, now, reply), dropped, now)
  {
    ResolveSessionBoth(cfg, s, t, dropped, now, sid, reply);
    var (x, who) := ResolveSession(cfg, s, sid, now, reply);
    if who.Someone? {
      RevokeBoth(x, ResolveSession(cfg, t, sid, now, reply).0, dropped, now, who.subject, clientId);
    }
  }

  lemma NewSessionSim(a: map<Id, Session>, b: map<Id, Session>, p: map<Id, Login>, q: map<Id, Login>, dropped: set<Id>, now: int,
                      login: Id, row: Login, session: Id, new_: Session)
    requires SessionsSim(a, b, p, q, dropped, now) && session !in dropped
    requires (forall k :: k in a ==> a[k].idp != login) && forall k :: k in b ==> b[k].idp != login
    ensures SessionsSim(a[session := new_], b[session := new_], p[login := row], q[login := row], dropped, now)
  {
    PutSessionSim(a, b, now, session, new_);
  }

  lemma LogInBoth(cfg: Config, s: State, t: State, dropped: set<Id>, now: int, id: Option<Identity>, login: Id, session: Id)
    requires Both(cfg, s, t, dropped, now) && Unused(s, login) && Unused(s, session)
    ensures Alike(LogIn(cfg, s, id, now, login, session), LogIn(cfg, t, id, now, login, session), dropped, now)
  {
    if id.Some? && !LacksTeam(cfg, id.value.teams) {
      var i := id.value;
      NotYetBound(cfg, s, login);
      NotYetBound(cfg, t, login);
      NewSessionSim(s.sessions, t.sessions, s.logins, t.logins, dropped, now, login,
                    Login(i.subject, i.sid, i.refreshToken, i.teams, now, now, AccessExpiry(cfg, i.expiresIn, now)),
                    session, Session(i.subject, now + SESSION_TTL, login));
    }
  }

  lemma NotYetBound(cfg: Config, s: State, login: Id)
    requires Inv(cfg, s) && Unused(s, login)
    ensures forall k :: k in s.sessions ==> s.sessions[k].idp != login
  {
    forall k | k in s.sessions ensures s.sessions[k].idp != login {
      assert BoundTo(s.logins, s.sessions[k].idp, s.sessions[k].subject);
    }
  }

  /** A logout that ends a login with something live bound to it on s and finds no session on t. */
  ghost predicate LateLogout(s: State, t: State, sid: Id, now: int) {
    sid in s.sessions && sid !in t.sessions && HasLive(s, s.sessions[sid].idp, now)
  }

  lemma LogOutBoth(cfg: Config, s: State, t: State, dropped: set<Id>, now: int, sid: Id)
    requires Both(cfg, s, t, dropped, now) && !LateLogout(s, t, sid, now)
    ensures Sim(LogOut(s, sid), LogOut(t, sid), dropped, now)
  {
    var c := if sid in s.sessions then {s.sessions[sid].idp} else {};
    var d := if sid in t.sessions then {t.sessions[sid].idp} else {};
    LogOutEnds(cfg, s, sid);
    LogOutEnds(cfg, t, sid);
    forall i | HasLive(s, i, now) ensures i in c <==> i in d {
      LiveIsCommon(cfg, s, t, dropped, now, i);
    }
    EndSim(s, t, dropped, now, c, d);
  }

  lemma LogOutEnds(cfg: Config, s: State, sid: Id)
    requires Inv(cfg, s)
    ensures LogOut(s, sid) == EndLogins(s, if sid in s.sessions then {s.sessions[sid].idp} else {})
  {
    if sid in s.sessions {
      var login := s.sessions[sid].idp;
      var t := DestroySession(s, sid);
      assert BoundTo(s.logins, login, s.sessions[sid].subject);
      assert Selected(t, ById(login)) == {login};
      assert SessionsWithout(t.sessions, {login}) == SessionsWithout(s.sessions, {login});
    } else {
      EndNone(s);
    }
  }

  lemma ForceBoth(cfg: Config, s: State, t: State, dropped: set<Id>, now: int, w: Where)
    requires Both(cfg, s, t, dropped, now)
    ensures Sim(ForceRefresh(s, w), ForceRefresh(t, w), dropped, now)
  {
  }

  lemma ConsentStepBoth(cfg: Config, s: State, t: State, dropped: set<Id>, e: Event)
    requires Both(cfg, s, t, dropped, e.at) && EventOk(s, e) && (e.ShowEvent? || e.ApproveEvent? || e.DisconnectEvent?)
    ensures Alike(BrowserStep(cfg, s, e), BrowserStep(cfg, t, e), dropped, e.at)
  {
    if e.ShowEvent? {
      ShowBoth(cfg, s, t, dropped, e.at, e.request, e.session, e.reply, e.fetch);
    } else if e.ApproveEvent? {
      ApproveBoth(cfg, s, t, dropped, e.at, e.request, e.session, e.reply, e.code);
    } else {
      DisconnectBoth(cfg, s, t, dropped, e.at, e.session, e.clientId, e.reply);
    }
  }

  lemma SessionStepBoth(cfg: Config, s: State, t: State, dropped: set<Id>, e: Event)
    requires Both(cfg, s, t, dropped, e.at) && EventOk(s, e) && (e.LoginEvent? || e.VisitEvent? || e.LogoutEvent?)
    requires e.LogoutEvent? ==> !LateLogout(s, t, e.session, e.at)
    ensures Alike(BrowserStep(cfg, s, e), BrowserStep(cfg, t, e), dropped, e.at)
  {
    if e.LoginEvent? {
      LogInBoth(cfg, s, t, dropped, e.at, OidcExchange(cfg, e.reply, e.nonceOk), e.login, e.session);
    } else if e.VisitEvent? {
      ResolveSessionBoth(cfg, s, t, dropped, e.at, e.session, e.reply);
    } else {
      LogOutBoth(cfg, s, t, dropped, e.at, e.session);
    }
  }

  lemma BrowserStepBoth(cfg: Config, s: State, t: State, dropped: set<Id>, e: Event)
    requires Both(cfg, s, t, dropped, e.at) && EventOk(s, e)
    requires e.LogoutEvent? ==> !LateLogout(s, t, e.session, e.at)
    ensures Alike(BrowserStep(cfg, s, e), BrowserStep(cfg, t, e), dropped, e.at)
  {
    if e.ShowEvent? || e.ApproveEvent? || e.DisconnectEvent? {
      ConsentStepBoth(cfg, s, t, dropped, e);
    } else if e.LoginEvent? || e.VisitEvent? || e.LogoutEvent? {
      SessionStepBoth(cfg, s, t, dropped, e);
    }
  }

  lemma DenyBoth(cfg: Config, s: State, t: State, dropped: set<Id>, now: int, id: Id)
    requires Both(cfg, s, t, dropped, now)
    ensures Sim(Deny(s, id, now), Deny(t, id, now), dropped, now)
  {
    LoadRequestBoth(cfg, s, t, dropped, now, id);
  }

  lemma TokenStepBoth(cfg: Config, s: State, t: State, dropped: set<Id>, e: Event)
    requires Both(cfg, s, t, dropped, e.at) && (e.RedeemEvent? || e.RenewEvent? || e.CallEvent?)
    ensures Alike(ClientStep(cfg, s, e), ClientStep(cfg, t, e), dropped, e.at)
  {
    if e.RedeemEvent? {
      RedeemBoth(cfg, s, t, dropped, e.at, e.redeem, e.fetch, e.reply, e.access, e.refresh);
    } else if e.CallEvent? {
      CallBoth(cfg, s, t, dropped, e.at, e.token, e.reply);
    } else {
      RenewBoth(cfg, s, t, dropped, e.at, e.clientId, e.token, e.fetch, e.reply, e.access, e.refresh);
    }
  }

  lemma FlowStepBoth(cfg: Config, s: State, t: State, dropped: set<Id>, e: Event)
    requires Both(cfg, s, t, dropped, e.at) && (e.BeginEvent? || e.DenyEvent?)
    ensures Alike(ClientStep(cfg, s, e), ClientStep(cfg, t, e), dropped, e.at)
  {
    if e.BeginEvent? {
      BeginBoth(cfg, s, t, dropped, e.at, e.input, e.fetch, e.request);
    } else {
      DenyBoth(cfg, s, t, dropped, e.at, e.request);
    }
  }

  lemma ClientStepBoth(cfg: Config, s: State, t: State, dropped: set<Id>, e: Event)
    requires Both(cfg, s, t, dropped, e.at)
    ensures Alike(ClientStep(cfg, s, e), ClientStep(cfg, t, e), dropped, e.at)
  {
    if e.BeginEvent? || e.DenyEvent? {
      FlowStepBoth(cfg, s, t, dropped, e);
    } else if e.CallEvent? || e.RedeemEvent? || e.RenewEvent? {
      TokenStepBoth(cfg, s, t, dropped, e);
    }
  }

  lemma StepAlike(cfg: Config, s: State, t: State, dropped: set<Id>, e: Event)
    requires Both(cfg, s, t, dropped, e.at) && EventOk(s, e)
    requires e.LogoutEvent? ==> !LateLogout(s, t, e.session, e.at)
    ensures Alike(Step(cfg, s, e), Step(cfg, t, e), dropped, e.at)
  {
    if FromBrowser(e) {
      BrowserStepBoth(cfg, s, t, dropped, e);
    } else if FromClient(e) {
      ClientStepBoth(cfg, s, t, dropped, e);
    } else if e.EndEvent? {
      EndBoth(cfg, s, t, dropped, e.at, Selected(s, e.which), Selected(t, e.which));
    } else if e.ForceEvent? {
      ForceBoth(cfg, s, t, dropped, e.at, e.which);
    } else if e.PurgeEvent? {
      PurgeBoth(s, t, dropped, e.at);
    }
  }

  /** One step of both servers: the same answer, and still alike. */
  lemma StepBoth(cfg: Config, s: State, t: State, dropped: set<Id>, e: Event)
    requires Both(cfg, s, t, dropped, e.at) && EventOk(s, e)
    requires e.LogoutEvent? ==> !LateLogout(s, t, e.session, e.at)
    ensures Step(cfg, s, e).1 == Step(cfg, t, e).1
    ensures Both(cfg, Step(cfg, s, e).0, Step(cfg, t, e).0, dropped, e.at)
  {
    StepKeepsInv(cfg, s, e);
    StepKeepsInv(cfg, t, e);
    StepAlike(cfg, s, t, dropped, e);
  }

  // ----- runs -----------------------------------------------------------------------------------------

  function Answers(cfg: Config, s: State, es: seq<Event>): seq<Answer>
    decreases |es|
  {
    if es == [] then [] else [Step(cfg, s, es[0]).1] + Answers(cfg, Step(cfg, s, es[0]).0, es[1..])
  }

  /** es can follow in state s at time now. */
  ghost predicate Continues(cfg: Config, s: State, es: seq<Event>, now: int)
    decreases |es|
  {
    es != [] ==> EventOk(s, es[0]) && now <= es[0].at && Continues(cfg, Step(cfg, s, es[0]).0, es[1..], es[0].at)
  }

  function Final(cfg: Config, s: State, es: seq<Event>): State
    decreases |es|
  {
    if es == [] then s else Final(cfg, Step(cfg, s, es[0]).0, es[1..])
  }

  function EndOf(es: seq<Event>, now: int): int {
    if es == [] then now else es[|es| - 1].at
  }

  /**
    At no point of es someone logs out with one of the dropped sessions, still in place, while something bound to its
    login still works.
   */
  ghost predicate NoLateLogout(cfg: Config, s: State, dropped: set<Id>, es: seq<Event>)
    decreases |es|
  {
    es != [] ==>
      && (es[0].LogoutEvent? ==> !LogsOutLate(s, dropped, es[0].session, es[0].at))
      && NoLateLogout(cfg, Step(cfg, s, es[0]).0, dropped, es[1..])
  }

  ghost predicate LogsOutLate(s: State, dropped: set<Id>, sid: Id, now: int) {
    sid in dropped && sid in s.sessions && HasLive(s, s.sessions[sid].idp, now)
  }

  /** What matters of the other server is which sessions it dropped. */
  lemma LateExactly(cfg: Config, s: State, t: State, dropped: set<Id>, now: int, sid: Id)
    requires Both(cfg, s, t, dropped, now)
    ensures LateLogout(s, t, sid, now) <==> LogsOutLate(s, dropped, sid, now)
  {
    if LateLogout(s, t, sid, now) {
      LiveIsCommon(cfg, s, t, dropped, now, s.sessions[sid].idp);
    }
  }

  lemma OneMore(cfg: Config, s: State, t: State, dropped: set<Id>, e: Event, now: int)
    requires Both(cfg, s, t, dropped, now) && EventOk(s, e) && now <= e.at
    requires e.LogoutEvent? ==> !LogsOutLate(s, dropped, e.session, e.at)
    ensures Step(cfg, s, e).1 == Step(cfg, t, e).1
    ensures Both(cfg, Step(cfg, s, e).0, Step(cfg, t, e).0, dropped, e.at)
  {
    SimLater(s, t, dropped, now, e.at);
    if e.LogoutEvent? {
      LateExactly(cfg, s, t, dropped, e.at, e.session);
    }
    StepBoth(cfg, s, t, dropped, e);
  }

  lemma {:induction false} SameAnswers(cfg: Config, s: State, t: State, dropped: set<Id>, es: seq<Event>, now: int)
    requires Both(cfg, s, t, dropped, now) && Continues(cfg, s, es, now) && NoLateLogout(cfg, s, dropped, es)
    ensures Answers(cfg, t, es) == Answers(cfg, s, es)
    ensures Both(cfg, Final(cfg, s, es), Final(cfg, t, es), dropped, EndOf(es, now))
    decreases |es|
  {
    if es != [] {
      var e := es[0];
      OneMore(cfg, s, t, dropped, e, now);
      SameAnswers(cfg, Step(cfg, s, e).0, Step(cfg, t, e).0, dropped, es[1..], e.at);
      assert EndOf(es[1..], e.at) == EndOf(es, now);
    }
  }

  /**
    Whatever follows a clean-up is answered as if it had not happened, and afterwards the same credentials work, as
    long as no logout is late.
   */
  lemma PurgeIsUnseen(cfg: Config, s: State, now: int, es: seq<Event>)
    requires Inv(cfg, s) && 0 <= now && Continues(cfg, s, es, now) && NoLateLogout(cfg, s, Dropped(s, now), es)
    ensures Answers(cfg, PurgeAuth(s, now), es) == Answers(cfg, s, es)
    ensures SameCredentials(Final(cfg, s, es), Final(cfg, PurgeAuth(s, now), es), EndOf(es, now))
  {
    PurgeIsSim(cfg, s, now);
    SameAnswers(cfg, s, PurgeAuth(s, now), Dropped(s, now), es, now);
    SimSameCredentials(Final(cfg, s, es), Final(cfg, PurgeAuth(s, now), es), Dropped(s, now), EndOf(es, now), EndOf(es, now));
  }

  /** So it is at any point of any run. */
  lemma PurgeAtAnyPoint(cfg: Config, h: History, n: nat, now: int, es: seq<Event>)
    requires Run(cfg, h) && n <= |h.es| && 0 <= now && Continues(cfg, h.ss[n], es, now)
    requires NoLateLogout(cfg, h.ss[n], Dropped(h.ss[n], now), es)
    ensures Answers(cfg, PurgeAuth(h.ss[n], now), es) == Answers(cfg, h.ss[n], es)
    ensures SameCredentials(Final(cfg, h.ss[n], es), Final(cfg, PurgeAuth(h.ss[n], now), es), EndOf(es, now))
  {
    RunKeepsInv(cfg, h, n);
    PurgeIsUnseen(cfg, h.ss[n], now, es);
  }

  // ----- the one request that can tell ------------------------------------------------------------------

  /** The same sessions, tokens and codes still work at time at. */
  ghost predicate SameCredentials(s: State, t: State, at: int) {
    && (forall k :: LiveSession(s.sessions, k, at) <==> LiveSession(t.sessions, k, at))
    && (forall k :: LiveToken(s.tokens, k, at) <==> LiveToken(t.tokens, k, at))
    && (forall k :: LiveCode(s.codes, k, at) <==> LiveCode(t.codes, k, at))
  }

  lemma SimSameCredentials(s: State, t: State, dropped: set<Id>, now: int, at: int)
    requires Sim(s, t, dropped, now) && now <= at
    ensures SameCredentials(s, t, at)
    ensures forall i :: HasLive(s, i, at) <==> HasLive(t, i, at)
  {
    SimLater(s, t, dropped, now, at);
    forall i ensures HasLive(s, i, at) <==> HasLive(t, i, at) {
      LiveMoves(s, t, dropped, at, i);
    }
  }

  lemma LiveMoves(s: State, t: State, dropped: set<Id>, at: int, i: Id)
    requires Sim(s, t, dropped, at)
    ensures HasLive(s, i, at) <==> HasLive(t, i, at)
  {
    assert forall k :: LiveSession(s.sessions, k, at) ==> LiveSession(t.sessions, k, at) && s.sessions[k] == t.sessions[k];
    assert forall k :: LiveToken(s.tokens, k, at) ==> LiveToken(t.tokens, k, at) && s.tokens[k] == t.tokens[k];
    assert forall k :: LiveCode(s.codes, k, at) ==> LiveCode(t.codes, k, at) && s.codes[k] == t.codes[k];
  }

  lemma EndedSessions(m: map<Id, Session>, login: Id, at: int)
    ensures forall k :: LiveSession(SessionsWithout(m, {login}), k, at) <==> LiveSession(m, k, at) && m[k].idp != login
  {
  }

  lemma EndedTokens(m: map<Id, Token>, login: Id, at: int)
    ensures forall k :: LiveToken(TokensWithout(m, {login}), k, at) <==> LiveToken(m, k, at) && m[k].idp != login
  {
  }

  lemma EndedCodes(m: map<Id, Code>, login: Id, at: int)
    ensures forall k :: LiveCode(CodesWithout(m, {login}), k, at) <==> LiveCode(m, k, at) && m[k].idp != login
  {
  }

  /** Ending a login changes what works exactly if something bound to it works. */
  lemma EndingShows(s: State, login: Id, at: int)
    ensures SameCredentials(EndLogins(s, {login}), s, at) <==> !HasLive(s, login, at)
  {
    EndedSessions(s.sessions, login, at);
    EndedTokens(s.tokens, login, at);
    EndedCodes(s.codes, login, at);
  }

  lemma CredentialsCompose(a: State, b: State, c: State, at: int)
    requires SameCredentials(a, b, at)
    ensures SameCredentials(c, b, at) <==> SameCredentials(c, a, at)
  {
  }

  /**
    Logging out tells the two servers apart exactly when only the one that had not cleaned up still has the session and
    something else bound to its login still works: that server ends it.
   */
  lemma LogoutTellsThemApart(cfg: Config, s: State, t: State, dropped: set<Id>, now: int, sid: Id, at: int)
    requires Both(cfg, s, t, dropped, now) && now <= at
    ensures !SameCredentials(LogOut(s, sid), LogOut(t, sid), at) <==> LateLogout(s, t, sid, at)
  {
    SimLater(s, t, dropped, now, at);
    if LateLogout(s, t, sid, at) {
      var login := s.sessions[sid].idp;
      LogOutEnds(cfg, s, sid);
      EndingShows(s, login, at);
      SimSameCredentials(s, t, dropped, now, at);
      CredentialsCompose(s, t, LogOut(s, sid), at);
    } else {
      LogOutBoth(cfg, s, t, dropped, at, sid);
      SimSameCredentials(LogOut(s, sid), LogOut(t, sid), dropped, at, at);
    }
  }

  /** So it is for the first late logout after a clean-up at any point of any run: that one shows. */
  lemma FirstLateLogoutShows(cfg: Config, h: History, n: nat, now: int, es: seq<Event>, sid: Id, at: int)
    requires Run(cfg, h) && n <= |h.es| && 0 <= now && Continues(cfg, h.ss[n], es, now) && EndOf(es, now) <= at
    requires NoLateLogout(cfg, h.ss[n], Dropped(h.ss[n], now), es)
    ensures var s, t := Final(cfg, h.ss[n], es), Final(cfg, PurgeAuth(h.ss[n], now), es);
            !SameCredentials(LogOut(s, sid), LogOut(t, sid), at) <==> LogsOutLate(s, Dropped(h.ss[n], now), sid, at)
  {
    RunKeepsInv(cfg, h, n);
    var dropped := Dropped(h.ss[n], now);
    PurgeIsSim(cfg, h.ss[n], now);
    SameAnswers(cfg, h.ss[n], PurgeAuth(h.ss[n], now), dropped, es, now);
    var s, t := Final(cfg, h.ss[n], es), Final(cfg, PurgeAuth(h.ss[n], now), es);
    LogoutTellsThemApart(cfg, s, t, dropped, EndOf(es, now), sid, at);
    SimLater(s, t, dropped, EndOf(es, now), at);
    LateExactly(cfg, s, t, dropped, at, sid);
  }

  /** And a client sees it: its access token is refused after the logout, or not, depending on the clean-up. */
  lemma LateLogoutIsVisible(cfg: Config, s: State, t: State, dropped: set<Id>, now: int, sid: Id, token: Id, at: int, reply: TokenReply)
    requires Both(cfg, s, t, dropped, now) && now <= at && sid in s.sessions && sid !in t.sessions
    requires AccessTokenOk(s, token, at) && s.tokens[token].idp == s.sessions[sid].idp
    requires !RefreshDue(s.logins[s.sessions[sid].idp], at)
    ensures BearerContext(cfg, LogOut(s, sid), token, at, reply).1.Nobody?
    ensures BearerContext(cfg, LogOut(t, sid), token, at, reply).1.Someone?
  {
    LogOutEnds(cfg, s, sid);
    assert LogOut(t, sid) == t;
    assert LiveToken(s.tokens, token, now);
    assert HasLive(s, s.tokens[token].idp, now);
    LiveIsCommon(cfg, s, t, dropped, now, s.tokens[token].idp);
  }
}
