/** Who is let in and what is issued, condition by condition, in every reachable state. */
module Grants {
  import opened Tables
  import opened Oidc
  import opened Cimd
  import opened Urls
  import opened Auth
  import opened OAuth
  import opened Runs
  import opened Invariants
  import opened Provenance

  // ----- freshness ------------------------------------------------------------------------------------

  /** The access token of the login lasts for more than 15 s. */
  ghost predicate Current(row: Login, now: int) {
    now < row.accessExpiresAt - 15_000
  }

  /** The answer leaves the user out for want of a team. */
  ghost predicate TeamMissing(cfg: Config, r: TokenReply)
    requires r.Tokens?
  {
    cfg.requireTeam && TeamsTold(cfg, r) == []
  }

  /** The provider still vouches for the login: nothing has to be asked, or it confirms the user, with a team if one is required. */
  ghost predicate Vouched(cfg: Config, logins: map<Id, Login>, id: Id, now: int, reply: TokenReply) {
    id in logins && var row := logins[id];
    Current(row, now) || (row.refreshToken != "" && Confirms(cfg, reply, row.subject) && !TeamMissing(cfg, reply))
  }

  /** The login has to be confirmed and is not: no refresh token, a refusal, or no team. */
  ghost predicate Lapsed(cfg: Config, row: Login, now: int, reply: TokenReply) {
    !Current(row, now)
    && (row.refreshToken == "" || Refuses(cfg, reply, row.subject) || (Confirms(cfg, reply, row.subject) && TeamMissing(cfg, reply)))
  }

  /** The row as the answer has it. */
  ghost predicate Renewing(cfg: Config, was: Login, row: Login, now: int, r: TokenReply)
    requires r.Tokens?
  {
    && row.subject == was.subject && row.createdAt == was.createdAt && row.refreshedAt == now
    && row.refreshToken == (if r.refreshToken != "" then r.refreshToken else was.refreshToken)
    && row.sid == (if SidTold(r) != "" then SidTold(r) else was.sid)
    && row.teams == TeamsTold(cfg, r) && row.accessExpiresAt == AccessExpiry(cfg, r.expiresIn, now)
  }

  /** The user's row as the answer has it: a name if there is one, and always the address. */
  ghost function Told(cfg: Config, was: User, r: TokenReply): User
    requires r.Tokens?
  {
    var name := NameTold(cfg, r);
    if name == "" then was.(email := EmailTold(r)) else User(name, name, EmailTold(r))
  }

  lemma AliveExactly(cfg: Config, s: State, id: Id, now: int, reply: TokenReply)
    requires id in s.logins ==> id != ""
    ensures FreshLogin(cfg, s, id, now, reply).1.Alive? <==> Vouched(cfg, s.logins, id, now, reply)
  {
    if id in s.logins {
      RefreshOutcome(cfg, reply, s.logins[id].refreshToken, s.logins[id].subject);
      if Confirms(cfg, reply, s.logins[id].subject) {
        RefreshTells(cfg, reply, s.logins[id].refreshToken, s.logins[id].subject);
      }
    }
  }

  /** When a login is let in, ended, or neither: each exactly, for every answer of the provider. */
  lemma FreshExactly(cfg: Config, s: State, id: Id, now: int, reply: TokenReply)
    requires id != "" && id in s.logins
    ensures var r := FreshLogin(cfg, s, id, now, reply).1;
            && (r.Alive? <==> Vouched(cfg, s.logins, id, now, reply))
            && (r.Ended? <==> Lapsed(cfg, s.logins[id], now, reply))
            && (r.Unavailable? <==> !Current(s.logins[id], now) && s.logins[id].refreshToken != "" && Undecided(cfg, reply, s.logins[id].subject))
  {
    var row := s.logins[id];
    AliveExactly(cfg, s, id, now, reply);
    RefreshOutcome(cfg, reply, row.refreshToken, row.subject);
    if Confirms(cfg, reply, row.subject) {
      RefreshTells(cfg, reply, row.refreshToken, row.subject);
    }
  }

  /** What each of the three does to the database. */
  lemma FreshDoes(cfg: Config, s: State, id: Id, now: int, reply: TokenReply)
    requires Inv(cfg, s) && id in s.logins
    ensures var (t, r) := FreshLogin(cfg, s, id, now, reply);
            && (Current(s.logins[id], now) || r.Unavailable? ==> t == s)
            && (r.Ended? ==> t == EndLogins(s, {id}))
            && (r.Alive? && Current(s.logins[id], now) ==> r.row == s.logins[id])
            && (r.Alive? && !Current(s.logins[id], now) ==>
                  && reply.Tokens? && Renewing(cfg, s.logins[id], r.row, now, reply)
                  && t == s.(logins := s.logins[id := r.row],
                             users := s.users[r.row.subject := Told(cfg, s.users[s.logins[id].subject], reply)]))
  {
    var row := s.logins[id];
    NoEmptyId(cfg, s);
    RefreshOutcome(cfg, reply, row.refreshToken, row.subject);
    if Confirms(cfg, reply, row.subject) {
      RefreshTells(cfg, reply, row.refreshToken, row.subject);
      ProfileTold(cfg, s.users, row.subject, row.refreshToken, reply);
    }
  }

  lemma ProfileTold(cfg: Config, users: map<string, User>, subject: string, refreshToken: string, reply: TokenReply)
    requires subject in users && OidcRefresh(cfg, reply, refreshToken, subject).Accepted?
    ensures reply.Tokens?
    ensures RefreshProfile(users, subject, OidcRefresh(cfg, reply, refreshToken, subject).identity)
         == users[subject := Told(cfg, users[subject], reply)]
  {
    RefreshTells(cfg, reply, refreshToken, subject);
  }

  lemma NoEmptyId(cfg: Config, s: State)
    requires Inv(cfg, s)
    ensures "" !in s.logins && "" !in s.sessions && "" !in s.codes && "" !in s.tokens
  {
  }

  // ----- sessions and bearers ---------------------------------------------------------------------------

  /** What a request is told of the user: the login's teams and the user's row, as stored or as the answer has them. */
  ghost predicate Seen(cfg: Config, s: State, id: Id, now: int, reply: TokenReply, who: Who) {
    && who.Someone? && id in s.logins && who.login == id && who.subject == s.logins[id].subject && who.subject in s.users
    && if Current(s.logins[id], now) then who.teams == s.logins[id].teams && who.user == s.users[who.subject]
       else reply.Tokens? && who.teams == TeamsTold(cfg, reply) && who.user == Told(cfg, s.users[who.subject], reply)
  }

  lemma ContextExactly(cfg: Config, s: State, id: Id, now: int, reply: TokenReply)
    requires Inv(cfg, s) && id in s.logins
    ensures var who := ContextFor(cfg, s, id, now, reply).1;
            && (who.Someone? <==> Vouched(cfg, s.logins, id, now, reply))
            && (who.Someone? ==> Seen(cfg, s, id, now, reply, who))
            && (who.Nobody? <==> Lapsed(cfg, s.logins[id], now, reply))
  {
    NoEmptyId(cfg, s);
    FreshExactly(cfg, s, id, now, reply);
    FreshDoes(cfg, s, id, now, reply);
  }

  /** A browser session that lets in: it lasts, and the provider vouches for its login. */
  ghost predicate SignedIn(cfg: Config, s: State, sid: Id, now: int, reply: TokenReply) {
    sid in s.sessions && now <= s.sessions[sid].expiresAt && Vouched(cfg, s.logins, s.sessions[sid].idp, now, reply)
  }

  /** A browser session lets in exactly then, and as the login's user. */
  lemma VisitExactly(cfg: Config, s: State, sid: Id, now: int, reply: TokenReply)
    requires Inv(cfg, s) && 0 <= now
    ensures var who := ResolveSession(cfg, s, sid, now, reply).1;
            && (who.Someone? <==> SignedIn(cfg, s, sid, now, reply))
            && (who.Someone? ==> who.subject == s.sessions[sid].subject && Seen(cfg, s, s.sessions[sid].idp, now, reply, who))
            && (who.Nobody? <==> !(sid in s.sessions && now <= s.sessions[sid].expiresAt)
                                 || Lapsed(cfg, s.logins[s.sessions[sid].idp], now, reply))
  {
    NoEmptyId(cfg, s);
    if sid in s.sessions {
      assert BoundTo(s.logins, s.sessions[sid].idp, s.sessions[sid].subject);
      ContextExactly(cfg, s, s.sessions[sid].idp, now, reply);
    }
  }

  /** An access token to be taken: unrevoked, unexpired. */
  ghost predicate BearerValid(tokens: map<Id, Token>, token: Id, now: int) {
    token in tokens && tokens[token].kind == Access && !tokens[token].revoked && now <= tokens[token].expiresAt
  }

  /** The same for a bearer: a valid access token whose login the provider vouches for. */
  lemma CallExactly(cfg: Config, s: State, token: Id, now: int, reply: TokenReply)
    requires Inv(cfg, s) && 0 <= now
    ensures var who := BearerContext(cfg, s, token, now, reply).1;
            && (who.Someone? <==> BearerValid(s.tokens, token, now) && Vouched(cfg, s.logins, s.tokens[token].idp, now, reply))
            && (who.Someone? ==> who.subject == s.tokens[token].subject && Seen(cfg, s, s.tokens[token].idp, now, reply, who))
            && (who.Nobody? <==> !BearerValid(s.tokens, token, now) || Lapsed(cfg, s.logins[s.tokens[token].idp], now, reply))
  {
    NoEmptyId(cfg, s);
    if AccessTokenOk(s, token, now) {
      assert BoundTo(s.logins, s.tokens[token].idp, s.tokens[token].subject);
      SubjectCheckNeverFires(cfg, s, token, now, reply);
      ContextExactly(cfg, s, s.tokens[token].idp, now, reply);
    }
  }

  /** What the token endpoint must find for a code. */
  ghost predicate Redeemable(cfg: Config, codes: map<Id, Code>, i: CodeInput, now: int) {
    i.code in codes && var c := codes[i.code];
    && !c.used && now <= c.expiresAt && c.clientId == i.clientId && c.redirect == i.redirect
    && c.challenge == cfg.s256(i.verifier) && (i.resource != "" ==> cfg.resourceOk(i.resource))
  }

  lemma CodeErrorExactly(cfg: Config, s: State, i: CodeInput, now: int)
    requires CodesSafe(s.codes)
    ensures CodeError(cfg, s, i, now).None? <==> Redeemable(cfg, s.codes, i, now)
  {
  }

  // ----- outages ----------------------------------------------------------------------------------

  /** A provider that cannot be reached changes no login, and costs a client no refresh token: it can try again. */
  lemma OutageKeepsRefreshToken(cfg: Config, s: State, clientId: Url, token: Id, now: int, f: Fetch, reply: TokenReply, access: Id, refresh: Id)
    requires Inv(cfg, s) && 0 <= now
    requires ExchangeRefresh(cfg, s, clientId, token, now, f, reply, access, refresh).1 == Failed(TemporarilyUnavailable)
    ensures var t := ExchangeRefresh(cfg, s, clientId, token, now, f, reply, access, refresh).0;
            t.tokens == s.tokens && t.logins == s.logins && RefreshTokenOk(t, clientId, token, now)
  {
    ResolveClientKeepsInv(cfg, s, clientId, now, f);
    var (t, client) := ResolveClient(cfg, s, clientId, now, f);
    if client.Some? {
      UnavailableIsIdle(cfg, t, t.tokens[token].idp, now, reply);
    }
  }

  lemma UnavailableIsIdle(cfg: Config, s: State, login: Id, now: int, reply: TokenReply)
    requires CheckLogin(cfg, s, login, now, reply).1 == Some(TemporarilyUnavailable)
    ensures CheckLogin(cfg, s, login, now, reply).0 == s
  {
  }

  /**
    A code is different: it is used up before the provider is asked, so an outage burns it. The state the outage leaves
    refuses the code, although the answer invited a retry; BurntForGood says so of every later state of a run.
   */
  lemma OutageBurnsCode(cfg: Config, s: State, i: CodeInput, now: int, f: Fetch, reply: TokenReply, access: Id, refresh: Id, j: CodeInput, later: int)
    requires Inv(cfg, s) && 0 <= now
    requires ExchangeCode(cfg, s, i, now, f, reply, access, refresh).1 == Failed(TemporarilyUnavailable) && j.code == i.code
    ensures var t := ExchangeCode(cfg, s, i, now, f, reply, access, refresh).0;
            t.logins == s.logins && t.tokens == s.tokens && CodeError(cfg, t, j, later) == Some(InvalidGrant)
  {
    ResolveClientKeepsInv(cfg, s, i.clientId, now, f);
    var (t, client) := ResolveClient(cfg, s, i.clientId, now, f);
    if client.Some? {
      if CodeError(cfg, t, i, now).None? {
        UnavailableIsIdle(cfg, UseCode(t, i.code), t.codes[i.code].idp, now, reply);
      }
    }
  }

  /** In every run: once an exchange of a code was answered with temporarily_unavailable, no exchange of it succeeds. */
  lemma BurntForGood(cfg: Config, h: History, i: nat, j: nat)
    requires Run(cfg, h) && i < j < |h.es| && h.es[i].RedeemEvent? && h.answers[i] == Failed(TemporarilyUnavailable)
    requires h.es[j].RedeemEvent? && h.es[j].redeem.code == h.es[i].redeem.code
    ensures h.answers[j] == Failed(InvalidClient) || h.answers[j] == Failed(InvalidGrant)
  {
    OutageSpends(cfg, h, i);
    StaysGone(cfg, h, i + 1, j, h.es[i].redeem.code);
    SpentIsRefused(cfg, h, j);
  }

  lemma OutageSpends(cfg: Config, h: History, i: nat)
    requires Run(cfg, h) && i < |h.es| && h.es[i].RedeemEvent? && h.answers[i] == Failed(TemporarilyUnavailable)
    ensures CodeSpent(h.ss[i + 1], h.es[i].redeem.code)
  {
    RunKeepsInv(cfg, h, i);
    assert StepAt(cfg, h, i);
    var s, e := h.ss[i], h.es[i];
    OutageLeavesUsed(cfg, s, e.redeem, e.at, e.fetch, e.reply, e.access, e.refresh);
  }

  lemma OutageLeavesUsed(cfg: Config, s: State, i: CodeInput, now: int, f: Fetch, reply: TokenReply, access: Id, refresh: Id)
    requires Inv(cfg, s) && 0 <= now
    requires ExchangeCode(cfg, s, i, now, f, reply, access, refresh).1 == Failed(TemporarilyUnavailable)
    ensures CodeSpent(ExchangeCode(cfg, s, i, now, f, reply, access, refresh).0, i.code)
  {
    ResolveClientKeepsInv(cfg, s, i.clientId, now, f);
    var (t, client) := ResolveClient(cfg, s, i.clientId, now, f);
    if client.Some? && CodeError(cfg, t, i, now).None? {
      UnavailableIsIdle(cfg, UseCode(t, i.code), t.codes[i.code].idp, now, reply);
    }
  }

  lemma SpentIsRefused(cfg: Config, h: History, j: nat)
    requires Run(cfg, h) && j < |h.es| && h.es[j].RedeemEvent? && CodeSpent(h.ss[j], h.es[j].redeem.code)
    ensures h.answers[j] == Failed(InvalidClient) || h.answers[j] == Failed(InvalidGrant)
  {
    RunKeepsInv(cfg, h, j);
    assert StepAt(cfg, h, j);
    var s, e := h.ss[j], h.es[j];
    ResolveClientKeepsInv(cfg, s, e.redeem.clientId, e.at, e.fetch);
    var (t, client) := ResolveClient(cfg, s, e.redeem.clientId, e.at, e.fetch);
    if client.Some? {
      assert CodeError(cfg, t, e.redeem, e.at) == Some(InvalidGrant);
    }
  }
}
