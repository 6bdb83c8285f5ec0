/**
  Where tokens come from, over whole runs: every token goes back through a code and an authorization request to a
  consent page shown to the session that approved it (section 4.1.2 of RFC 6749, section 4.6 of RFC 7636).
 */
module Provenance {
  import opened Tables
  import opened Oidc
  import opened Cimd
  import opened Urls
  import opened Auth
  import opened OAuth
  import opened Runs
  import opened Invariants

  // ----- what one step does to requests, codes and tokens ------------------------------

  /** Old tokens stay, vanish or get revoked. */
  ghost predicate TokensFrom(before: map<Id, Token>, after: map<Id, Token>) {
    after == before || forall k :: k in after ==> k in before && (after[k] == before[k] || after[k] == before[k].(revoked := true))
  }

  /** Old codes stay, vanish or get used. */
  ghost predicate CodesFrom(before: map<Id, Code>, after: map<Id, Code>) {
    after == before || forall k :: k in after ==> k in before && (after[k] == before[k] || after[k] == before[k].(used := true))
  }

  ghost predicate RequestsFrom(before: map<Id, Request>, after: map<Id, Request>) {
    after == before || forall k :: k in after ==> k in before && after[k] == before[k]
  }

  ghost predicate Quiet(s: State, t: State) {
    TokensFrom(s.tokens, t.tokens) && CodesFrom(s.codes, t.codes) && RequestsFrom(s.requests, t.requests) && s.issued <= t.issued
  }

  /** Nothing new was handed out. */
  ghost predicate Nothing(s: State, t: State, a: Answer) {
    Quiet(s, t) && !a.RequestPending? && !a.ConsentShown? && !a.CodeSent? && !a.Issued?
  }

  lemma QuietThenFewer(s: State, t: State, u: State)
    requires Quiet(s, t) && Fewer(t, u) && u.requests == t.requests && u.issued == t.issued
    ensures Quiet(s, u)
  {
  }

  lemma ResolveSessionQuiet(cfg: Config, s: State, sid: Id, now: int, reply: TokenReply)
    requires Inv(cfg, s) && 0 <= now
    ensures Quiet(s, ResolveSession(cfg, s, sid, now, reply).0)
  {
    ResolveSessionFacts(cfg, s, sid, now, reply);
  }

  lemma ContextQuiet(cfg: Config, s: State, id: Id, now: int, reply: TokenReply)
    requires Inv(cfg, s) && 0 <= now
    ensures Quiet(s, ContextFor(cfg, s, id, now, reply).0)
  {
    ContextFacts(cfg, s, id, now, reply);
  }

  lemma DisconnectQuiet(cfg: Config, s: State, sid: Id, clientId: Url, now: int, reply: TokenReply)
    requires Inv(cfg, s) && 0 <= now
    ensures Quiet(s, Disconnect(cfg, s, sid, clientId, now, reply).0)
  {
    ResolveSessionFacts(cfg, s, sid, now, reply);
  }

  /** A new request holds what was asked for. */
  ghost predicate Began(s: State, t: State, e: Event, a: Answer) {
    && e.BeginEvent? && a == RequestPending(e.request) && e.request !in s.requests
    && e.request in t.requests
    && t.requests[e.request].clientId == e.input.clientId && t.requests[e.request].redirect == e.input.redirect
    && t.requests[e.request].challenge == e.input.challenge && t.requests[e.request].session == ""
    && t.requests == s.requests[e.request := t.requests[e.request]]
    && t.codes == s.codes && t.tokens == s.tokens && t.issued == s.issued + {e.request}
  }

  lemma BeginDoes(cfg: Config, s: State, e: Event)
    requires Inv(cfg, s) && e.BeginEvent? && EventOk(s, e)
    ensures var (t, a) := BeginAuthz(cfg, s, e.input, e.at, e.fetch, e.request); Nothing(s, t, a) || Began(s, t, e, a)
  {
    ResolveClientKeepsInv(cfg, s, e.input.clientId, e.at, e.fetch);
  }

  /** The request is bound to the session the page was shown to; nothing else about it changes. */
  ghost predicate Showed(s: State, t: State, e: Event, a: Answer) {
    && e.ShowEvent? && a.ConsentShown? && e.session != ""
    && e.request in s.requests && e.session in s.sessions
    && a == ConsentShown(s.requests[e.request].clientId, s.requests[e.request].redirect)
    && t.requests == s.requests[e.request := s.requests[e.request].(session := e.session)]
    && t.codes == s.codes && t.tokens == s.tokens && t.issued == s.issued
  }

  lemma RenderDoes(cfg: Config, s: State, e: Event)
    requires e.ShowEvent? && e.session != "" && e.session in s.sessions
    ensures var (t, a) := RenderConsent(cfg, s, e.request, e.session, e.at, e.fetch); Nothing(s, t, a) || Showed(s, t, e, a)
  {
    var (t, r) := LoadRequest(s, e.request, e.at);
    if r.Some? {
      ResolveClientFrame(cfg, t.(requests := t.requests[e.request := r.value.(session := e.session)]), r.value.clientId, e.at, e.fetch);
    }
  }

  lemma ShowDoes(cfg: Config, s: State, e: Event)
    requires Inv(cfg, s) && 0 <= e.at && e.ShowEvent?
    ensures var (t, a) := ShowConsent(cfg, s, e.request, e.session, e.at, e.reply, e.fetch); Nothing(s, t, a) || Showed(s, t, e, a)
  {
    ResolveSessionFacts(cfg, s, e.session, e.at, e.reply);
    var (t, who) := ResolveSession(cfg, s, e.session, e.at, e.reply);
    if who.Someone? {
      RenderDoes(cfg, t, e);
      assert SameDependants(s, t) && SameFlow(s, t);
    } else {
      ResolveSessionQuiet(cfg, s, e.session, e.at, e.reply);
    }
  }

  lemma ResolveClientFrame(cfg: Config, s: State, clientId: Url, now: int, f: Fetch)
    ensures var t := ResolveClient(cfg, s, clientId, now, f).0; t == s.(cache := t.cache, clients := t.clients)
  {
    KeepFrame(s, clientId, now, SourceOf(cfg, s.clients, s.cache, clientId, now, f));
  }

  lemma KeepFrame(s: State, clientId: Url, now: int, source: Source)
    ensures var t := Keep(s, clientId, now, source).0; t == s.(cache := t.cache, clients := t.clients)
  {
  }

  /** A code is made from the request, for the session it was shown to, and the request is gone. */
  ghost predicate Approved(s: State, t: State, e: Event, a: Answer) {
    && e.ApproveEvent? && a.CodeSent? && a.code == e.code && e.session != "" && e.code !in s.codes
    && e.request in s.requests && s.requests[e.request].session == e.session && e.session in s.sessions
    && e.code in t.codes && t.codes == s.codes[e.code := t.codes[e.code]]
    && t.codes[e.code].clientId == s.requests[e.request].clientId
    && t.codes[e.code].redirect == s.requests[e.request].redirect == a.redirect
    && t.codes[e.code].challenge == s.requests[e.request].challenge
    && t.codes[e.code].subject == s.sessions[e.session].subject
    && t.codes[e.code].idp == s.sessions[e.session].idp
    && t.requests == s.requests - {e.request}
    && t.tokens == s.tokens && t.issued == s.issued + {e.code}
  }

  lemma ApproveDoes(cfg: Config, s: State, e: Event)
    requires Inv(cfg, s) && 0 <= e.at && e.ApproveEvent? && EventOk(s, e)
    ensures var (t, a) := Approve(cfg, s, e.request, e.session, e.at, e.reply, e.code); Nothing(s, t, a) || Approved(s, t, e, a)
  {
    ResolveSessionFacts(cfg, s, e.session, e.at, e.reply);
    var (t, who) := ResolveSession(cfg, s, e.session, e.at, e.reply);
    if who.Someone? && e.request != "" {
      CompleteDoes(t, e, who.subject, who.login);
      var (u, a) := CompleteAuthz(t, e.request, e.session, who.subject, who.login, e.at, e.code);
      ApprovedFrom(s, t, u, e, a);
    } else {
      ResolveSessionQuiet(cfg, s, e.session, e.at, e.reply);
    }
  }

  lemma ApprovedFrom(s: State, t: State, u: State, e: Event, a: Answer)
    requires SameDependants(s, t) && SameFlow(s, t) && (Nothing(t, u, a) || Approved(t, u, e, a))
    ensures Nothing(s, u, a) || Approved(s, u, e, a)
  {
  }

  lemma CompleteDoes(s: State, e: Event, subject: string, login: Id)
    requires e.ApproveEvent? && e.session in s.sessions && e.session != "" && e.code !in s.codes
    requires s.sessions[e.session].subject == subject && s.sessions[e.session].idp == login
    ensures var (t, a) := CompleteAuthz(s, e.request, e.session, subject, login, e.at, e.code); Nothing(s, t, a) || Approved(s, t, e, a)
  {
  }

  ghost function NewPair(tokens: map<Id, Token>, access: Id, refresh: Id, clientId: Url, subject: string, scope: string, now: int, login: Id): map<Id, Token> {
    tokens[access := Token(Access, clientId, subject, scope, now + ACCESS_TTL, false, login)]
          [refresh := Token(Refresh, clientId, subject, scope, now + REFRESH_TTL, false, login)]
  }

  /** Two tokens are made from an unused code, whose challenge the verifier meets; the code is used up. */
  ghost predicate Redeemed(cfg: Config, s: State, t: State, e: Event, a: Answer) {
    && e.RedeemEvent? && a.Issued? && a.access == e.access && a.refresh == e.refresh
    && e.access !in s.tokens && e.refresh !in s.tokens && e.access != e.refresh
    && e.redeem.code in s.codes
    && var c := s.codes[e.redeem.code];
    && !c.used && c.clientId == e.redeem.clientId && c.redirect == e.redeem.redirect && c.challenge == cfg.s256(e.redeem.verifier)
    && t.codes == s.codes[e.redeem.code := c.(used := true)]
    && t.tokens == NewPair(s.tokens, e.access, e.refresh, c.clientId, c.subject, c.scope, e.at, c.idp)
    && t.requests == s.requests && t.issued == s.issued + {e.access, e.refresh}
  }

  /** A grant mints the pair on top of what was there, or nothing. */
  lemma GrantDoes(cfg: Config, s: State, clientId: Url, subject: string, scope: string, login: Id, now: int, reply: TokenReply,
                  access: Id, refresh: Id, giveUp: Option<Id>)
    requires Inv(cfg, s) && 0 <= now && (giveUp.Some? ==> giveUp.value in s.tokens)
    ensures var (t, a) := Grant(cfg, s, clientId, subject, scope, login, now, reply, access, refresh, giveUp);
            var left := if giveUp.Some? then s.tokens[giveUp.value := s.tokens[giveUp.value].(revoked := true)] else s.tokens;
            if a.Issued? then
              && a.access == access && a.refresh == refresh && t.requests == s.requests && t.codes == s.codes
              && t.issued == s.issued + {access, refresh}
              && t.tokens == NewPair(left, access, refresh, clientId, subject, scope, now, login)
            else a.Failed? && Fewer(s, t) && t.requests == s.requests && t.issued == s.issued
  {
    CheckLoginFacts(cfg, s, login, now, reply);
  }

  lemma RedeemDoes(cfg: Config, s: State, e: Event)
    requires Inv(cfg, s) && 0 <= e.at && e.RedeemEvent? && EventOk(s, e)
    ensures var (t, a) := ExchangeCode(cfg, s, e.redeem, e.at, e.fetch, e.reply, e.access, e.refresh);
            Nothing(s, t, a) || Redeemed(cfg, s, t, e, a)
  {
    ResolveClientKeepsInv(cfg, s, e.redeem.clientId, e.at, e.fetch);
    var (t, client) := ResolveClient(cfg, s, e.redeem.clientId, e.at, e.fetch);
    if client.Some? {
      RedeemCodeDoes(cfg, t, e);
    }
  }

  lemma RedeemCodeDoes(cfg: Config, s: State, e: Event)
    requires Inv(cfg, s) && 0 <= e.at && e.RedeemEvent? && EventOk(s, e)
    ensures var (t, a) := RedeemCode(cfg, s, e.redeem, e.at, e.reply, e.access, e.refresh);
            Nothing(s, t, a) || Redeemed(cfg, s, t, e, a)
  {
    if CodeError(cfg, s, e.redeem, e.at).None? {
      GrantForCode(cfg, s, e);
    }
  }

  lemma GrantForCode(cfg: Config, s: State, e: Event)
    requires Inv(cfg, s) && 0 <= e.at && e.RedeemEvent? && EventOk(s, e) && CodeError(cfg, s, e.redeem, e.at).None?
    ensures var c := s.codes[e.redeem.code];
            var (t, a) := Grant(cfg, UseCode(s, e.redeem.code), c.clientId, c.subject, c.scope, c.idp, e.at, e.reply, e.access, e.refresh, None);
            Nothing(s, t, a) || Redeemed(cfg, s, t, e, a)
  {
    var c := s.codes[e.redeem.code];
    var u := UseCode(s, e.redeem.code);
    UseCodeKeepsInv(cfg, s, e.redeem.code);
    GrantDoes(cfg, u, c.clientId, c.subject, c.scope, c.idp, e.at, e.reply, e.access, e.refresh, None);
    var (t, a) := Grant(cfg, u, c.clientId, c.subject, c.scope, c.idp, e.at, e.reply, e.access, e.refresh, None);
    if a.Failed? {
      QuietThenFewer(s, u, t);
    }
  }

  /** Two tokens replace a live refresh token of the same client. */
  ghost predicate Renewed(s: State, t: State, e: Event, a: Answer) {
    && e.RenewEvent? && a.Issued? && a.access == e.access && a.refresh == e.refresh
    && e.access !in s.tokens && e.refresh !in s.tokens && e.access != e.refresh
    && e.token in s.tokens
    && var o := s.tokens[e.token];
    && o.kind == Refresh && !o.revoked && o.clientId == e.clientId
    && t.tokens == NewPair(s.tokens[e.token := o.(revoked := true)], e.access, e.refresh, o.clientId, o.subject, o.scope, e.at, o.idp)
    && t.codes == s.codes && t.requests == s.requests && t.issued == s.issued + {e.access, e.refresh}
  }

  lemma RenewDoes(cfg: Config, s: State, e: Event)
    requires Inv(cfg, s) && 0 <= e.at && e.RenewEvent? && EventOk(s, e)
    ensures var (t, a) := ExchangeRefresh(cfg, s, e.clientId, e.token, e.at, e.fetch, e.reply, e.access, e.refresh);
            Nothing(s, t, a) || Renewed(s, t, e, a)
  {
    ResolveClientKeepsInv(cfg, s, e.clientId, e.at, e.fetch);
    var (t, client) := ResolveClient(cfg, s, e.clientId, e.at, e.fetch);
    if client.Some? {
      RenewTokenDoes(cfg, t, e);
    }
  }

  lemma RenewTokenDoes(cfg: Config, s: State, e: Event)
    requires Inv(cfg, s) && 0 <= e.at && e.RenewEvent? && EventOk(s, e)
    ensures var (t, a) := RenewToken(cfg, s, e.clientId, e.token, e.at, e.reply, e.access, e.refresh);
            Nothing(s, t, a) || Renewed(s, t, e, a)
  {
    if RefreshTokenOk(s, e.clientId, e.token, e.at) {
      var o := s.tokens[e.token];
      GrantDoes(cfg, s, o.clientId, o.subject, o.scope, o.idp, e.at, e.reply, e.access, e.refresh, Some(e.token));
      var (t, a) := Grant(cfg, s, o.clientId, o.subject, o.scope, o.idp, e.at, e.reply, e.access, e.refresh, Some(e.token));
      if a.Failed? {
        QuietThenFewer(s, s, t);
      }
    }
  }

  lemma LoginQuiet(cfg: Config, s: State, id: Option<Identity>, now: int, login: Id, session: Id)
    ensures Quiet(s, LogIn(cfg, s, id, now, login, session).0)
  {
  }

  lemma LogOutQuiet(s: State, sid: Id)
    ensures Quiet(s, LogOut(s, sid))
  {
    if sid in s.sessions {
      EndQuiet(DestroySession(s, sid), ById(s.sessions[sid].idp));
    }
  }

  lemma EndQuiet(s: State, w: Where)
    ensures Quiet(s, EndLogins(s, Selected(s, w))) && Quiet(s, ForceRefresh(s, w))
  {
  }

  lemma PurgeQuiet(s: State, now: int)
    ensures Quiet(s, PurgeAuth(s, now))
  {
    assert Quiet(s, PurgeRows(s, now));
  }

  /** A denial removes the request, expired or not, and touches nothing else. */
  lemma DenyExactly(cfg: Config, s: State, e: Event)
    requires e.DenyEvent?
    ensures Step(cfg, s, e) == (s.(requests := s.requests - {e.request}), Done)
  {
    if e.request !in s.requests {
      assert s.requests - {e.request} == s.requests;
    }
  }

  lemma DenyQuiet(s: State, id: Id, now: int)
    ensures Quiet(s, Deny(s, id, now))
  {
    assert Quiet(s, s.(requests := s.requests - {id}));
  }

  /** Each step hands out nothing, or exactly one of five things. */
  ghost predicate OneOf(cfg: Config, s: State, t: State, e: Event, a: Answer) {
    Nothing(s, t, a) || Began(s, t, e, a) || Showed(s, t, e, a) || Approved(s, t, e, a) || Redeemed(cfg, s, t, e, a) || Renewed(s, t, e, a)
  }

  lemma BrowserStepQuiet(cfg: Config, s: State, e: Event)
    requires Inv(cfg, s) && 0 <= e.at && !e.ShowEvent? && !e.ApproveEvent?
    ensures var (t, a) := BrowserStep(cfg, s, e); Nothing(s, t, a)
  {
    if e.LoginEvent? {
      LoginQuiet(cfg, s, OidcExchange(cfg, e.reply, e.nonceOk), e.at, e.login, e.session);
    } else if e.VisitEvent? {
      ResolveSessionQuiet(cfg, s, e.session, e.at, e.reply);
    } else if e.DisconnectEvent? {
      DisconnectQuiet(cfg, s, e.session, e.clientId, e.at, e.reply);
    } else if e.LogoutEvent? {
      LogOutQuiet(s, e.session);
    }
  }

  lemma BrowserStepHands(cfg: Config, s: State, e: Event)
    requires Inv(cfg, s) && 0 <= e.at && EventOk(s, e)
    ensures var (t, a) := BrowserStep(cfg, s, e); OneOf(cfg, s, t, e, a)
  {
    if e.ShowEvent? {
      ShowDoes(cfg, s, e);
    } else if e.ApproveEvent? {
      ApproveDoes(cfg, s, e);
    } else {
      BrowserStepQuiet(cfg, s, e);
    }
  }

  lemma CallQuiet(cfg: Config, s: State, token: Id, now: int, reply: TokenReply)
    requires Inv(cfg, s) && 0 <= now
    ensures Quiet(s, BearerContext(cfg, s, token, now, reply).0)
  {
    if AccessTokenOk(s, token, now) {
      ContextQuiet(cfg, s, s.tokens[token].idp, now, reply);
    }
  }

  lemma ClientStepQuiet(cfg: Config, s: State, e: Event)
    requires Inv(cfg, s) && 0 <= e.at && !e.BeginEvent? && !e.RedeemEvent? && !e.RenewEvent?
    ensures var (t, a) := ClientStep(cfg, s, e); Nothing(s, t, a)
  {
    if e.DenyEvent? {
      DenyQuiet(s, e.request, e.at);
    } else if e.CallEvent? {
      CallQuiet(cfg, s, e.token, e.at, e.reply);
    }
  }

  lemma ClientStepHands(cfg: Config, s: State, e: Event)
    requires Inv(cfg, s) && 0 <= e.at && EventOk(s, e)
    ensures var (t, a) := ClientStep(cfg, s, e); OneOf(cfg, s, t, e, a)
  {
    if e.BeginEvent? {
      BeginDoes(cfg, s, e);
    } else if e.RedeemEvent? {
      RedeemDoes(cfg, s, e);
    } else if e.RenewEvent? {
      RenewDoes(cfg, s, e);
    } else {
      ClientStepQuiet(cfg, s, e);
    }
  }

  lemma StepHands(cfg: Config, s: State, e: Event)
    requires Inv(cfg, s) && 0 <= e.at && EventOk(s, e)
    ensures var (t, a) := Step(cfg, s, e); OneOf(cfg, s, t, e, a)
  {
    if FromBrowser(e) {
      BrowserStepHands(cfg, s, e);
    } else if FromClient(e) {
      ClientStepHands(cfg, s, e);
    } else if e.EndEvent? || e.ForceEvent? {
      EndQuiet(s, e.which);
    } else if e.PurgeEvent? {
      PurgeQuiet(s, e.at);
    }
  }

  // ----- the same, table by table -------------------------------------------------------------

  ghost predicate RequestsHanded(s: State, t: State, e: Event, a: Answer) {
    RequestsFrom(s.requests, t.requests) || Began(s, t, e, a) || Showed(s, t, e, a)
  }

  ghost predicate CodesHanded(s: State, t: State, e: Event, a: Answer) {
    CodesFrom(s.codes, t.codes) || Approved(s, t, e, a)
  }

  ghost predicate TokensHanded(cfg: Config, s: State, t: State, e: Event, a: Answer) {
    TokensFrom(s.tokens, t.tokens) || Redeemed(cfg, s, t, e, a) || Renewed(s, t, e, a)
  }

  ghost predicate Handed(cfg: Config, s: State, t: State, e: Event, a: Answer) {
    && RequestsHanded(s, t, e, a) && CodesHanded(s, t, e, a) && TokensHanded(cfg, s, t, e, a) && s.issued <= t.issued
    && (a.CodeSent? ==> Approved(s, t, e, a))
    && (a.Issued? ==> Redeemed(cfg, s, t, e, a) || Renewed(s, t, e, a))
  }

  lemma FlowHanded(cfg: Config, s: State, t: State, e: Event, a: Answer)
    requires Nothing(s, t, a) || Began(s, t, e, a) || Showed(s, t, e, a) || Approved(s, t, e, a)
    ensures Handed(cfg, s, t, e, a)
  {
  }

  lemma OneOfIsHanded(cfg: Config, s: State, t: State, e: Event, a: Answer)
    requires OneOf(cfg, s, t, e, a)
    ensures Handed(cfg, s, t, e, a)
  {
    if !Redeemed(cfg, s, t, e, a) && !Renewed(s, t, e, a) {
      FlowHanded(cfg, s, t, e, a);
    }
  }

  // ----- over whole runs ------------------------------------------------------------------

  /** What step number n of a run did. */
  lemma RunHands(cfg: Config, h: History, n: nat)
    requires Run(cfg, h) && n < |h.es|
    ensures Inv(cfg, h.ss[n]) && EventOk(h.ss[n], h.es[n])
    ensures Handed(cfg, h.ss[n], h.ss[n + 1], h.es[n], h.answers[n])
  {
    RunKeepsInv(cfg, h, n);
    assert StepAt(cfg, h, n);
    StepHands(cfg, h.ss[n], h.es[n]);
    OneOfIsHanded(cfg, h.ss[n], h.ss[n + 1], h.es[n], h.answers[n]);
  }

  lemma RunHandsTokens(cfg: Config, h: History, n: nat)
    requires Run(cfg, h) && n < |h.es|
    ensures TokensHanded(cfg, h.ss[n], h.ss[n + 1], h.es[n], h.answers[n])
  {
    RunHands(cfg, h, n);
  }

  ghost predicate SameRequest(q: Request, p: Request) {
    q.clientId == p.clientId && q.redirect == p.redirect && q.challenge == p.challenge
  }

  lemma RequestStep(s: State, t: State, e: Event, a: Answer, r: Id)
    requires RequestsHanded(s, t, e, a) && r in t.requests
    ensures r in s.requests ==> SameRequest(t.requests[r], s.requests[r])
    ensures r in s.requests && t.requests[r].session != s.requests[r].session ==>
              e.ShowEvent? && e.request == r && e.session == t.requests[r].session && a == ConsentShown(t.requests[r].clientId, t.requests[r].redirect)
    ensures r !in s.requests ==>
              && e.BeginEvent? && e.request == r && a == RequestPending(r) && t.requests[r].session == ""
              && e.input.clientId == t.requests[r].clientId && e.input.redirect == t.requests[r].redirect
              && e.input.challenge == t.requests[r].challenge
  {
  }

  /** Event b is the authorization request that made r. */
  ghost predicate Begins(h: History, b: nat, r: Id, q: Request)
    requires |h.answers| == |h.es|
  {
    && b < |h.es| && h.es[b].BeginEvent? && h.es[b].request == r && h.answers[b] == RequestPending(r)
    && q.clientId == h.es[b].input.clientId && q.redirect == h.es[b].input.redirect && q.challenge == h.es[b].input.challenge
  }

  /** A stored request goes back to the authorization request that made it. */
  lemma {:induction false} RequestOrigin(cfg: Config, h: History, n: nat, r: Id) returns (b: nat)
    requires Run(cfg, h) && n <= |h.es| && r in h.ss[n].requests
    ensures b < n && Begins(h, b, r, h.ss[n].requests[r])
  {
    RunHands(cfg, h, n - 1);
    RequestStep(h.ss[n - 1], h.ss[n], h.es[n - 1], h.answers[n - 1], r);
    if r in h.ss[n - 1].requests {
      b := RequestOrigin(cfg, h, n - 1, r);
    } else {
      b := n - 1;
    }
  }

  /** A bound request goes back to a consent page shown to that very session, after the request was made. */
  lemma {:induction false} ConsentOrigin(cfg: Config, h: History, n: nat, r: Id) returns (b: nat, v: nat)
    requires Run(cfg, h) && n <= |h.es| && r in h.ss[n].requests && h.ss[n].requests[r].session != ""
    ensures b < v < n && Begins(h, b, r, h.ss[n].requests[r])
    ensures h.es[v].ShowEvent? && h.es[v].request == r && h.es[v].session == h.ss[n].requests[r].session
    ensures h.answers[v] == ConsentShown(h.ss[n].requests[r].clientId, h.ss[n].requests[r].redirect)
  {
    RunHands(cfg, h, n - 1);
    RequestStep(h.ss[n - 1], h.ss[n], h.es[n - 1], h.answers[n - 1], r);
    if h.ss[n - 1].requests[r].session == h.ss[n].requests[r].session {
      b, v := ConsentOrigin(cfg, h, n - 1, r);
    } else {
      v := n - 1;
      b := RequestOrigin(cfg, h, n - 1, r);
    }
  }

  lemma CodeStep(s: State, t: State, e: Event, a: Answer, c: Id)
    requires CodesHanded(s, t, e, a) && c in t.codes
    ensures c in s.codes && !e.ApproveEvent? ==> t.codes[c].(used := false) == s.codes[c].(used := false)
    ensures c !in s.codes || t.codes[c].(used := false) != s.codes[c].(used := false) ==>
              e.ApproveEvent? && e.code == c && Approved(s, t, e, a)
  {
  }

  /** A stored code goes back to the approval that made it. */
  lemma {:induction false} CodeOrigin(cfg: Config, h: History, n: nat, c: Id) returns (p: nat)
    requires Run(cfg, h) && n <= |h.es| && c in h.ss[n].codes
    ensures p < n && h.es[p].ApproveEvent? && h.es[p].code == c
    ensures Approved(h.ss[p], h.ss[p + 1], h.es[p], h.answers[p])
    ensures h.ss[n].codes[c].(used := false) == h.ss[p + 1].codes[c].(used := false)
  {
    RunHands(cfg, h, n - 1);
    CodeStep(h.ss[n - 1], h.ss[n], h.es[n - 1], h.answers[n - 1], c);
    if c in h.ss[n - 1].codes && h.ss[n].codes[c].(used := false) == h.ss[n - 1].codes[c].(used := false) {
      p := CodeOrigin(cfg, h, n - 1, c);
    } else {
      p := n - 1;
    }
  }

  ghost predicate SameGrant(t: Token, clientId: Url, subject: string, scope: string, login: Id) {
    t.clientId == clientId && t.subject == subject && t.scope == scope && t.idp == login
  }

  ghost predicate SameRow(a: Token, b: Token) {
    SameGrant(b, a.clientId, a.subject, a.scope, a.idp)
  }

  lemma MintStep(cfg: Config, s: State, t: State, e: Event, a: Answer, k: Id)
    requires TokensHanded(cfg, s, t, e, a) && k in t.tokens && k !in s.tokens
    ensures
      || (Redeemed(cfg, s, t, e, a) &&
          var c := s.codes[e.redeem.code]; SameGrant(t.tokens[k], c.clientId, c.subject, c.scope, c.idp))
      || (Renewed(s, t, e, a) &&
          var o := s.tokens[e.token]; SameGrant(t.tokens[k], o.clientId, o.subject, o.scope, o.idp))
  {
  }

  lemma KeepStep(cfg: Config, s: State, t: State, e: Event, a: Answer, k: Id)
    requires TokensHanded(cfg, s, t, e, a) && k in t.tokens && k in s.tokens
    ensures t.tokens[k].(revoked := true) == s.tokens[k].(revoked := true)
  {
  }

  /** A token was there before the last step, or that step handed it out for a code or an older token. */
  lemma OneBack(cfg: Config, h: History, n: nat, k: Id)
    requires Run(cfg, h) && 0 < n <= |h.es| && k in h.ss[n].tokens
    ensures var (s, t, e, a) := (h.ss[n - 1], h.ss[n], h.es[n - 1], h.answers[n - 1]);
            && (k in s.tokens ==> SameRow(s.tokens[k], t.tokens[k]))
            && (k !in s.tokens && !e.RedeemEvent? ==> Renewed(s, t, e, a) && SameRow(s.tokens[e.token], t.tokens[k]))
            && (k !in s.tokens && e.RedeemEvent? ==>
                  && Redeemed(cfg, s, t, e, a)
                  && var c := s.codes[e.redeem.code]; SameGrant(t.tokens[k], c.clientId, c.subject, c.scope, c.idp))
  {
    RunHandsTokens(cfg, h, n - 1);
    if k in h.ss[n - 1].tokens {
      KeepStep(cfg, h.ss[n - 1], h.ss[n], h.es[n - 1], h.answers[n - 1], k);
    } else {
      MintStep(cfg, h.ss[n - 1], h.ss[n], h.es[n - 1], h.answers[n - 1], k);
    }
  }

  /** A stored token goes back, through any number of renewals, to the redemption of a code. */
  lemma {:induction false} TokenOrigin(cfg: Config, h: History, n: nat, k: Id) returns (x: nat)
    requires Run(cfg, h) && n <= |h.es| && k in h.ss[n].tokens
    ensures x < n && Redeemed(cfg, h.ss[x], h.ss[x + 1], h.es[x], h.answers[x])
    ensures h.es[x].redeem.code == RootCode(cfg, h, n, k)
    ensures var c := h.ss[x].codes[h.es[x].redeem.code]; SameGrant(h.ss[n].tokens[k], c.clientId, c.subject, c.scope, c.idp)
    decreases n
  {
    var s := h.ss[n - 1];
    var e := h.es[n - 1];
    OneBack(cfg, h, n, k);
    if k in s.tokens {
      x := TokenOrigin(cfg, h, n - 1, k);
    } else if e.RedeemEvent? {
      x := n - 1;
    } else {
      x := TokenOrigin(cfg, h, n - 1, e.token);
    }
  }

  /** The code a token descends from. */
  ghost function RootCode(cfg: Config, h: History, n: nat, k: Id): Id
    requires n <= |h.es| <= |h.ss|
  {
    if n == 0 then ""
    else if k in h.ss[n - 1].tokens then RootCode(cfg, h, n - 1, k)
    else if h.es[n - 1].RedeemEvent? then h.es[n - 1].redeem.code
    else if h.es[n - 1].RenewEvent? then RootCode(cfg, h, n - 1, h.es[n - 1].token)
    else ""
  }

  /** The events a token rests on. */
  datatype Chain = Chain(begun: nat, shown: nat, approved: nat, redeemed: nat)

  /**
    Every token of every reachable state: a client asked, the consent page naming that client was shown to a session,
    the same session approved, and the same client redeemed the code with the verifier of its own challenge.
   */
  lemma TokenTracesBack(cfg: Config, h: History, n: nat, k: Id) returns (c: Chain)
    requires Run(cfg, h) && n <= |h.es| && k in h.ss[n].tokens
    ensures c.begun < c.shown < c.approved < c.redeemed < n
    ensures h.es[c.begun].BeginEvent? && h.es[c.shown].ShowEvent? && h.es[c.approved].ApproveEvent? && h.es[c.redeemed].RedeemEvent?
    ensures h.es[c.begun].request == h.es[c.shown].request == h.es[c.approved].request
    ensures h.es[c.shown].session == h.es[c.approved].session
    ensures h.es[c.redeemed].redeem.code == h.es[c.approved].code == RootCode(cfg, h, n, k)
    ensures var clientId := h.ss[n].tokens[k].clientId;
            && clientId == h.es[c.begun].input.clientId == h.es[c.redeemed].redeem.clientId
            && h.answers[c.shown] == ConsentShown(clientId, h.es[c.begun].input.redirect)
    ensures h.es[c.begun].input.redirect == h.es[c.redeemed].redeem.redirect
    ensures h.es[c.begun].input.challenge == cfg.s256(h.es[c.redeemed].redeem.verifier)
    ensures h.answers[c.approved].CodeSent? && h.answers[c.redeemed].Issued?
    ensures var s := h.ss[c.approved];
            && h.es[c.approved].session in s.sessions
            && h.ss[n].tokens[k].subject == s.sessions[h.es[c.approved].session].subject
            && h.ss[n].tokens[k].idp == s.sessions[h.es[c.approved].session].idp
  {
    var x := TokenOrigin(cfg, h, n, k);
    var p := CodeOrigin(cfg, h, x, h.es[x].redeem.code);
    var b, v := ConsentOrigin(cfg, h, p, h.es[p].request);
    c := Chain(b, v, p, x);
  }

  // ----- used once ---------------------------------------------------------------------------

  /** The request is done with: it can never come back, because ids are never issued twice. */
  ghost predicate RequestGone(s: State, r: Id) {
    r in s.issued && r !in s.requests
  }

  ghost predicate CodeSpent(s: State, c: Id) {
    c in s.issued && (c in s.codes ==> s.codes[c].used)
  }

  lemma {:induction false} StaysGone(cfg: Config, h: History, i: nat, n: nat, id: Id)
    requires Run(cfg, h) && i <= n <= |h.es|
    ensures RequestGone(h.ss[i], id) ==> RequestGone(h.ss[n], id)
    ensures CodeSpent(h.ss[i], id) ==> CodeSpent(h.ss[n], id)
    decreases n
  {
    if i < n {
      StaysGone(cfg, h, i, n - 1, id);
      RunHands(cfg, h, n - 1);
    }
  }

  /** An approval that sends a code finds its request and leaves it gone. */
  lemma ApprovalSpends(cfg: Config, h: History, n: nat)
    requires Run(cfg, h) && n < |h.es| && h.es[n].ApproveEvent? && h.answers[n].CodeSent?
    ensures h.es[n].request in h.ss[n].requests && RequestGone(h.ss[n + 1], h.es[n].request)
  {
    RunHands(cfg, h, n);
  }

  /** A redemption that issues tokens finds its code unused and leaves it spent. */
  lemma RedemptionSpends(cfg: Config, h: History, n: nat)
    requires Run(cfg, h) && n < |h.es| && h.es[n].RedeemEvent? && h.answers[n].Issued?
    ensures !CodeSpent(h.ss[n], h.es[n].redeem.code) && CodeSpent(h.ss[n + 1], h.es[n].redeem.code)
  {
    RunHands(cfg, h, n);
  }

  lemma DenialSpends(cfg: Config, h: History, n: nat)
    requires Run(cfg, h) && n < |h.es| && h.es[n].DenyEvent? && h.es[n].request in h.ss[n].issued
    ensures RequestGone(h.ss[n + 1], h.es[n].request)
  {
    assert StepAt(cfg, h, n);
    DenyExactly(cfg, h.ss[n], h.es[n]);
  }

  /** A denial holds: in every run, no approval of a denied request sends a code, whoever approves and whenever. */
  lemma DenialHolds(cfg: Config, h: History, i: nat, j: nat)
    requires Run(cfg, h) && i < j < |h.es| && h.es[i].DenyEvent? && h.es[j].ApproveEvent? && h.es[i].request == h.es[j].request
    requires h.es[i].request in h.ss[i].issued
    ensures !h.answers[j].CodeSent?
  {
    DenialSpends(cfg, h, i);
    StaysGone(cfg, h, i + 1, j, h.es[i].request);
    if h.answers[j].CodeSent? {
      ApprovalSpends(cfg, h, j);
    }
  }

  /** One authorization request gives at most one code. */
  lemma OneCodePerRequest(cfg: Config, h: History, i: nat, j: nat)
    requires Run(cfg, h) && i < j < |h.es| && h.es[i].ApproveEvent? && h.es[j].ApproveEvent? && h.es[i].request == h.es[j].request
    ensures !(h.answers[i].CodeSent? && h.answers[j].CodeSent?)
  {
    if h.answers[i].CodeSent? && h.answers[j].CodeSent? {
      ApprovalSpends(cfg, h, i);
      StaysGone(cfg, h, i + 1, j, h.es[i].request);
      ApprovalSpends(cfg, h, j);
    }
  }

  /** One code is redeemed at most once. */
  lemma OneRedemptionPerCode(cfg: Config, h: History, i: nat, j: nat)
    requires Run(cfg, h) && i < j < |h.es| && h.es[i].RedeemEvent? && h.es[j].RedeemEvent? && h.es[i].redeem.code == h.es[j].redeem.code
    ensures !(h.answers[i].Issued? && h.answers[j].Issued?)
  {
    if h.answers[i].Issued? && h.answers[j].Issued? {
      RedemptionSpends(cfg, h, i);
      StaysGone(cfg, h, i + 1, j, h.es[i].redeem.code);
      RedemptionSpends(cfg, h, j);
    }
  }

  /** The code behind a token is spent. */
  lemma {:induction false} RootIsSpent(cfg: Config, h: History, n: nat, k: Id)
    requires Run(cfg, h) && n <= |h.es| && k in h.ss[n].tokens
    ensures CodeSpent(h.ss[n], RootCode(cfg, h, n, k))
  {
    var x := TokenOrigin(cfg, h, n, k);
    RunHands(cfg, h, x);
    StaysGone(cfg, h, x + 1, n, h.es[x].redeem.code);
  }

  ghost predicate LiveRefresh(s: State, k: Id) {
    k in s.tokens && s.tokens[k].kind == Refresh && !s.tokens[k].revoked
  }

  lemma LiveStep(cfg: Config, s: State, t: State, e: Event, a: Answer, k: Id)
    requires TokensHanded(cfg, s, t, e, a) && LiveRefresh(t, k)
    ensures k in s.tokens ==> LiveRefresh(s, k) && (Renewed(s, t, e, a) ==> k != e.token)
    ensures k !in s.tokens ==> (Redeemed(cfg, s, t, e, a) || Renewed(s, t, e, a)) && k == e.refresh
  {
    if Redeemed(cfg, s, t, e, a) {
    } else if Renewed(s, t, e, a) {
    }
  }

  /** Two live refresh tokens, and the step before: one of them at most is new, and then in place of a third one. */
  lemma OlderLive(cfg: Config, h: History, n: nat, k: Id, l: Id)
    requires Run(cfg, h) && 0 < n <= |h.es| && LiveRefresh(h.ss[n], k) && LiveRefresh(h.ss[n], l) && k != l
    ensures var (s, e) := (h.ss[n - 1], h.es[n - 1]);
            && (k in s.tokens ==> LiveRefresh(s, k)) && (l in s.tokens ==> LiveRefresh(s, l)) && (k in s.tokens || l in s.tokens)
            && (!(k in s.tokens && l in s.tokens) && !e.RedeemEvent? ==> e.RenewEvent? && LiveRefresh(s, e.token) && e.token !in {k, l})
            && (!(k in s.tokens && l in s.tokens) && e.RedeemEvent? ==> !CodeSpent(s, e.redeem.code))
  {
    RunHandsTokens(cfg, h, n - 1);
    var s, e, a := h.ss[n - 1], h.es[n - 1], h.answers[n - 1];
    LiveStep(cfg, s, h.ss[n], e, a, k);
    LiveStep(cfg, s, h.ss[n], e, a, l);
  }

  /** Of all the refresh tokens that descend from one code, at most one is unrevoked at any time. */
  lemma {:induction false} OneLiveRefreshPerCode(cfg: Config, h: History, n: nat, k: Id, l: Id)
    requires Run(cfg, h) && n <= |h.es| && LiveRefresh(h.ss[n], k) && LiveRefresh(h.ss[n], l)
    requires RootCode(cfg, h, n, k) == RootCode(cfg, h, n, l)
    ensures k == l
    decreases n
  {
    if n > 0 && k != l {
      OlderLive(cfg, h, n, k, l);
      var s, e := h.ss[n - 1], h.es[n - 1];
      var older := if k in s.tokens then k else l;
      if k in s.tokens && l in s.tokens {
        OneLiveRefreshPerCode(cfg, h, n - 1, k, l);
      } else if e.RedeemEvent? {
        RootIsSpent(cfg, h, n - 1, older);
      } else {
        OneLiveRefreshPerCode(cfg, h, n - 1, older, e.token);
      }
    }
  }
}
