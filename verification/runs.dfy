/** Whole runs of the server: what may happen, in which order, and what each step does. */
module Runs {
  import opened Tables
  import opened Oidc
  import opened Cimd
  import opened Urls
  import opened Auth
  import opened OAuth

  /**
    One request, event or clean-up, served on its own. at is its time; reply and fetch are what the provider and the
    metadata host answer if they are asked; the remaining ids are the ones genID returns.
   */
  datatype Event =
    | LoginEvent(at: int, reply: TokenReply, nonceOk: bool, login: Id, session: Id)
    | VisitEvent(at: int, session: Id, reply: TokenReply)
    | BeginEvent(at: int, input: AuthzInput, fetch: Fetch, request: Id)
    | ShowEvent(at: int, request: Id, session: Id, reply: TokenReply, fetch: Fetch)
    | ApproveEvent(at: int, request: Id, session: Id, reply: TokenReply, code: Id)
    | DenyEvent(at: int, request: Id)
    | RedeemEvent(at: int, redeem: CodeInput, fetch: Fetch, reply: TokenReply, access: Id, refresh: Id)
    | RenewEvent(at: int, clientId: Url, token: Id, fetch: Fetch, reply: TokenReply, access: Id, refresh: Id)
    | CallEvent(at: int, token: Id, reply: TokenReply)
    | DisconnectEvent(at: int, session: Id, clientId: Url, reply: TokenReply)
    | LogoutEvent(at: int, session: Id)
    | EndEvent(at: int, which: Where)
    | ForceEvent(at: int, which: Where)
    | PurgeEvent(at: int)

  /** genID never returns an id twice, nor "". */
  predicate Unused(s: State, id: Id) {
    id != "" && id !in s.issued
  }

  predicate EventOk(s: State, e: Event) {
    match e
    case LoginEvent(_, _, _, login, session) => Unused(s, login) && Unused(s, session) && login != session
    case BeginEvent(_, _, _, request) => Unused(s, request)
    case ApproveEvent(_, _, _, _, code) => Unused(s, code)
    case RedeemEvent(_, _, _, _, access, refresh) => Unused(s, access) && Unused(s, refresh) && access != refresh
    case RenewEvent(_, _, _, _, _, access, refresh) => Unused(s, access) && Unused(s, refresh) && access != refresh
    case _ => true
  }

  /** Requests that carry a browser session, or end in one. */
  function BrowserStep(cfg: Config, s: State, e: Event): (State, Answer) {
    match e
    case LoginEvent(at, reply, nonceOk, login, session) => LogIn(cfg, s, OidcExchange(cfg, reply, nonceOk), at, login, session)
    case VisitEvent(at, sid, reply) => var (t, who) := ResolveSession(cfg, s, sid, at, reply); (t, AnswerOf(who))
    case ShowEvent(at, id, sid, reply, fetch) => ShowConsent(cfg, s, id, sid, at, reply, fetch)
    case ApproveEvent(at, id, sid, reply, code) => Approve(cfg, s, id, sid, at, reply, code)
    case DisconnectEvent(at, sid, clientId, reply) => Disconnect(cfg, s, sid, clientId, at, reply)
    case LogoutEvent(at, sid) => (LogOut(s, sid), Done)
    case _ => (s, Done)
  }

  /** Requests of OAuth clients. */
  function ClientStep(cfg: Config, s: State, e: Event): (State, Answer) {
    match e
    case BeginEvent(at, input, fetch, id) => BeginAuthz(cfg, s, input, at, fetch, id)
    case DenyEvent(at, id) => (Deny(s, id, at), Done)
    case RedeemEvent(at, input, fetch, reply, access, refresh) => ExchangeCode(cfg, s, input, at, fetch, reply, access, refresh)
    case RenewEvent(at, clientId, token, fetch, reply, access, refresh) =>
      ExchangeRefresh(cfg, s, clientId, token, at, fetch, reply, access, refresh)
    case CallEvent(at, token, reply) => var (t, who) := BearerContext(cfg, s, token, at, reply); (t, AnswerOf(who))
    case _ => (s, Done)
  }

  predicate FromBrowser(e: Event) {
    e.LoginEvent? || e.VisitEvent? || e.ShowEvent? || e.ApproveEvent? || e.DisconnectEvent? || e.LogoutEvent?
  }

  predicate FromClient(e: Event) {
    e.BeginEvent? || e.DenyEvent? || e.RedeemEvent? || e.RenewEvent? || e.CallEvent?
  }

  function Step(cfg: Config, s: State, e: Event): (State, Answer) {
    if FromBrowser(e) then BrowserStep(cfg, s, e)
    else if FromClient(e) then ClientStep(cfg, s, e)
    else
      match e
      case EndEvent(at, w) => (EndLogins(s, Selected(s, w)), Done)
      case ForceEvent(at, w) => (ForceRefresh(s, w), Done)
      case PurgeEvent(at) => (PurgeAuth(s, at), Done)
      case _ => (s, Done)
  }

  /** A run: es[i] took the server from ss[i] to ss[i + 1] and was answered with answers[i]. */
  datatype History = History(es: seq<Event>, ss: seq<State>, answers: seq<Answer>)

  ghost predicate StepAt(cfg: Config, h: History, i: nat)
    requires i < |h.es| && |h.ss| == |h.es| + 1 && |h.answers| == |h.es|
  {
    && (h.ss[i + 1], h.answers[i]) == Step(cfg, h.ss[i], h.es[i])
    && EventOk(h.ss[i], h.es[i])
    && 0 <= h.es[i].at
    && (i > 0 ==> h.es[i - 1].at <= h.es[i].at)
  }

  /** It starts with an empty database; ids are always fresh and the clock never runs back. */
  ghost predicate Run(cfg: Config, h: History) {
    && ValidConfig(cfg)
    && |h.ss| == |h.es| + 1 && |h.answers| == |h.es|
    && h.ss[0] == EMPTY
    && forall i: nat :: i < |h.es| ==> StepAt(cfg, h, i)
  }
}
