/** The one observable clean-up, in a run from the empty database: a login, a connected client, and a week and a second later a renewal. */
module LateLogout {
  import opened Tables
  import opened Oidc
  import opened Cimd
  import opened Urls
  import opened Auth
  import opened OAuth
  import opened Runs
  import opened Invariants
  import opened Provenance
  import opened Purge
  import opened Examples
  import Text

  const LATER: int := SESSION_TTL + 1000

  const AT_LOGIN := Tokens(IdToken(Claims("user", "", "", Some(["a"]), map[], Some(""))), "rt0", 0, NoEndpoint)
  const META := Document(CLIENT, "client", [BACK], "", [])
  const ASK := AuthzInput(CLIENT, BACK, "code", "", "", "secret", "S256", "")
  const CODE := CodeInput(CLIENT, "code", BACK, "secret", "")

  // ----- runs, step by step --------------------------------------------------------------------

  ghost predicate EndsIn(h: History, s: State, now: int) {
    Run(PLAIN, h) && h.ss[|h.es|] == s && (h.es != [] ==> h.es[|h.es| - 1].at == now)
  }

  /** Some run leads to s at the time now. */
  ghost predicate RunsTo(s: State, now: int) {
    exists h :: EndsIn(h, s, now)
  }

  lemma StartIsReached()
    ensures RunsTo(EMPTY, 0)
  {
    assert EndsIn(History([], [EMPTY], []), EMPTY, 0);
  }

  lemma Follow(s: State, now: int, e: Event) returns (t: State)
    requires RunsTo(s, now) && EventOk(s, e) && 0 <= now <= e.at
    ensures t == Step(PLAIN, s, e).0 && RunsTo(t, e.at)
  {
    var a: Answer;
    t, a := Step(PLAIN, s, e).0, Step(PLAIN, s, e).1;
    var h :| EndsIn(h, s, now);
    Longer(h, s, now, e, t, a);
  }

  lemma Longer(h: History, s: State, now: int, e: Event, t: State, a: Answer)
    requires EndsIn(h, s, now) && EventOk(s, e) && 0 <= now <= e.at && (t, a) == Step(PLAIN, s, e)
    ensures EndsIn(History(h.es + [e], h.ss + [t], h.answers + [a]), t, e.at)
  {
    var more := History(h.es + [e], h.ss + [t], h.answers + [a]);
    forall i: nat | i < |more.es| ensures StepAt(PLAIN, more, i) {
      if i < |h.es| {
        assert StepAt(PLAIN, h, i);
        SameStep(h, more, i);
      }
    }
  }

  lemma SameStep(h: History, more: History, i: nat)
    requires |h.ss| == |h.es| + 1 && |h.answers| == |h.es| && |more.ss| == |more.es| + 1 && |more.answers| == |more.es|
    requires h.es <= more.es && h.ss <= more.ss && h.answers <= more.answers && i < |h.es| && StepAt(PLAIN, h, i)
    ensures StepAt(PLAIN, more, i)
  {
  }

  // ----- the run -------------------------------------------------------------------------------------

  const SESSION := Session("user", SESSION_TTL, "login")

  /** The login, with the teams its first answer states. */
  ghost function Row(): Login {
    Login("user", "", "rt0", GroupTeams(PLAIN, ["a"]), 0, 0, QUARTER)
  }

  ghost predicate Here(s: State) {
    && s.sessions == map["session" := SESSION] && s.logins == map["login" := Row()] && "user" in s.users
  }

  lemma LogsIn() returns (t: State)
    ensures RunsTo(t, 0) && Here(t) && t == State(t.users, t.sessions, t.logins, map[], map[], map[], map[], map[], {"login", "session"})
  {
    assert OidcExchange(PLAIN, AT_LOGIN, true).Some?;
    StartIsReached();
    t := Follow(EMPTY, 0, LoginEvent(0, AT_LOGIN, true, "login", "session"));
  }

  /** The client's document is accepted, and served from memory for an hour. */
  ghost predicate Served(s: State) {
    CLIENT in s.cache && s.cache[CLIENT] == CacheEntry(Client("client", [BACK], 0), DEFAULT_TTL)
  }

  lemma DocumentAccepted()
    ensures MayBeClient(PLAIN, CLIENT) && DocumentOk(CLIENT, META) && Ttl([]) == DEFAULT_TTL
  {
    assert IsLoopback(BACK) && ValidRedirect(BACK);
  }

  lemma NameStays()
    ensures Text.Trim("client", Text.IsSpace) == "client"
  {
    Text.TightIsFixed("client", Text.IsSpace);
  }

  lemma BeginStep(s: State)
    requires Here(s) && s.clients == map[] && s.cache == map[] && s.requests == map[]
    ensures var t := BeginAuthz(PLAIN, s, ASK, 0, META, "request").0;
            && Here(t) && Served(t) && t.requests == map["request" := SHOWN.(session := "")]
            && t.codes == s.codes && t.tokens == s.tokens && t.issued == s.issued + {"request"}
  {
    DocumentAccepted();
    NameStays();
    assert SourceOf(PLAIN, s.clients, s.cache, CLIENT, 0, META) == Fetched(Client("client", [BACK], 0), DEFAULT_TTL);
    assert Allowed([BACK], BACK);
  }

  lemma Begins(s: State) returns (t: State)
    requires RunsTo(s, 0) && Here(s) && s.clients == map[] && s.cache == map[] && s.requests == map[] && Unused(s, "request")
    ensures RunsTo(t, 0) && Here(t) && Served(t) && t.requests == map["request" := SHOWN.(session := "")]
    ensures t.codes == s.codes && t.tokens == s.tokens && t.issued == s.issued + {"request"}
  {
    BeginStep(s);
    t := Follow(s, 0, BeginEvent(0, ASK, META, "request"));
  }

  /** At the beginning the session lets in without asking the provider. */
  lemma LetsIn(s: State, reply: TokenReply)
    requires Here(s)
    ensures ResolveSession(PLAIN, s, "session", 0, reply) == (s, Someone("user", s.users["user"], Row().teams, "login"))
    ensures FreshLogin(PLAIN, s, "login", 0, reply) == (s, Alive(Row()))
  {
    assert !RefreshDue(Row(), 0);
  }

  const SHOWN := Request(CLIENT, BACK, "", "", "secret", "S256", REQUEST_TTL, "session")

  /** The document is still in memory. */
  lemma Remembered(s: State)
    requires Served(s)
    ensures ResolveClient(PLAIN, s, CLIENT, 0, META) == (s, Some(Client("client", [BACK], 0)))
  {
    DocumentAccepted();
    assert SourceOf(PLAIN, s.clients, s.cache, CLIENT, 0, META) == FromMemory(Client("client", [BACK], 0));
  }

  lemma ShowStep(s: State)
    requires Here(s) && Served(s) && s.requests == map["request" := SHOWN.(session := "")]
    ensures ShowConsent(PLAIN, s, "request", "session", 0, AT_LOGIN, META).0 == s.(requests := map["request" := SHOWN])
  {
    LetsIn(s, AT_LOGIN);
    var t := s.(requests := s.requests["request" := SHOWN]);
    assert t.requests == map["request" := SHOWN];
    Remembered(t);
  }

  lemma Shows(s: State) returns (t: State)
    requires RunsTo(s, 0) && Here(s) && Served(s) && s.requests == map["request" := SHOWN.(session := "")]
    ensures RunsTo(t, 0) && t == s.(requests := map["request" := SHOWN])
  {
    ShowStep(s);
    t := Follow(s, 0, ShowEvent(0, "request", "session", AT_LOGIN, META));
  }

  const MADE := Code(CLIENT, "user", BACK, "secret", "S256", "", CODE_TTL, false, "login")

  lemma ApproveStep(s: State)
    requires Here(s) && s.requests == map["request" := SHOWN]
    ensures Approve(PLAIN, s, "request", "session", 0, AT_LOGIN, "code").0 ==
            s.(requests := s.requests - {"request"}, codes := s.codes["code" := MADE], issued := s.issued + {"code"})
  {
    LetsIn(s, AT_LOGIN);
  }

  lemma Approves(s: State) returns (t: State)
    requires RunsTo(s, 0) && Here(s) && Served(s) && s.requests == map["request" := SHOWN] && Unused(s, "code")
    ensures RunsTo(t, 0) && Here(t) && Served(t) && t.codes == s.codes["code" := MADE] && t.tokens == s.tokens
    ensures t.issued == s.issued + {"code"}
  {
    ApproveStep(s);
    t := Follow(s, 0, ApproveEvent(0, "request", "session", AT_LOGIN, "code"));
  }

  const OLD_REFRESH := Token(Refresh, CLIENT, "user", "", REFRESH_TTL, false, "login")

  lemma RedeemStep(s: State)
    requires Here(s) && Served(s) && s.codes == map["code" := MADE] && s.tokens == map[]
    ensures var t := ExchangeCode(PLAIN, s, CODE, 0, META, AT_LOGIN, "at1", "rt1").0;
            && Here(t) && t.issued == s.issued + {"at1", "rt1"}
            && t.tokens == map["at1" := Token(Access, CLIENT, "user", "", ACCESS_TTL, false, "login"), "rt1" := OLD_REFRESH]
  {
    Remembered(s);
    assert CodeError(PLAIN, s, CODE, 0).None?;
    var u := UseCode(s, "code");
    LetsIn(u, AT_LOGIN);
    var t := MintTokens(u, CLIENT, "user", "", "login", 0, "at1", "rt1").0;
    assert ExchangeCode(PLAIN, s, CODE, 0, META, AT_LOGIN, "at1", "rt1").0 == t;
    assert t.tokens == map["at1" := Token(Access, CLIENT, "user", "", ACCESS_TTL, false, "login"), "rt1" := OLD_REFRESH];
  }

  lemma Redeems(s: State) returns (t: State)
    requires RunsTo(s, 0) && Here(s) && Served(s) && s.codes == map["code" := MADE] && s.tokens == map[]
    requires Unused(s, "at1") && Unused(s, "rt1")
    ensures RunsTo(t, 0) && Here(t) && t.issued == s.issued + {"at1", "rt1"}
    ensures t.tokens.Keys == {"at1", "rt1"} && t.tokens["rt1"] == OLD_REFRESH
  {
    RedeemStep(s);
    t := Follow(s, 0, RedeemEvent(0, CODE, META, AT_LOGIN, "at1", "rt1"));
  }

  ghost function LaterRow(): Login {
    Login("user", "", "rt1", GroupTeams(PLAIN, ["b"]), LATER, 0, LATER + QUARTER)
  }

  lemma Refreshes(s: State)
    requires Here(s)
    ensures var (t, r) := FreshLogin(PLAIN, s, "login", LATER, RENEWED);
            && r == Alive(LaterRow()) && t.logins == map["login" := LaterRow()] && "user" in t.users
            && t == s.(logins := t.logins, users := t.users)
  {
    assert RefreshDue(Row(), LATER);
    assert OidcRefresh(PLAIN, RENEWED, "rt0", "user").Accepted?;
  }

  const NEW_ACCESS := Token(Access, CLIENT, "user", "", LATER + ACCESS_TTL, false, "login")

  lemma RenewStep(s: State)
    requires Here(s) && s.tokens.Keys == {"at1", "rt1"} && s.tokens["rt1"] == OLD_REFRESH
    ensures var t := RenewToken(PLAIN, s, CLIENT, "rt1", LATER, RENEWED, "at2", "rt2").0;
            && t.sessions == s.sessions && t.logins == map["login" := LaterRow()]
            && "at2" in t.tokens && t.tokens["at2"] == NEW_ACCESS
  {
    Refreshes(s);
    assert RefreshTokenOk(s, CLIENT, "rt1", LATER);
    var u := FreshLogin(PLAIN, s, "login", LATER, RENEWED).0;
    assert RenewToken(PLAIN, s, CLIENT, "rt1", LATER, RENEWED, "at2", "rt2").0
        == MintTokens(RevokeToken(u, "rt1"), CLIENT, "user", "", "login", LATER, "at2", "rt2").0;
  }

  /** A week later the document is fetched again. */
  lemma FetchedAgain(s: State)
    ensures var (t, c) := ResolveClient(PLAIN, s, CLIENT, LATER, META);
            c.Some? && t == s.(cache := t.cache, clients := t.clients)
  {
    DocumentAccepted();
    ResolveClientFrame(PLAIN, s, CLIENT, LATER, META);
  }

  lemma Renews(s: State) returns (t: State)
    requires RunsTo(s, 0) && Here(s) && s.tokens.Keys == {"at1", "rt1"} && s.tokens["rt1"] == OLD_REFRESH
    requires Unused(s, "at2") && Unused(s, "rt2")
    ensures RunsTo(t, LATER) && t.sessions == map["session" := SESSION] && t.logins == map["login" := LaterRow()]
    ensures "at2" in t.tokens && t.tokens["at2"] == NEW_ACCESS
  {
    FetchedAgain(s);
    RenewStep(ResolveClient(PLAIN, s, CLIENT, LATER, META).0);
    t := Follow(s, 0, RenewEvent(LATER, CLIENT, "rt1", META, RENEWED, "at2", "rt2"));
  }

  lemma FreeIds()
    ensures "request" !in {"login", "session"} && "code" !in {"login", "session", "request"}
    ensures "at1" !in {"login", "session", "request", "code"} && "rt1" !in {"login", "session", "request", "code"}
  {
  }

  lemma LaterIds()
    ensures "at2" !in {"login", "session", "request", "code", "at1", "rt1"} && "rt2" !in {"login", "session", "request", "code", "at1", "rt1"}
  {
  }

  lemma FirstDay() returns (t: State)
    ensures RunsTo(t, 0) && Here(t) && Served(t) && t.codes == map["code" := MADE] && t.tokens == map[]
    ensures t.issued == {"login", "session", "request", "code"}
  {
    FreeIds();
    t := LogsIn();
    t := Begins(t);
    t := Shows(t);
    t := Approves(t);
  }

  /** Signed in, connected, and renewed a week later. */
  lemma Week() returns (t: State)
    ensures RunsTo(t, LATER) && t.sessions == map["session" := SESSION] && t.logins == map["login" := LaterRow()]
    ensures "at2" in t.tokens && t.tokens["at2"] == NEW_ACCESS
  {
    FreeIds();
    LaterIds();
    t := FirstDay();
    t := Redeems(t);
    t := Renews(t);
  }

  /**
    At the end of that run a clean-up shows: after a logout with the session that expired a second before, the client's
    new access token is refused if nobody cleaned up, and accepted if someone did.
   */
  lemma LateLogoutHappens() returns (h: History)
    ensures Run(PLAIN, h)
    ensures var s := h.ss[|h.es|];
            && "session" in Dropped(s, LATER) && AccessTokenOk(s, "at2", LATER)
            && BearerContext(PLAIN, LogOut(s, "session"), "at2", LATER, Unreachable).1.Nobody?
            && BearerContext(PLAIN, LogOut(PurgeAuth(s, LATER), "session"), "at2", LATER, Unreachable).1.Someone?
  {
    var s := Week();
    h :| EndsIn(h, s, LATER);
    RunKeepsInv(PLAIN, h, |h.es|);
    var t := PurgeAuth(s, LATER);
    assert "at2" in t.tokens && t.tokens["at2"] == NEW_ACCESS;
    assert Referenced(t.sessions, t.tokens, t.codes, "login");
    PurgeIsSim(PLAIN, s, LATER);
    LateLogoutIsVisible(PLAIN, s, t, Dropped(s, LATER), LATER, "session", "at2", LATER, Unreachable);
  }
}
