/**
  Overlapping approvals and token exchanges (oauth.go). Each SELECT, UPDATE, INSERT and DELETE is a step of its own, with
  the steps of freshIdpSession and endIdpSessions in between. Nothing makes the check of a row and its use one step:
  the UPDATE of a code, the UPDATE of a refresh token and the DELETE of a request are unconditional.
 */
module Exchanges {
  import opened Tables
  import opened Oidc
  import opened Urls
  import opened Auth
  import opened OAuth
  import opened Threads

  /** How far a request has come. */
  datatype Stage =
    | Selected
    | Checking
    | Checked
    | Minting
    | HalfMinted(access: Id)
    | Minted(access: Id, refresh: Id)
    | Inserted(code: Id)
    | Sent(code: Id)
    | Stopped

  /** What a request is about: the row it found, and under which id. */
  datatype Errand =
    | Redeem(code: Id, row: Code)
    | Renew(token: Id, old_: Token)
    | Approval(request: Id, asked: Request, subject: string, login: Id)

  /** A request at the token endpoint or on the consent page; Denied if its SELECT found nothing it could use. */
  datatype Flow = Flow(errand: Errand, stage: Stage) | Denied

  datatype Joint = Joint(w: World, flows: map<Tid, Flow>)

  const START := Joint(IDLE, map[])

  /** One step. The requests of Threads take theirs as Sys; t names the request. */
  datatype Act =
    | Sys(e: Move)
    | SelectCode(t: Tid, input: CodeInput, now: int)
    | UseUp(t: Tid)
    | SelectToken(t: Tid, clientId: Url, token: Id, now: int)
    | Check(t: Tid)
    | GiveUp(t: Tid)
    | InsertAccess(t: Tid, key: Id, now: int)
    | InsertRefresh(t: Tid, key: Id, now: int)
    | SelectRequest(t: Tid, request: Id, session: Id, visit: Tid, now: int)
    | InsertCode(t: Tid, key: Id, now: int)
    | DropRequest(t: Tid)
    | OpenSession(key: Id, row: Session)
    | Ask(key: Id, asked: Request)
    | Show(request: Id, session: Id)
    | Drop(request: Id)
    | RevokeTokens(subject: string, clientId: Url)
    | DropCodes(subject: string, clientId: Url)
    | Sweep(table: Table, now: int)

  /** purgeAuth's other DELETEs. */
  datatype Table = SessionRows | TokenRows | CodeRows | RequestRows

  // ----- steps ---------------------------------------------------------------------------------

  function Write(j: Joint, db: State): Joint {
    j.(w := j.w.(db := db))
  }

  function Put(j: Joint, t: Tid, f: Flow): Joint {
    j.(flows := j.flows[t := f])
  }

  predicate In(j: Joint, t: Tid) {
    t in j.flows
  }

  predicate AtStage(j: Joint, t: Tid, stage: Stage) {
    t in j.flows && j.flows[t].Flow? && j.flows[t].stage == stage
  }

  function LoginOf(e: Errand): Id {
    match e
    case Redeem(_, row) => row.idp
    case Renew(_, old_) => old_.idp
    case Approval(_, _, _, login) => login
  }

  predicate Redeems(f: Flow) {
    f.Flow? && f.errand.Redeem?
  }

  predicate Renews(f: Flow) {
    f.Flow? && f.errand.Renew?
  }

  predicate Grants(f: Flow) {
    Redeems(f) || Renews(f)
  }

  predicate Approves(f: Flow) {
    f.Flow? && f.errand.Approval?
  }

  /** The SELECT of exchangeAuthorizationCode and its checks. */
  function DoSelectCode(cfg: Config, j: Joint, t: Tid, i: CodeInput, now: int): Joint {
    Put(j, t, if CodeError(cfg, j.w.db, i, now).None? then Flow(Redeem(i.code, j.w.db.codes[i.code]), Selected) else Denied)
  }

  function UsedUp(codes: map<Id, Code>, c: Id): map<Id, Code> {
    if c in codes then codes[c := codes[c].(used := true)] else codes
  }

  function DoUseUp(j: Joint, t: Tid): Joint
    requires In(j, t) && Redeems(j.flows[t])
  {
    Put(Write(j, j.w.db.(codes := UsedUp(j.w.db.codes, j.flows[t].errand.code))), t, j.flows[t].(stage := Checking))
  }

  /** The SELECT of exchangeRefreshToken and its checks. */
  function DoSelectToken(j: Joint, t: Tid, clientId: Url, token: Id, now: int): Joint {
    Put(j, t, if RefreshTokenOk(j.w.db, clientId, token, now) then Flow(Renew(token, j.w.db.tokens[token]), Checking) else Denied)
  }

  /** What checkIdpSessionForGrant found. */
  function DoCheck(j: Joint, t: Tid): Joint
    requires In(j, t) && Grants(j.flows[t]) && t in j.w.threads && j.w.threads[t].pc.Finished?
  {
    Put(j, t, j.flows[t].(stage := if !j.w.threads[t].pc.result.Alive? then Stopped else if Renews(j.flows[t]) then Checked else Minting))
  }

  function GivenUp(tokens: map<Id, Token>, k: Id): map<Id, Token> {
    if k in tokens then tokens[k := tokens[k].(revoked := true)] else tokens
  }

  function DoGiveUp(j: Joint, t: Tid): Joint
    requires In(j, t) && Renews(j.flows[t])
  {
    Put(Write(j, j.w.db.(tokens := GivenUp(j.w.db.tokens, j.flows[t].errand.token))), t, j.flows[t].(stage := Minting))
  }

  function NewToken(e: Errand, kind: TokenKind, now: int): Token
    requires e.Redeem? || e.Renew?
  {
    var expires := now + if kind == Access then ACCESS_TTL else REFRESH_TTL;
    match e
    case Redeem(_, row) => Token(kind, row.clientId, row.subject, row.scope, expires, false, row.idp)
    case Renew(_, old_) => Token(kind, old_.clientId, old_.subject, old_.scope, expires, false, old_.idp)
  }

  function DoInsert(j: Joint, t: Tid, key: Id, kind: TokenKind, now: int, stage: Stage): Joint
    requires In(j, t) && Grants(j.flows[t])
  {
    Put(Write(j, j.w.db.(tokens := j.w.db.tokens[key := NewToken(j.flows[t].errand, kind, now)], issued := j.w.db.issued + {key})),
        t, j.flows[t].(stage := stage))
  }

  /** What completeAuthz asks of a request. */
  predicate RequestFits(requests: map<Id, Request>, r: Id, session: Id, now: int) {
    r in requests && !(requests[r].expiresAt < now) && requests[r].session != "" && requests[r].session == session
  }

  /** The SELECT of completeAuthz, for a request that its session check let in through visit. */
  function DoSelectRequest(j: Joint, t: Tid, r: Id, session: Id, visit: Tid, now: int): Joint
    requires visit in j.w.threads && j.w.threads[visit].pc.Finished? && j.w.threads[visit].pc.result.Alive?
  {
    Put(j, t,
        if RequestFits(j.w.db.requests, r, session, now) then
          Flow(Approval(r, j.w.db.requests[r], j.w.threads[visit].pc.result.row.subject, j.w.threads[visit].id), Selected)
        else Denied)
  }

  function NewCode(e: Errand, now: int): Code
    requires e.Approval?
  {
    Code(e.asked.clientId, e.subject, e.asked.redirect, e.asked.challenge, e.asked.method_, e.asked.scope, now + CODE_TTL, false, e.login)
  }

  function DoInsertCode(j: Joint, t: Tid, key: Id, now: int): Joint
    requires In(j, t) && Approves(j.flows[t])
  {
    Put(Write(j, j.w.db.(codes := j.w.db.codes[key := NewCode(j.flows[t].errand, now)], issued := j.w.db.issued + {key})), t, j.flows[t].(stage := Inserted(key)))
  }

  function DoDropRequest(j: Joint, t: Tid): Joint
    requires In(j, t) && Approves(j.flows[t]) && j.flows[t].stage.Inserted?
  {
    Put(Write(j, j.w.db.(requests := j.w.db.requests - {j.flows[t].errand.request})), t, j.flows[t].(stage := Sent(j.flows[t].stage.code)))
  }

  function Without(db: State, table: Table, now: int): State {
    match table
    case SessionRows => db.(sessions := UnexpiredSessions(db.sessions, now))
    case TokenRows => db.(tokens := UnexpiredTokens(db.tokens, now))
    case CodeRows => db.(codes := UnexpiredCodes(db.codes, now))
    case RequestRows => db.(requests := UnexpiredRequests(db.requests, now))
  }

  /** Statements that stand alone. */
  function DoAlone(db: State, a: Act): State {
    match a
    case OpenSession(key, row) => db.(sessions := db.sessions[key := row], issued := db.issued + {key})
    case Ask(key, row) => db.(requests := db.requests[key := row], issued := db.issued + {key})
    case Show(r, sid) => if r in db.requests then db.(requests := db.requests[r := db.requests[r].(session := sid)]) else db
    case Drop(r) => db.(requests := db.requests - {r})
    case RevokeTokens(subject, clientId) => db.(tokens := TokensRevoked(db.tokens, subject, clientId))
    case DropCodes(subject, clientId) => db.(codes := CodesDropped(db.codes, subject, clientId))
    case Sweep(table, now) => Without(db, table, now)
    case _ => db
  }

  predicate CanBegin(j: Joint, t: Tid) {
    t !in j.flows && t !in j.w.threads
  }

  /** Where a can happen; a check of the login behind a grant runs under the grant's own name. */
  predicate Can(cfg: Config, j: Joint, a: Act) {
    match a
    case Sys(e) =>
      && Ready(j.w, e) && !e.Other?
      && (e.FirstLoad? && e.t in j.flows ==> AtStage(j, e.t, Checking) && e.id == LoginOf(j.flows[e.t].errand))
      && (e.SelectWhere? ==> e.t !in j.flows)
    case SelectCode(t, _, _) => CanBegin(j, t)
    case UseUp(t) => AtStage(j, t, Selected) && Redeems(j.flows[t])
    case SelectToken(t, _, _, _) => CanBegin(j, t)
    case Check(t) => AtStage(j, t, Checking) && t in j.w.threads && j.w.threads[t].pc.Finished? && Grants(j.flows[t])
    case GiveUp(t) => AtStage(j, t, Checked) && Renews(j.flows[t])
    case InsertAccess(t, _, _) => AtStage(j, t, Minting) && Grants(j.flows[t])
    case InsertRefresh(t, _, _) => t in j.flows && Grants(j.flows[t]) && j.flows[t].stage.HalfMinted?
    case SelectRequest(t, _, _, visit, _) =>
      CanBegin(j, t) && visit in j.w.threads && j.w.threads[visit].pc.Finished? && j.w.threads[visit].pc.result.Alive?
    case InsertCode(t, _, _) => AtStage(j, t, Selected) && Approves(j.flows[t])
    case DropRequest(t) => t in j.flows && Approves(j.flows[t]) && j.flows[t].stage.Inserted?
    case Ask(_, asked) => asked.session == ""
    case Drop(r) => r in j.w.db.issued
    case _ => true
  }

  /** And with ids that are fresh. */
  ghost predicate May(cfg: Config, j: Joint, a: Act) {
    && Can(cfg, j, a)
    && match a
       case Sys(e) => Enabled(cfg, j.w, e)
       case InsertAccess(_, key, _) => Unissued(j.w, key)
       case InsertRefresh(_, key, _) => Unissued(j.w, key)
       case InsertCode(_, key, _) => Unissued(j.w, key)
       case OpenSession(key, _) => Unissued(j.w, key)
       case Ask(key, _) => Unissued(j.w, key)
       case _ => true
  }

  function Do(cfg: Config, j: Joint, a: Act): Joint
    requires Can(cfg, j, a)
  {
    match a
    case Sys(e) => j.(w := Threads.Next(cfg, j.w, e))
    case SelectCode(t, i, now) => DoSelectCode(cfg, j, t, i, now)
    case UseUp(t) => DoUseUp(j, t)
    case SelectToken(t, clientId, token, now) => DoSelectToken(j, t, clientId, token, now)
    case Check(t) => DoCheck(j, t)
    case GiveUp(t) => DoGiveUp(j, t)
    case InsertAccess(t, key, now) => DoInsert(j, t, key, Access, now, HalfMinted(key))
    case InsertRefresh(t, key, now) => DoInsert(j, t, key, Refresh, now, Minted(j.flows[t].stage.access, key))
    case SelectRequest(t, r, sid, visit, now) => DoSelectRequest(j, t, r, sid, visit, now)
    case InsertCode(t, key, now) => DoInsertCode(j, t, key, now)
    case DropRequest(t) => DoDropRequest(j, t)
    case _ => Write(j, DoAlone(j.w.db, a))
  }

  datatype Story = Story(acts: seq<Act>, js: seq<Joint>)

  ghost predicate StoryAt(cfg: Config, s: Story, i: nat)
    requires i < |s.acts| && |s.js| == |s.acts| + 1
  {
    May(cfg, s.js[i], s.acts[i]) && s.js[i + 1] == Do(cfg, s.js[i], s.acts[i])
  }

  /** Any interleaving of all of it, from the start. */
  ghost predicate Happens(cfg: Config, s: Story) {
    && |s.js| == |s.acts| + 1
    && s.js[0] == START
    && forall i: nat :: i < |s.acts| ==> StoryAt(cfg, s, i)
  }

  // ----- the requests of Threads do not notice -------------------------------------------------------

  function MoveOf(cfg: Config, j: Joint, a: Act): Move
    requires Can(cfg, j, a)
  {
    if a.Sys? then a.e else Other(Do(cfg, j, a).w.db)
  }

  lemma OutsideStep(cfg: Config, j: Joint, a: Act)
    requires May(cfg, j, a) && !a.Sys?
    ensures var v := Do(cfg, j, a).w; v == j.w.(db := v.db) && v.db.logins == j.w.db.logins && j.w.db.issued <= v.db.issued
  {
    if Alone(a) {
      AloneStep(j.w.db, a);
    }
  }

  predicate Alone(a: Act) {
    a.OpenSession? || a.Ask? || a.Show? || a.Drop? || a.RevokeTokens? || a.DropCodes? || a.Sweep?
  }

  lemma SweepStep(db: State, table: Table, now: int)
    ensures Without(db, table, now).logins == db.logins && Without(db, table, now).issued == db.issued
  {
    match table {
      case SessionRows =>
      case TokenRows =>
      case CodeRows =>
      case RequestRows =>
    }
  }

  lemma AloneStep(db: State, a: Act)
    requires Alone(a)
    ensures DoAlone(db, a).logins == db.logins && db.issued <= DoAlone(db, a).issued
  {
    if a.Sweep? {
      SweepStep(db, a.table, a.now);
    } else if a.OpenSession? {
    } else if a.Ask? {
    } else if a.Show? {
    } else if a.Drop? {
    } else if a.RevokeTokens? {
    } else {
      assert a.DropCodes?;
    }
  }

  lemma StepIsMove(cfg: Config, j: Joint, a: Act)
    requires May(cfg, j, a)
    ensures Enabled(cfg, j.w, MoveOf(cfg, j, a)) && Do(cfg, j, a).w == Threads.Next(cfg, j.w, MoveOf(cfg, j, a))
  {
    if !a.Sys? {
      OutsideStep(cfg, j, a);
    }
  }

  ghost function MoveAt(cfg: Config, s: Story, i: nat): Move
    requires Happens(cfg, s) && i < |s.acts|
  {
    assert StoryAt(cfg, s, i);
    MoveOf(cfg, s.js[i], s.acts[i])
  }

  /** Every story is, to the requests of Threads, one of their interleavings, so all that is proved of those holds in it. */
  lemma StoryIsInterleaving(cfg: Config, s: Story) returns (r: Trace)
    requires Happens(cfg, s)
    ensures Interleaving(cfg, r) && |r.es| == |s.acts| && forall i :: 0 <= i < |s.js| ==> r.ws[i] == s.js[i].w
  {
    r := Trace(seq(|s.acts|, i requires 0 <= i < |s.acts| => MoveAt(cfg, s, i)), seq(|s.js|, i requires 0 <= i < |s.js| => s.js[i].w));
    forall i: nat | i < |r.es| ensures TraceAt(cfg, r, i) {
      assert StoryAt(cfg, s, i);
      StepIsMove(cfg, s.js[i], s.acts[i]);
    }
  }
}
