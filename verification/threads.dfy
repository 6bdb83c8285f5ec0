/**
  Requests that overlap. The database has no transactions: freshIdpSession and endIdpSessions run statement by statement,
  and only the mutexes in the map refreshLocks keep requests apart (auth.go). Here every statement, lock operation and
  provider call is a step of its own, and any request may take the next one. Statements of other kinds of requests may
  come between any two steps; they write whatever they like, except to idp_sessions.
 */
module Threads {
  import opened Tables
  import opened Oidc
  import opened Auth

  type Mutex = nat
  type Tid = nat

  /** Where a request stands in freshIdpSession, or in endIdpSessions. */
  datatype Pc =
    | WantLock
    | Waiting(m: Mutex)
    | Locked(m: Mutex)
    | Calling(m: Mutex, row: Login)
    | Replied(m: Mutex, row: Login, reply: TokenReply)
    | Answered(m: Mutex, row: Login, ident: Identity)
    | Saving(m: Mutex, row: Login, ident: Identity, named: bool)
    | Condemned(m: Mutex)
    | Deleting(under: Option<Mutex>, ids: seq<Id>, stage: nat)
    | Returning(m: Mutex, result: FreshResult)
    | Finished(result: FreshResult)

  /** id is the login it is about, "" when it only ends logins. */
  datatype Thread = Thread(id: Id, pc: Pc)

  /** The provider's side of a login: the refresh token it would accept next. */
  datatype Upstream = Upstream(current: string, alive: bool)

  /**
    locks is a.refreshLocks; held says who has locked which mutex; minted holds every refresh token the provider ever
    issued; lost the logins whose rotated token never reached the database.
   */
  datatype World = World(
    db: State, locks: map<Id, Mutex>, mutexes: nat, held: map<Mutex, Tid>, threads: map<Tid, Thread>,
    grants: map<Id, Upstream>, minted: set<string>, lost: set<Id>)

  const IDLE := World(EMPTY, map[], 0, map[], map[], map[], {}, {})

  datatype Move =
    | LoginStep(id: Id, ident: Identity, now: int)
    | FirstLoad(t: Tid, id: Id, now: int)
    | TakeMutex(t: Tid)
    | Lock(t: Tid)
    | SecondLoad(t: Tid, now: int)
    | Call(t: Tid, reply: TokenReply, hidden: string)
    | Conclude(t: Tid, ui: UserInfo)
    | Update(t: Tid, now: int)
    | SaveUser(t: Tid)
    | Unlock(t: Tid)
    | SelectOwn(t: Tid)
    | SelectWhere(t: Tid, which: Where, ids: seq<Id>)
    | Delete(t: Tid)
    | Force(which: Where)
    | PurgeStep(now: int)
    | Other(db: State)
    | Revoke(id: Id)

  // ----- steps -----------------------------------------------------------------------------

  function Go(w: World, t: Tid, pc: Pc): World
    requires t in w.threads
  {
    w.(threads := w.threads[t := w.threads[t].(pc := pc)])
  }

  predicate At(w: World, t: Tid) {
    t in w.threads
  }

  /** createIdpSession, after a login at the provider. */
  function DoLogin(cfg: Config, w: World, id: Id, i: Identity, now: int): World {
    var row := Login(i.subject, i.sid, i.refreshToken, i.teams, now, now, AccessExpiry(cfg, i.expiresIn, now));
    w.(db := w.db.(logins := w.db.logins[id := row], issued := w.db.issued + {id}),
       grants := w.grants[id := Upstream(i.refreshToken, true)], minted := w.minted + {i.refreshToken})
  }

  function DoFirstLoad(w: World, t: Tid, id: Id, now: int): World {
    var pc :=
      if id == "" || id !in w.db.logins then Finished(Ended)
      else if !RefreshDue(w.db.logins[id], now) then Finished(Alive(w.db.logins[id]))
      else WantLock;
    w.(threads := w.threads[t := Thread(id, pc)])
  }

  /** refreshLock: a mutex is made when the map has none. */
  function DoTakeMutex(w: World, t: Tid): World
    requires At(w, t)
  {
    var id := w.threads[t].id;
    if id in w.locks then Go(w, t, Waiting(w.locks[id]))
    else Go(w.(locks := w.locks[id := w.mutexes], mutexes := w.mutexes + 1), t, Waiting(w.mutexes))
  }

  function DoLock(w: World, t: Tid): World
    requires At(w, t) && w.threads[t].pc.Waiting?
  {
    var m := w.threads[t].pc.m;
    Go(w.(held := w.held[m := t]), t, Locked(m))
  }

  function DoSecondLoad(w: World, t: Tid, now: int): World
    requires At(w, t) && w.threads[t].pc.Locked?
  {
    var id, m := w.threads[t].id, w.threads[t].pc.m;
    Go(w, t,
       if id !in w.db.logins then Returning(m, Ended)
       else if !RefreshDue(w.db.logins[id], now) then Returning(m, Alive(w.db.logins[id]))
       else if w.db.logins[id].refreshToken == "" then Condemned(m)
       else Calling(m, w.db.logins[id]))
  }

  /** A provider that rotates answers a live, current token only; hidden is a rotation whose answer got lost on the way. */
  predicate ProviderMay(w: World, g: Upstream, presented: string, reply: TokenReply, hidden: string) {
    if presented == g.current && g.alive then
      && (reply.Tokens? ==> reply.refreshToken !in w.minted - {""})
      && (hidden != "" ==> reply.Unreachable? && hidden !in w.minted)
    else !reply.Tokens? && hidden == ""
  }

  function Rotated(reply: TokenReply, hidden: string): string {
    if reply.Tokens? then reply.refreshToken else hidden
  }

  /** A token that is not the current one is a reuse, and kills the grant. */
  function GrantAfter(g: Upstream, presented: string, rotated: string): Upstream {
    if presented != g.current then g.(alive := false)
    else if rotated != "" then g.(current := rotated)
    else g
  }

  function AfterVerdict(cfg: Config, m: Mutex, row: Login, v: Verdict): Pc {
    match v
    case Rejected => Condemned(m)
    case Transient => Returning(m, Unavailable)
    case Accepted(ident) => if LacksTeam(cfg, ident.teams) then Condemned(m) else Answered(m, row, ident)
  }

  /** The token endpoint. An answer that got lost on the way may have rotated the token all the same. */
  function DoCall(w: World, t: Tid, reply: TokenReply, hidden: string): World
    requires At(w, t) && w.threads[t].pc.Calling? && w.threads[t].id in w.grants
  {
    var id, m, row := w.threads[t].id, w.threads[t].pc.m, w.threads[t].pc.row;
    var rotated := Rotated(reply, hidden);
    Go(w.(grants := w.grants[id := GrantAfter(w.grants[id], row.refreshToken, rotated)], minted := w.minted + {rotated},
          lost := if hidden != "" then w.lost + {id} else w.lost),
       t, Replied(m, row, reply))
  }

  /** The token answer together with what the userinfo endpoint says, if it is asked. */
  function Complete(reply: TokenReply, ui: UserInfo): TokenReply {
    if reply.Tokens? then reply.(userInfo := ui) else reply
  }

  /** The rest of oidcRefresh: the ID token, then the userinfo endpoint. A rotated token is lost if this fails for now. */
  function DoConclude(cfg: Config, w: World, t: Tid, ui: UserInfo): World
    requires At(w, t) && w.threads[t].pc.Replied?
  {
    var id, pc := w.threads[t].id, w.threads[t].pc;
    var v := OidcRefresh(cfg, Complete(pc.reply, ui), pc.row.refreshToken, pc.row.subject);
    Go(w.(lost := if Rotates(pc.reply) && v.Transient? then w.lost + {id} else w.lost), t, AfterVerdict(cfg, pc.m, pc.row, v))
  }

  predicate Rotates(reply: TokenReply) {
    reply.Tokens? && reply.refreshToken != ""
  }

  /** The UPDATE touches no row when the login is gone. */
  function WithUpdate(logins: map<Id, Login>, id: Id, next: Login): map<Id, Login> {
    if id in logins then
      logins[id := logins[id].(refreshToken := next.refreshToken, sid := next.sid, teams := next.teams,
                               refreshedAt := next.refreshedAt, accessExpiresAt := next.accessExpiresAt)]
    else logins
  }

  function DoUpdate(cfg: Config, w: World, t: Tid, now: int): World
    requires At(w, t) && w.threads[t].pc.Answered?
  {
    var id, pc := w.threads[t].id, w.threads[t].pc;
    var next := Refreshed(cfg, pc.row, pc.ident, now);
    Go(w.(db := w.db.(logins := WithUpdate(w.db.logins, id, next))), t, Saving(pc.m, next, pc.ident, false))
  }

  /** upsertUser, then setUserEmail. */
  function DoSaveUser(w: World, t: Tid): World
    requires At(w, t) && w.threads[t].pc.Saving?
  {
    var pc := w.threads[t].pc;
    var subject := pc.row.subject;
    if !pc.named then
      var users := if pc.ident.name != "" then UpsertUser(w.db.users, subject, pc.ident.name, pc.ident.name) else w.db.users;
      Go(w.(db := w.db.(users := users)), t, pc.(named := true))
    else Go(w.(db := w.db.(users := SetEmail(w.db.users, subject, pc.ident.email))), t, Returning(pc.m, Alive(pc.row)))
  }

  function DoUnlock(w: World, t: Tid): World
    requires At(w, t) && w.threads[t].pc.Returning?
  {
    Go(w.(held := w.held - {w.threads[t].pc.m}), t, Finished(w.threads[t].pc.result))
  }

  /** endIdpSessions on the request's own login: its SELECT. */
  function DoSelectOwn(w: World, t: Tid): World
    requires At(w, t) && w.threads[t].pc.Condemned?
  {
    var id, m := w.threads[t].id, w.threads[t].pc.m;
    Go(w, t, if id in w.db.logins then Deleting(Some(m), [id], 0) else Returning(m, Ended))
  }

  function DoSelectWhere(w: World, t: Tid, ids: seq<Id>): World {
    w.(threads := w.threads[t := Thread("", if ids == [] then Finished(Ended) else Deleting(None, ids, 0))])
  }

  function WithoutLogin(db: State, id: Id, stage: nat): State {
    if stage == 0 then db.(sessions := SessionsWithout(db.sessions, {id}))
    else if stage == 1 then db.(tokens := TokensWithout(db.tokens, {id}))
    else if stage == 2 then db.(codes := CodesWithout(db.codes, {id}))
    else if stage == 3 then db.(logins := db.logins - {id})
    else db
  }

  function AfterDelete(pc: Pc): Pc
    requires pc.Deleting? && pc.ids != []
  {
    if pc.stage < 4 then pc.(stage := pc.stage + 1)
    else if |pc.ids| > 1 then pc.(ids := pc.ids[1..], stage := 0)
    else if pc.under.Some? then Returning(pc.under.value, Ended)
    else Finished(Ended)
  }

  /** The next of the four DELETEs for one login; the last stage drops its lock. */
  function DoDelete(w: World, t: Tid): World
    requires At(w, t) && w.threads[t].pc.Deleting? && w.threads[t].pc.ids != []
  {
    var pc := w.threads[t].pc;
    var id := pc.ids[0];
    Go(w.(db := WithoutLogin(w.db, id, pc.stage), locks := if pc.stage < 4 then w.locks else w.locks - {id}), t, AfterDelete(pc))
  }

  function DoRevoke(w: World, id: Id): World {
    if id in w.grants then w.(grants := w.grants[id := w.grants[id].(alive := false)]) else w
  }

  // ----- runs ------------------------------------------------------------------------------------

  ghost predicate Unissued(w: World, id: Id) {
    id != "" && id !in w.db.issued
  }

  /** The request e.t is where e can happen. */
  predicate Ready(w: World, e: Move) {
    match e
    case TakeMutex(t) => At(w, t) && w.threads[t].pc.WantLock?
    case Lock(t) => At(w, t) && w.threads[t].pc.Waiting? && w.threads[t].pc.m !in w.held
    case SecondLoad(t, _) => At(w, t) && w.threads[t].pc.Locked?
    case Call(t, _, _) => At(w, t) && w.threads[t].pc.Calling? && w.threads[t].id in w.grants
    case Conclude(t, _) => At(w, t) && w.threads[t].pc.Replied?
    case Update(t, _) => At(w, t) && w.threads[t].pc.Answered?
    case SaveUser(t) => At(w, t) && w.threads[t].pc.Saving?
    case Unlock(t) => At(w, t) && w.threads[t].pc.Returning?
    case SelectOwn(t) => At(w, t) && w.threads[t].pc.Condemned?
    case Delete(t) => At(w, t) && w.threads[t].pc.Deleting? && w.threads[t].pc.ids != []
    case _ => true
  }

  ghost predicate Enabled(cfg: Config, w: World, e: Move) {
    && Ready(w, e)
    && match e
       case LoginStep(id, ident, now) => 0 <= now && Unissued(w, id) && !LacksTeam(cfg, ident.teams) && ident.refreshToken !in w.minted - {""}
       case FirstLoad(t, _, now) => !At(w, t) && 0 <= now
       case SecondLoad(t, now) => 0 <= now
       case Call(t, reply, hidden) => ProviderMay(w, w.grants[w.threads[t].id], w.threads[t].pc.row.refreshToken, reply, hidden)
       case Conclude(t, ui) => w.threads[t].pc.reply.Tokens? ==> (ui.NoEndpoint? <==> w.threads[t].pc.reply.userInfo.NoEndpoint?)
       case Update(_, now) => 0 <= now
       case SelectWhere(t, which, ids) => !At(w, t) && (set i | i in ids) == Selected(w.db, which)
       case Other(db) => db.logins == w.db.logins && w.db.issued <= db.issued
       case _ => true
  }

  function Next(cfg: Config, w: World, e: Move): World
    requires Ready(w, e)
  {
    match e
    case LoginStep(id, ident, now) => DoLogin(cfg, w, id, ident, now)
    case FirstLoad(t, id, now) => DoFirstLoad(w, t, id, now)
    case TakeMutex(t) => DoTakeMutex(w, t)
    case Lock(t) => DoLock(w, t)
    case SecondLoad(t, now) => DoSecondLoad(w, t, now)
    case Call(t, reply, hidden) => DoCall(w, t, reply, hidden)
    case Conclude(t, ui) => DoConclude(cfg, w, t, ui)
    case Update(t, now) => DoUpdate(cfg, w, t, now)
    case SaveUser(t) => DoSaveUser(w, t)
    case Unlock(t) => DoUnlock(w, t)
    case SelectOwn(t) => DoSelectOwn(w, t)
    case SelectWhere(t, _, ids) => DoSelectWhere(w, t, ids)
    case Delete(t) => DoDelete(w, t)
    case Force(which) => w.(db := ForceRefresh(w.db, which))
    case PurgeStep(now) => w.(db := PurgeLogins(w.db, now))
    case Other(db) => w.(db := db)
    case Revoke(id) => DoRevoke(w, id)
  }

  datatype Trace = Trace(es: seq<Move>, ws: seq<World>)

  ghost predicate TraceAt(cfg: Config, r: Trace, i: nat)
    requires i < |r.es| && |r.ws| == |r.es| + 1
  {
    Enabled(cfg, r.ws[i], r.es[i]) && r.ws[i + 1] == Next(cfg, r.ws[i], r.es[i])
  }

  /** Any interleaving whatever. */
  ghost predicate Interleaving(cfg: Config, r: Trace) {
    && |r.ws| == |r.es| + 1
    && r.ws[0] == IDLE
    && forall i: nat :: i < |r.es| ==> TraceAt(cfg, r, i)
  }

  // ----- invariants ----------------------------------------------------------------------------------

  function MutexOf(pc: Pc): Option<Mutex> {
    match pc
    case WantLock => None
    case Waiting(m) => Some(m)
    case Locked(m) => Some(m)
    case Calling(m, _) => Some(m)
    case Replied(m, _, _) => Some(m)
    case Answered(m, _, _) => Some(m)
    case Saving(m, _, _, _) => Some(m)
    case Condemned(m) => Some(m)
    case Deleting(under, _, _) => under
    case Returning(m, _) => Some(m)
    case Finished(_) => None
  }

  predicate Busy(pc: Pc) {
    pc.Calling? || pc.Replied? || pc.Answered?
  }

  /** The answer of the provider is in, and not yet in the database. */
  predicate Owes(pc: Pc) {
    (pc.Replied? && Rotates(pc.reply)) || pc.Answered? || pc.Condemned? || (pc.Deleting? && pc.under.Some?)
  }

  /** While a login exists, every request that has a mutex for it has the one in the map. */
  ghost predicate LocksAgree(logins: map<Id, Login>, locks: map<Id, Mutex>, threads: map<Tid, Thread>) {
    forall t :: t in threads && threads[t].id in logins && MutexOf(threads[t].pc).Some? ==>
                  threads[t].id in locks && locks[threads[t].id] == MutexOf(threads[t].pc).value
  }

  /** Whoever is past Lock holds its mutex. */
  ghost predicate Holding(held: map<Mutex, Tid>, threads: map<Tid, Thread>) {
    forall t :: t in threads && MutexOf(threads[t].pc).Some? && !threads[t].pc.Waiting? ==>
                  MutexOf(threads[t].pc).value in held && held[MutexOf(threads[t].pc).value] == t
  }

  /** Requests at the provider for one login share one mutex, even when the login is gone already. */
  ghost predicate OneMutex(threads: map<Tid, Thread>) {
    forall t, u :: t in threads && u in threads && threads[t].id == threads[u].id && Busy(threads[t].pc) && Busy(threads[u].pc) ==>
                     threads[t].pc.m == threads[u].pc.m
  }

  ghost predicate PcOk(issued: set<Id>, logins: map<Id, Login>, th: Thread) {
    && (!th.pc.Finished? && !(th.pc.Deleting? && th.pc.under.None?) ==> th.id in issued)
    && (th.pc.Deleting? ==>
          && th.pc.ids != [] && th.pc.stage <= 4 && (forall i :: i in th.pc.ids ==> i in issued)
          && (th.pc.under.Some? ==> th.pc.ids == [th.id])
          && (th.pc.stage == 4 ==> th.pc.ids[0] !in logins))
  }

  ghost predicate PcsOk(issued: set<Id>, logins: map<Id, Login>, threads: map<Tid, Thread>) {
    forall t :: t in threads ==> PcOk(issued, logins, threads[t])
  }

  ghost predicate Exclusive(w: World) {
    && LocksAgree(w.db.logins, w.locks, w.threads)
    && Holding(w.held, w.threads)
    && OneMutex(w.threads)
    && PcsOk(w.db.issued, w.db.logins, w.threads)
    && w.db.logins.Keys <= w.db.issued
  }

  lemma LoginExclusive(cfg: Config, w: World, id: Id, i: Identity, now: int)
    requires Exclusive(w) && Unissued(w, id)
    ensures Exclusive(DoLogin(cfg, w, id, i, now))
  {
  }

  lemma FirstLoadExclusive(w: World, t: Tid, id: Id, now: int)
    requires Exclusive(w) && !At(w, t)
    ensures Exclusive(DoFirstLoad(w, t, id, now))
  {
  }

  lemma TakeMutexExclusive(w: World, t: Tid)
    requires Exclusive(w) && At(w, t) && w.threads[t].pc.WantLock?
    ensures Exclusive(DoTakeMutex(w, t))
  {
  }

  lemma LockExclusive(w: World, t: Tid)
    requires Exclusive(w) && At(w, t) && w.threads[t].pc.Waiting? && w.threads[t].pc.m !in w.held
    ensures Exclusive(DoLock(w, t))
  {
  }

  lemma SecondLoadExclusive(w: World, t: Tid, now: int)
    requires Exclusive(w) && At(w, t) && w.threads[t].pc.Locked?
    ensures Exclusive(DoSecondLoad(w, t, now))
  {
  }

  lemma CallExclusive(w: World, t: Tid, reply: TokenReply, hidden: string)
    requires Exclusive(w) && At(w, t) && w.threads[t].pc.Calling? && w.threads[t].id in w.grants
    ensures Exclusive(DoCall(w, t, reply, hidden))
  {
  }

  lemma ConcludeExclusive(cfg: Config, w: World, t: Tid, ui: UserInfo)
    requires Exclusive(w) && At(w, t) && w.threads[t].pc.Replied?
    ensures Exclusive(DoConclude(cfg, w, t, ui))
  {
  }

  lemma UpdateExclusive(cfg: Config, w: World, t: Tid, now: int)
    requires Exclusive(w) && At(w, t) && w.threads[t].pc.Answered?
    ensures Exclusive(DoUpdate(cfg, w, t, now))
  {
  }

  lemma UnlockExclusive(w: World, t: Tid)
    requires Exclusive(w) && At(w, t) && w.threads[t].pc.Returning?
    ensures Exclusive(DoUnlock(w, t))
  {
  }

  lemma WithoutLoginFrame(db: State, id: Id, stage: nat)
    ensures var d := WithoutLogin(db, id, stage);
            && d.issued == db.issued && d.users == db.users
            && (stage == 3 ==> d.logins == db.logins - {id}) && (stage != 3 ==> d.logins == db.logins)
  {
    if stage == 0 {
    } else if stage == 1 {
    } else if stage == 2 {
    } else if stage == 3 {
    }
  }

  /** What a DELETE may take away. */
  lemma DeleteFrame(w: World, t: Tid)
    requires At(w, t) && w.threads[t].pc.Deleting? && w.threads[t].pc.ids != []
    ensures var (v, pc) := (DoDelete(w, t), w.threads[t].pc);
            && v.db.issued == w.db.issued && v.db.logins == (if pc.stage == 3 then w.db.logins - {pc.ids[0]} else w.db.logins)
            && v.locks == (if pc.stage < 4 then w.locks else w.locks - {pc.ids[0]})
            && v.threads == w.threads[t := w.threads[t].(pc := AfterDelete(pc))]
            && v == w.(db := v.db, locks := v.locks, threads := v.threads)
  {
    WithoutLoginFrame(w.db, w.threads[t].pc.ids[0], w.threads[t].pc.stage);
  }

  lemma DeleteLocks(w: World, t: Tid)
    requires Exclusive(w) && At(w, t) && w.threads[t].pc.Deleting? && w.threads[t].pc.ids != []
    ensures var v := DoDelete(w, t); LocksAgree(v.db.logins, v.locks, v.threads)
  {
    DeleteFrame(w, t);
    var v := DoDelete(w, t);
    assert PcOk(w.db.issued, w.db.logins, w.threads[t]);
    forall u | u in v.threads && v.threads[u].id in v.db.logins && MutexOf(v.threads[u].pc).Some?
      ensures v.threads[u].id in v.locks && v.locks[v.threads[u].id] == MutexOf(v.threads[u].pc).value
    {
      assert MutexOf(v.threads[u].pc) == MutexOf(w.threads[u].pc);
    }
  }

  lemma AfterDeleteOk(issued: set<Id>, logins: map<Id, Login>, th: Thread)
    requires th.pc.Deleting? && th.pc.ids != [] && PcOk(issued, logins, th) && (th.pc.stage == 3 ==> th.pc.ids[0] !in logins)
    ensures PcOk(issued, logins, th.(pc := AfterDelete(th.pc)))
  {
  }

  lemma DeletePcs(w: World, t: Tid)
    requires Exclusive(w) && At(w, t) && w.threads[t].pc.Deleting? && w.threads[t].pc.ids != []
    ensures var v := DoDelete(w, t); PcsOk(v.db.issued, v.db.logins, v.threads) && v.db.logins.Keys <= v.db.issued
  {
    DeleteFrame(w, t);
    var v := DoDelete(w, t);
    forall u | u in v.threads ensures PcOk(v.db.issued, v.db.logins, v.threads[u]) {
      assert PcOk(w.db.issued, w.db.logins, w.threads[u]);
      assert PcOk(v.db.issued, v.db.logins, w.threads[u]);
      if u == t {
        AfterDeleteOk(v.db.issued, v.db.logins, w.threads[t]);
      }
    }
  }

  lemma DeleteHolding(w: World, t: Tid)
    requires Exclusive(w) && At(w, t) && w.threads[t].pc.Deleting? && w.threads[t].pc.ids != []
    ensures var v := DoDelete(w, t); Holding(v.held, v.threads) && OneMutex(v.threads)
  {
  }

  lemma SelectExclusive(w: World, t: Tid, which: Where, ids: seq<Id>)
    requires Exclusive(w) && !At(w, t) && (set i | i in ids) == Selected(w.db, which)
    ensures Exclusive(DoSelectWhere(w, t, ids))
  {
    forall i | i in ids ensures i in w.db.issued {
      assert i in Selected(w.db, which);
    }
  }

  lemma SaveUserExclusive(w: World, t: Tid)
    requires Exclusive(w) && At(w, t) && w.threads[t].pc.Saving?
    ensures Exclusive(DoSaveUser(w, t))
  {
    if w.threads[t].pc.named {
    } else {
    }
  }

  lemma SelectOwnExclusive(w: World, t: Tid)
    requires Exclusive(w) && At(w, t) && w.threads[t].pc.Condemned?
    ensures Exclusive(DoSelectOwn(w, t))
  {
  }

  /** Statements of requests that are not in freshIdpSession touch no lock. */
  lemma OutsideExclusive(cfg: Config, w: World, e: Move)
    requires Exclusive(w) && Enabled(cfg, w, e) && (e.Force? || e.PurgeStep? || e.Other? || e.Revoke?)
    ensures Exclusive(Next(cfg, w, e))
  {
    var v := Next(cfg, w, e);
    assert v.db.logins.Keys <= w.db.logins.Keys && v.db.issued >= w.db.issued && v.threads == w.threads && v.locks == w.locks;
    forall u | u in v.threads ensures PcOk(v.db.issued, v.db.logins, v.threads[u]) {
      assert PcOk(w.db.issued, w.db.logins, w.threads[u]);
    }
  }

  predicate TakesMutex(e: Move) {
    e.TakeMutex? || e.Lock? || e.SecondLoad? || e.Call? || e.Conclude? || e.Update? || e.SaveUser? || e.Unlock?
  }

  lemma RefreshExclusive(cfg: Config, w: World, e: Move)
    requires Exclusive(w) && Ready(w, e) && TakesMutex(e)
    ensures Exclusive(Next(cfg, w, e))
  {
    if e.TakeMutex? {
      TakeMutexExclusive(w, e.t);
    } else if e.Lock? {
      LockExclusive(w, e.t);
    } else if e.SecondLoad? {
      SecondLoadExclusive(w, e.t, e.now);
    } else if e.Call? {
      CallExclusive(w, e.t, e.reply, e.hidden);
    } else if e.Conclude? {
      ConcludeExclusive(cfg, w, e.t, e.ui);
    } else if e.Update? {
      UpdateExclusive(cfg, w, e.t, e.now);
    } else if e.SaveUser? {
      SaveUserExclusive(w, e.t);
    } else {
      UnlockExclusive(w, e.t);
    }
  }

  lemma ExclusiveKept(cfg: Config, w: World, e: Move)
    requires Exclusive(w) && Enabled(cfg, w, e)
    ensures Exclusive(Next(cfg, w, e))
  {
    if TakesMutex(e) {
      RefreshExclusive(cfg, w, e);
    } else if e.LoginStep? {
      LoginExclusive(cfg, w, e.id, e.ident, e.now);
    } else if e.FirstLoad? {
      FirstLoadExclusive(w, e.t, e.id, e.now);
    } else if e.SelectOwn? {
      SelectOwnExclusive(w, e.t);
    } else if e.SelectWhere? {
      SelectExclusive(w, e.t, e.which, e.ids);
    } else if e.Delete? {
      DeleteLocks(w, e.t);
      DeletePcs(w, e.t);
      DeleteHolding(w, e.t);
    } else {
      OutsideExclusive(cfg, w, e);
    }
  }

  /** At most one request at a time is at the provider for a login, however locks come and go. */
  lemma OneAtTheProvider(w: World, t: Tid, u: Tid)
    requires Exclusive(w) && At(w, t) && At(w, u) && w.threads[t].id == w.threads[u].id
    requires Busy(w.threads[t].pc) && Busy(w.threads[u].pc)
    ensures t == u
  {
    assert w.held[w.threads[t].pc.m] == t && w.held[w.threads[u].pc.m] == u;
  }

  // ----- refresh tokens ------------------------------------------------------------------------------

  /** The holder of the login's mutex has the provider's answer in hand. */
  ghost predicate Owed(locks: map<Id, Mutex>, held: map<Mutex, Tid>, threads: map<Tid, Thread>, id: Id) {
    && id in locks && locks[id] in held && held[locks[id]] in threads
    && threads[held[locks[id]]].id == id && Owes(threads[held[locks[id]]].pc)
  }

  ghost predicate GrantsKnown(issued: set<Id>, logins: map<Id, Login>, grants: map<Id, Upstream>, minted: set<string>) {
    && logins.Keys <= grants.Keys <= issued
    && (forall id :: id in grants ==> grants[id].current in minted)
    && (forall id :: id in logins ==> logins[id].refreshToken in minted)
  }

  /** What a request at the provider has in hand is current, unless a rotated token was lost. */
  ghost predicate PcCurrent(th: Thread, grants: map<Id, Upstream>, minted: set<string>, lost: set<Id>) {
    && (Busy(th.pc) ==> th.id in grants)
    && (th.pc.Calling? ==>
          th.pc.row.refreshToken in minted && (th.pc.row.refreshToken == grants[th.id].current <==> th.id !in lost))
    && (th.pc.Replied? && th.pc.reply.Tokens? ==>
          && th.id !in lost
          && (Rotates(th.pc.reply) ==> th.pc.reply.refreshToken == grants[th.id].current != th.pc.row.refreshToken)
          && (!Rotates(th.pc.reply) ==> th.pc.row.refreshToken == grants[th.id].current))
    && (th.pc.Answered? ==> th.id !in lost && th.pc.ident.refreshToken == grants[th.id].current)
  }

  ghost predicate ThreadsCurrent(threads: map<Tid, Thread>, grants: map<Id, Upstream>, minted: set<string>, lost: set<Id>) {
    forall t :: t in threads ==> PcCurrent(threads[t], grants, minted, lost)
  }

  /** While a request is at the provider nobody else writes the refresh token of its row. */
  ghost predicate RowsHeld(logins: map<Id, Login>, threads: map<Tid, Thread>) {
    forall t :: t in threads && Busy(threads[t].pc) && threads[t].id in logins ==>
                  threads[t].pc.row.refreshToken == logins[threads[t].id].refreshToken
  }

  /** The database has the current token, or the request that got it holds the lock; if one was lost it never will. */
  ghost predicate RowsCurrent(w: World) {
    forall id :: id in w.db.logins && id in w.grants ==>
      && (id in w.lost ==> w.db.logins[id].refreshToken != w.grants[id].current)
      && (id !in w.lost ==> w.db.logins[id].refreshToken == w.grants[id].current || Owed(w.locks, w.held, w.threads, id))
  }

  ghost predicate Current(w: World) {
    && GrantsKnown(w.db.issued, w.db.logins, w.grants, w.minted)
    && ThreadsCurrent(w.threads, w.grants, w.minted, w.lost)
    && RowsHeld(w.db.logins, w.threads)
    && RowsCurrent(w) && w.lost <= w.db.issued
  }

  lemma LoginCurrent(cfg: Config, w: World, id: Id, i: Identity, now: int)
    requires Exclusive(w) && Current(w) && Unissued(w, id)
    ensures Current(DoLogin(cfg, w, id, i, now))
  {
    NewRowCurrent(w, id, Login(i.subject, i.sid, i.refreshToken, i.teams, now, now, AccessExpiry(cfg, i.expiresIn, now)));
  }

  lemma NewRowCurrent(w: World, id: Id, row: Login)
    requires Exclusive(w) && Current(w) && Unissued(w, id)
    ensures Current(w.(db := w.db.(logins := w.db.logins[id := row], issued := w.db.issued + {id}),
                       grants := w.grants[id := Upstream(row.refreshToken, true)], minted := w.minted + {row.refreshToken}))
  {
    NewRowThreads(w.threads, w.grants, w.minted, w.lost, id, row.refreshToken);
  }

  lemma NewRowThreads(threads: map<Tid, Thread>, grants: map<Id, Upstream>, minted: set<string>, lost: set<Id>, id: Id, token: string)
    requires ThreadsCurrent(threads, grants, minted, lost) && id !in grants
    ensures ThreadsCurrent(threads, grants[id := Upstream(token, true)], minted + {token}, lost)
  {
  }

  lemma FirstLoadCurrent(w: World, t: Tid, id: Id, now: int)
    requires Exclusive(w) && Current(w) && !At(w, t)
    ensures Current(DoFirstLoad(w, t, id, now))
  {
  }

  lemma TakeMutexCurrent(w: World, t: Tid)
    requires Exclusive(w) && Current(w) && At(w, t) && w.threads[t].pc.WantLock?
    ensures Current(DoTakeMutex(w, t))
  {
  }

  lemma LockCurrent(w: World, t: Tid)
    requires Exclusive(w) && Current(w) && At(w, t) && w.threads[t].pc.Waiting? && w.threads[t].pc.m !in w.held
    ensures Current(DoLock(w, t))
  {
  }

  lemma SecondLoadCurrent(w: World, t: Tid, now: int)
    requires Exclusive(w) && Current(w) && At(w, t) && w.threads[t].pc.Locked?
    ensures Current(DoSecondLoad(w, t, now))
  {
    var id := w.threads[t].id;
    if id in w.db.logins {
      assert w.locks[id] == w.threads[t].pc.m && w.held[w.locks[id]] == t;
    }
  }

  /** What the provider can have said to a presented token. */
  lemma AnswerFacts(w: World, g: Upstream, presented: string, reply: TokenReply, hidden: string)
    requires ProviderMay(w, g, presented, reply, hidden)
    ensures var rotated := Rotated(reply, hidden);
            && (rotated != "" ==> presented == g.current && rotated !in w.minted)
            && (reply.Tokens? ==> presented == g.current && hidden == "")
            && (Rotates(reply) <==> reply.Tokens? && rotated != "")
            && GrantAfter(g, presented, rotated).current == if rotated != "" then rotated else g.current
  {
  }

  /** The token a request goes on with is the one the answer leaves current. */
  lemma VerdictFacts(cfg: Config, reply: TokenReply, ui: UserInfo, row: Login)
    ensures var v := OidcRefresh(cfg, Complete(reply, ui), row.refreshToken, row.subject);
            && (v.Accepted? ==> reply.Tokens? && v.identity.expiresIn == reply.expiresIn)
            && (v.Accepted? ==> v.identity.refreshToken == if Rotates(reply) then reply.refreshToken else row.refreshToken)
  {
    if OidcRefresh(cfg, Complete(reply, ui), row.refreshToken, row.subject).Accepted? {
      RefreshTells(cfg, Complete(reply, ui), row.refreshToken, row.subject);
    }
  }

  /** Nobody else is at the provider for this login. */
  lemma OthersAreNotBusy(w: World, t: Tid)
    requires Exclusive(w) && At(w, t) && Busy(w.threads[t].pc)
    ensures forall u :: At(w, u) && u != t && w.threads[u].id == w.threads[t].id ==> !Busy(w.threads[u].pc)
  {
    forall u | At(w, u) && u != t && w.threads[u].id == w.threads[t].id ensures !Busy(w.threads[u].pc) {
      if Busy(w.threads[u].pc) {
        OneAtTheProvider(w, t, u);
      }
    }
  }

  lemma CallThreads(w: World, t: Tid, reply: TokenReply, hidden: string)
    requires Exclusive(w) && Current(w) && At(w, t) && w.threads[t].pc.Calling? && w.threads[t].id in w.grants
    requires ProviderMay(w, w.grants[w.threads[t].id], w.threads[t].pc.row.refreshToken, reply, hidden)
    ensures var v := DoCall(w, t, reply, hidden);
            ThreadsCurrent(v.threads, v.grants, v.minted, v.lost) && RowsHeld(v.db.logins, v.threads)
  {
    AnswerFacts(w, w.grants[w.threads[t].id], w.threads[t].pc.row.refreshToken, reply, hidden);
    OthersAreNotBusy(w, t);
    assert PcCurrent(w.threads[t], w.grants, w.minted, w.lost);
    var v := DoCall(w, t, reply, hidden);
    forall u | u in v.threads ensures PcCurrent(v.threads[u], v.grants, v.minted, v.lost) {
      assert PcCurrent(w.threads[u], w.grants, w.minted, w.lost);
    }
  }

  lemma CallGrants(w: World, t: Tid, reply: TokenReply, hidden: string)
    requires Exclusive(w) && Current(w) && At(w, t) && w.threads[t].pc.Calling? && w.threads[t].id in w.grants
    requires ProviderMay(w, w.grants[w.threads[t].id], w.threads[t].pc.row.refreshToken, reply, hidden)
    ensures var v := DoCall(w, t, reply, hidden);
            GrantsKnown(v.db.issued, v.db.logins, v.grants, v.minted) && v.lost <= v.db.issued
  {
    AnswerFacts(w, w.grants[w.threads[t].id], w.threads[t].pc.row.refreshToken, reply, hidden);
  }

  /** Why a request that holds the mutex of its login is the only one that can owe it a token. */
  lemma HolderOwes(w: World, t: Tid)
    requires Exclusive(w) && At(w, t) && MutexOf(w.threads[t].pc).Some? && !w.threads[t].pc.Waiting? && w.threads[t].id in w.db.logins
    ensures Owed(w.locks, w.held, w.threads, w.threads[t].id) <==> Owes(w.threads[t].pc)
  {
    assert w.locks[w.threads[t].id] == MutexOf(w.threads[t].pc).value && w.held[MutexOf(w.threads[t].pc).value] == t;
  }

  /** A step of the holder of a login's mutex leaves what others owe. */
  lemma OwedByOthers(w: World, threads: map<Tid, Thread>, t: Tid, i: Id)
    requires At(w, t) && w.threads[t].id != i && Owed(w.locks, w.held, w.threads, i)
    requires t in threads && threads == w.threads[t := threads[t]]
    ensures Owed(w.locks, w.held, threads, i)
  {
  }

  lemma CallRows(w: World, t: Tid, reply: TokenReply, hidden: string)
    requires Exclusive(w) && Current(w) && At(w, t) && w.threads[t].pc.Calling? && w.threads[t].id in w.grants
    requires ProviderMay(w, w.grants[w.threads[t].id], w.threads[t].pc.row.refreshToken, reply, hidden)
    ensures RowsCurrent(DoCall(w, t, reply, hidden))
  {
    var id := w.threads[t].id;
    AnswerFacts(w, w.grants[id], w.threads[t].pc.row.refreshToken, reply, hidden);
    var v := DoCall(w, t, reply, hidden);
    if id in w.db.logins {
      HolderOwes(w, t);
      assert w.locks[id] == w.threads[t].pc.m && w.held[w.locks[id]] == t;
      assert Rotates(reply) ==> Owed(v.locks, v.held, v.threads, id);
    }
    forall i | i in v.db.logins && i != id && Owed(w.locks, w.held, w.threads, i) ensures Owed(v.locks, v.held, v.threads, i) {
      OwedByOthers(w, v.threads, t, i);
    }
  }

  lemma ConcludeThreads(cfg: Config, w: World, t: Tid, ui: UserInfo)
    requires Exclusive(w) && Current(w) && At(w, t) && w.threads[t].pc.Replied?
    ensures var v := DoConclude(cfg, w, t, ui);
            ThreadsCurrent(v.threads, v.grants, v.minted, v.lost) && RowsHeld(v.db.logins, v.threads) && v.lost <= v.db.issued
  {
    VerdictFacts(cfg, w.threads[t].pc.reply, ui, w.threads[t].pc.row);
    OthersAreNotBusy(w, t);
    assert PcCurrent(w.threads[t], w.grants, w.minted, w.lost);
    var v := DoConclude(cfg, w, t, ui);
    forall u | u in v.threads ensures PcCurrent(v.threads[u], v.grants, v.minted, v.lost) {
      assert PcCurrent(w.threads[u], w.grants, w.minted, w.lost);
    }
  }

  lemma ConcludeRows(cfg: Config, w: World, t: Tid, ui: UserInfo)
    requires Exclusive(w) && Current(w) && At(w, t) && w.threads[t].pc.Replied?
    ensures RowsCurrent(DoConclude(cfg, w, t, ui))
  {
    var id := w.threads[t].id;
    VerdictFacts(cfg, w.threads[t].pc.reply, ui, w.threads[t].pc.row);
    assert PcCurrent(w.threads[t], w.grants, w.minted, w.lost);
    var v := DoConclude(cfg, w, t, ui);
    if id in w.db.logins {
      HolderOwes(w, t);
      assert w.locks[id] == w.threads[t].pc.m && w.held[w.locks[id]] == t;
      assert Owes(v.threads[t].pc) ==> Owed(v.locks, v.held, v.threads, id);
    }
    forall i | i in v.db.logins && i != id && Owed(w.locks, w.held, w.threads, i) ensures Owed(v.locks, v.held, v.threads, i) {
      OwedByOthers(w, v.threads, t, i);
    }
  }

  lemma UpdateCurrent(cfg: Config, w: World, t: Tid, now: int)
    requires Exclusive(w) && Current(w) && At(w, t) && w.threads[t].pc.Answered?
    ensures Current(DoUpdate(cfg, w, t, now))
  {
  }

  lemma SaveUserCurrent(w: World, t: Tid)
    requires Exclusive(w) && Current(w) && At(w, t) && w.threads[t].pc.Saving?
    ensures Current(DoSaveUser(w, t))
  {
  }

  lemma UnlockCurrent(w: World, t: Tid)
    requires Exclusive(w) && Current(w) && At(w, t) && w.threads[t].pc.Returning?
    ensures Current(DoUnlock(w, t))
  {
  }

  lemma SelectOwnCurrent(w: World, t: Tid)
    requires Exclusive(w) && Current(w) && At(w, t) && w.threads[t].pc.Condemned?
    ensures Current(DoSelectOwn(w, t))
  {
  }

  lemma SelectWhereCurrent(w: World, t: Tid, ids: seq<Id>)
    requires Exclusive(w) && Current(w) && !At(w, t)
    ensures Current(DoSelectWhere(w, t, ids))
  {
  }

  lemma DeleteCurrent(w: World, t: Tid)
    requires Exclusive(w) && Current(w) && At(w, t) && w.threads[t].pc.Deleting? && w.threads[t].pc.ids != []
    ensures Current(DoDelete(w, t))
  {
    DeleteFrame(w, t);
  }

  lemma ForceCurrent(w: World, which: Where)
    requires Current(w)
    ensures Current(w.(db := ForceRefresh(w.db, which)))
  {
  }

  lemma PurgeCurrent(w: World, now: int)
    requires Current(w)
    ensures Current(w.(db := PurgeLogins(w.db, now)))
  {
  }

  lemma OtherCurrent(w: World, db: State)
    requires Current(w) && db.logins == w.db.logins && w.db.issued <= db.issued
    ensures Current(w.(db := db))
  {
  }

  lemma RevokeCurrent(w: World, id: Id)
    requires Current(w)
    ensures Current(DoRevoke(w, id))
  {
  }

  lemma RefreshCurrent(cfg: Config, w: World, e: Move)
    requires Exclusive(w) && Current(w) && Enabled(cfg, w, e) && TakesMutex(e)
    ensures Current(Next(cfg, w, e))
  {
    if e.TakeMutex? {
      TakeMutexCurrent(w, e.t);
    } else if e.Lock? {
      LockCurrent(w, e.t);
    } else if e.SecondLoad? {
      SecondLoadCurrent(w, e.t, e.now);
    } else if e.Call? {
      CallThreads(w, e.t, e.reply, e.hidden);
      CallGrants(w, e.t, e.reply, e.hidden);
      CallRows(w, e.t, e.reply, e.hidden);
    } else if e.Conclude? {
      ConcludeThreads(cfg, w, e.t, e.ui);
      ConcludeRows(cfg, w, e.t, e.ui);
    } else if e.Update? {
      UpdateCurrent(cfg, w, e.t, e.now);
    } else if e.SaveUser? {
      SaveUserCurrent(w, e.t);
    } else {
      UnlockCurrent(w, e.t);
    }
  }

  lemma CurrentKept(cfg: Config, w: World, e: Move)
    requires Exclusive(w) && Current(w) && Enabled(cfg, w, e)
    ensures Current(Next(cfg, w, e))
  {
    if TakesMutex(e) {
      RefreshCurrent(cfg, w, e);
    } else if e.LoginStep? {
      LoginCurrent(cfg, w, e.id, e.ident, e.now);
    } else if e.FirstLoad? {
      FirstLoadCurrent(w, e.t, e.id, e.now);
    } else if e.SelectOwn? {
      SelectOwnCurrent(w, e.t);
    } else if e.SelectWhere? {
      SelectWhereCurrent(w, e.t, e.ids);
    } else if e.Delete? {
      DeleteCurrent(w, e.t);
    } else if e.Force? {
      ForceCurrent(w, e.which);
    } else if e.PurgeStep? {
      PurgeCurrent(w, e.now);
    } else if e.Other? {
      OtherCurrent(w, e.db);
    } else {
      RevokeCurrent(w, e.id);
    }
  }

  /** Every world of every interleaving satisfies all of it. */
  lemma {:induction false} AlwaysSafe(cfg: Config, r: Trace, n: nat)
    requires Interleaving(cfg, r) && n <= |r.es|
    ensures Exclusive(r.ws[n]) && Current(r.ws[n])
  {
    if n > 0 {
      AlwaysSafe(cfg, r, n - 1);
      assert TraceAt(cfg, r, n - 1);
      ExclusiveKept(cfg, r.ws[n - 1], r.es[n - 1]);
      CurrentKept(cfg, r.ws[n - 1], r.es[n - 1]);
    }
  }

  /** In every interleaving: no two requests are at the provider for the same login. */
  lemma NoParallelRefresh(cfg: Config, r: Trace, n: nat, t: Tid, u: Tid)
    requires Interleaving(cfg, r) && n <= |r.es| && At(r.ws[n], t) && At(r.ws[n], u) && t != u
    requires r.ws[n].threads[t].id == r.ws[n].threads[u].id && Busy(r.ws[n].threads[t].pc)
    ensures !Busy(r.ws[n].threads[u].pc)
  {
    AlwaysSafe(cfg, r, n);
    if Busy(r.ws[n].threads[u].pc) {
      OneAtTheProvider(r.ws[n], t, u);
    }
  }

  /** In every interleaving: a request presents the provider's current token exactly when none of that login's was lost. */
  lemma PresentsTheCurrentToken(cfg: Config, r: Trace, n: nat, t: Tid)
    requires Interleaving(cfg, r) && n <= |r.es| && At(r.ws[n], t) && r.ws[n].threads[t].pc.Calling?
    ensures var id := r.ws[n].threads[t].id;
            id in r.ws[n].grants && (r.ws[n].threads[t].pc.row.refreshToken == r.ws[n].grants[id].current <==> id !in r.ws[n].lost)
  {
    AlwaysSafe(cfg, r, n);
  }

  predicate WritesGrants(e: Move) {
    e.Call? || e.Conclude? || e.LoginStep? || e.Revoke?
  }

  lemma OtherGrants(cfg: Config, w: World, e: Move)
    requires Enabled(cfg, w, e) && !WritesGrants(e)
    ensures Next(cfg, w, e).grants == w.grants && Next(cfg, w, e).lost == w.lost
  {
    if e.Delete? {
      DeleteFrame(w, e.t);
    } else if e.TakeMutex? {
    } else if e.Lock? {
    } else if e.SecondLoad? {
    } else if e.Update? {
    } else if e.SaveUser? {
    } else if e.Unlock? {
    }
  }

  lemma GrantKept(cfg: Config, w: World, e: Move, id: Id)
    requires Exclusive(w) && Current(w) && Enabled(cfg, w, e) && id in w.grants
    ensures var v := Next(cfg, w, e);
            id in v.grants && w.lost <= v.lost && (w.grants[id].alive && !v.grants[id].alive ==> e == Revoke(id) || id in w.lost)
  {
    if !WritesGrants(e) {
      OtherGrants(cfg, w, e);
    } else if e.Call? {
      assert PcCurrent(w.threads[e.t], w.grants, w.minted, w.lost);
    }
  }

  /** In every interleaving: the provider never sees a reuse, so a grant dies only when it is revoked or a token was lost. */
  lemma {:induction false} GrantsSurvive(cfg: Config, r: Trace, n: nat, id: Id)
    requires Interleaving(cfg, r) && n <= |r.es| && id in r.ws[n].grants && !r.ws[n].grants[id].alive
    ensures id in r.ws[n].lost || exists c :: 0 <= c < n && r.es[c] == Revoke(id)
  {
    assert TraceAt(cfg, r, n - 1);
    AlwaysSafe(cfg, r, n - 1);
    var w, e := r.ws[n - 1], r.es[n - 1];
    if id in w.grants {
      GrantKept(cfg, w, e, id);
      if !w.grants[id].alive {
        GrantsSurvive(cfg, r, n - 1, id);
      }
    } else {
      GrantBorn(cfg, w, e, id);
    }
  }

  lemma GrantBorn(cfg: Config, w: World, e: Move, id: Id)
    requires Ready(w, e) && id !in w.grants && id in Next(cfg, w, e).grants
    ensures Next(cfg, w, e).grants[id].alive
  {
  }
}
