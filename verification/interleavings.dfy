/** What overlapping requests can and cannot do to ended and to force-refreshed logins, and how old their teams can be. */
module Interleavings {
  import opened Tables
  import opened Oidc
  import opened Auth
  import opened Threads

  // ----- ended is ended ------------------------------------------------------------------

  ghost predicate Gone(w: World, id: Id) {
    id != "" && id in w.db.issued && id !in w.db.logins
  }

  predicate WritesLogins(e: Move) {
    e.LoginStep? || e.Update? || e.Delete? || e.Force? || e.PurgeStep?
  }

  lemma OtherSteps(cfg: Config, w: World, e: Move)
    requires Enabled(cfg, w, e) && !WritesLogins(e)
    ensures Next(cfg, w, e).db.logins == w.db.logins && w.db.issued <= Next(cfg, w, e).db.issued
  {
    if TakesMutex(e) {
      RefreshSteps(cfg, w, e);
    }
  }

  lemma RefreshSteps(cfg: Config, w: World, e: Move)
    requires Ready(w, e) && TakesMutex(e) && !e.Update?
    ensures Next(cfg, w, e).db.logins == w.db.logins && Next(cfg, w, e).db.issued == w.db.issued
  {
    if e.TakeMutex? {
    } else if e.Lock? {
    } else if e.SecondLoad? {
    } else if e.Call? {
    } else if e.Conclude? {
    } else if e.SaveUser? {
    } else {
      assert e.Unlock?;
    }
  }

  lemma IssuedGrows(cfg: Config, w: World, e: Move)
    requires Enabled(cfg, w, e)
    ensures w.db.issued <= Next(cfg, w, e).db.issued
  {
    if !WritesLogins(e) {
      OtherSteps(cfg, w, e);
    } else if e.Delete? {
      DeleteFrame(w, e.t);
    }
  }

  /** A row as the UPDATE of a request that has its answer leaves it. */
  ghost predicate Written(cfg: Config, th: Thread, now: int, row: Login) {
    && th.pc.Answered? && row.teams == th.pc.ident.teams && row.refreshedAt == now
    && row.accessExpiresAt == AccessExpiry(cfg, th.pc.ident.expiresIn, now)
  }

  /** What one step makes of one login that was issued before: it stays, goes, is forced, or gets the answer in flight. */
  lemma LoginStepByStep(cfg: Config, w: World, e: Move, id: Id)
    requires Enabled(cfg, w, e) && id in w.db.issued && id in Next(cfg, w, e).db.logins
    ensures id in w.db.logins
    ensures var (was, row) := (w.db.logins[id], Next(cfg, w, e).db.logins[id]);
            || row == was
            || (e.Force? && Matches(e.which, id, was) && row == was.(accessExpiresAt := 0))
            || (e.Update? && w.threads[e.t].id == id && Written(cfg, w.threads[e.t], e.now, row))
  {
    if !WritesLogins(e) {
      OtherSteps(cfg, w, e);
    } else if e.Delete? {
      DeleteFrame(w, e.t);
    }
  }

  /** No statement brings a login back: an UPDATE in flight finds no row, and ids are never issued twice. */
  lemma GoneKept(cfg: Config, w: World, e: Move, id: Id)
    requires Enabled(cfg, w, e) && Gone(w, id)
    ensures Gone(Next(cfg, w, e), id)
  {
    IssuedGrows(cfg, w, e);
    if id in Next(cfg, w, e).db.logins {
      LoginStepByStep(cfg, w, e, id);
    }
  }

  lemma {:induction false} GoneForGood(cfg: Config, r: Trace, i: nat, n: nat, id: Id)
    requires Interleaving(cfg, r) && i <= n <= |r.es| && Gone(r.ws[i], id)
    ensures Gone(r.ws[n], id)
    decreases n
  {
    if i < n {
      GoneForGood(cfg, r, i, n - 1, id);
      assert TraceAt(cfg, r, n - 1);
      GoneKept(cfg, r.ws[n - 1], r.es[n - 1], id);
    }
  }

  /** A step starts at most the request it names, and leaves finished ones alone. */
  lemma ThreadStep(cfg: Config, w: World, e: Move, t: Tid)
    requires Enabled(cfg, w, e) && At(Next(cfg, w, e), t)
    ensures At(w, t) ==> Next(cfg, w, e).threads[t].id == w.threads[t].id
    ensures At(w, t) && w.threads[t].pc.Finished? ==> Next(cfg, w, e).threads[t] == w.threads[t]
    ensures !At(w, t) && Next(cfg, w, e).threads[t].id != "" ==> e.FirstLoad? && e.t == t && e.id == Next(cfg, w, e).threads[t].id
  {
    if e.Delete? {
      DeleteFrame(w, e.t);
    }
  }

  /**
    In every interleaving: whoever first looks at a login after its row was deleted is refused, at once and for good,
    whatever refreshes, grants and deletions were still under way.
   */
  lemma {:induction false} EndedIsEnded(cfg: Config, r: Trace, i: nat, n: nat, t: Tid)
    requires Interleaving(cfg, r) && i <= n <= |r.es|
    requires !At(r.ws[i], t) && At(r.ws[n], t) && Gone(r.ws[i], r.ws[n].threads[t].id)
    ensures r.ws[n].threads[t].pc == Finished(Ended)
    decreases n
  {
    var w := r.ws[n - 1];
    assert TraceAt(cfg, r, n - 1);
    ThreadStep(cfg, w, r.es[n - 1], t);
    if At(w, t) {
      EndedIsEnded(cfg, r, i, n - 1, t);
    } else {
      GoneForGood(cfg, r, i, n - 1, r.ws[n].threads[t].id);
    }
  }

  // ----- clocks ----------------------------------------------------------------------------

  predicate Reads(e: Move) {
    e.LoginStep? || e.FirstLoad? || e.SecondLoad? || e.Update? || e.PurgeStep?
  }

  /** The latest reading among the first n steps. */
  function Clock(es: seq<Move>, n: nat): int
    requires n <= |es|
  {
    if n == 0 then 0 else if Reads(es[n - 1]) then es[n - 1].now else Clock(es, n - 1)
  }

  /** The clock never runs back. */
  ghost predicate Ascending(es: seq<Move>) {
    forall i: nat :: i < |es| && Reads(es[i]) ==> Clock(es, i) <= es[i].now
  }

  // ----- forced refreshes ------------------------------------------------------------------------

  /** The teams a token answer states all by itself: those of its ID token, or none when nobody else can be asked. */
  function Settled(cfg: Config, row: Login, reply: TokenReply): Option<seq<Team>> {
    if !reply.Tokens? then None
    else
      var teams := if reply.idToken.IdToken? then TeamsFromClaims(cfg, reply.idToken.claims)
                   else TeamsFromClaims(cfg, Claims(row.subject, "", "", Option.None, map[], Option.None));
      if teams.Some? then teams
      else if reply.userInfo.NoEndpoint? then Some([])
      else None
  }

  /** The teams the provider vouches for in this step, for this login: with the tokens, or else at the userinfo endpoint. */
  ghost function Told(cfg: Config, w: World, e: Move, id: Id): set<seq<Team>> {
    if e.Call? && Ready(w, e) && w.threads[e.t].id == id then
      var teams := Settled(cfg, w.threads[e.t].pc.row, e.reply);
      if teams.Some? then {teams.value} else {}
    else if e.Conclude? && Ready(w, e) && w.threads[e.t].id == id then
      var pc := w.threads[e.t].pc;
      var v := OidcRefresh(cfg, Complete(pc.reply, e.ui), pc.row.refreshToken, pc.row.subject);
      if v.Accepted? && Settled(cfg, pc.row, pc.reply).None? then {v.identity.teams} else {}
    else {}
  }

  /** How long an answer lives. */
  function Lifetime(cfg: Config, expiresIn: int): int {
    AccessExpiry(cfg, expiresIn, 0)
  }

  lemma LifetimeIs(cfg: Config, expiresIn: int, now: int)
    ensures AccessExpiry(cfg, expiresIn, now) == now + Lifetime(cfg, expiresIn)
  {
  }

  /** An answer that is due for a refresh as soon as it is stored. */
  predicate Short(cfg: Config, expiresIn: int) {
    Lifetime(cfg, expiresIn) <= REFRESH_LEEWAY
  }

  /** The row is due, at every time from clock on, or holds what the provider said since. */
  ghost predicate RowSince(w: World, id: Id, told: set<seq<Team>>, clock: Option<int>) {
    id in w.db.logins ==>
      || w.db.logins[id].teams in told
      || w.db.logins[id].accessExpiresAt == 0
      || (clock.Some? && RefreshDue(w.db.logins[id], clock.value))
  }

  /** A request of the login: what it is about to write, or to return if it began later. */
  ghost predicate ThreadSince(cfg: Config, th: Thread, later: bool, told: set<seq<Team>>, clock: Option<int>) {
    && (th.pc.Replied? && Settled(cfg, th.pc.row, th.pc.reply).Some? ==>
          || Settled(cfg, th.pc.row, th.pc.reply).value in told
          || (!later && Harmless(cfg, th, clock.Some?)))
    && (th.pc.Answered? ==> th.pc.ident.teams in told || (!later && Harmless(cfg, th, clock.Some?)))
    && (later && th.pc.Saving? ==> th.pc.row.teams in told)
    && (later && th.pc.Returning? && th.pc.result.Alive? ==> th.pc.result.row.teams in told)
    && (later && th.pc.Finished? && th.pc.result.Alive? ==> th.pc.result.row.teams in told)
  }

  /** An answer in flight that will not be stored, or is due as soon as it is. */
  ghost predicate Harmless(cfg: Config, th: Thread, clocked: bool) {
    || (clocked && th.pc.Replied? && th.pc.reply.Tokens? && Short(cfg, th.pc.reply.expiresIn))
    || (clocked && th.pc.Answered? && Short(cfg, th.pc.ident.expiresIn))
    || (th.pc.Replied? && forall ui :: !AnsweredAfter(cfg, th, ui))
  }

  /** With this at the userinfo endpoint, which is asked if there is one, the answer is accepted. */
  predicate AnsweredAfter(cfg: Config, th: Thread, ui: UserInfo)
    requires th.pc.Replied?
  {
    && (th.pc.reply.Tokens? ==> (ui.NoEndpoint? <==> th.pc.reply.userInfo.NoEndpoint?))
    && AfterVerdict(cfg, th.pc.m, th.pc.row,
         OidcRefresh(cfg, Complete(th.pc.reply, ui), th.pc.row.refreshToken, th.pc.row.subject)).Answered?
  }

  /** Nothing but what the provider said since can be seen, or will be written. clock is None if clocks may run back. */
  ghost predicate Since(cfg: Config, w: World, old_: set<Tid>, id: Id, told: set<seq<Team>>, clock: Option<int>) {
    && id in w.db.issued
    && RowSince(w, id, told, clock)
    && (forall t :: t in w.threads && w.threads[t].id == id ==> ThreadSince(cfg, w.threads[t], t !in old_, told, clock))
  }

  function Later(clock: Option<int>, e: Move): Option<int> {
    if clock.Some? && Reads(e) then Some(e.now) else clock
  }

  ghost predicate InTime(clock: Option<int>, e: Move) {
    clock.Some? ==> 0 <= clock.value && (Reads(e) ==> clock.value <= e.now)
  }

  lemma RowKept(cfg: Config, w: World, e: Move, old_: set<Tid>, id: Id, told: set<seq<Team>>, clock: Option<int>)
    requires Enabled(cfg, w, e) && Since(cfg, w, old_, id, told, clock) && InTime(clock, e)
    ensures RowSince(Next(cfg, w, e), id, told, Later(clock, e))
  {
    if id in Next(cfg, w, e).db.logins {
      LoginStepByStep(cfg, w, e, id);
      if e.Update? && w.threads[e.t].id == id && w.threads[e.t].pc.Answered? {
        assert ThreadSince(cfg, w.threads[e.t], e.t !in old_, told, clock);
        LifetimeIs(cfg, w.threads[e.t].pc.ident.expiresIn, e.now);
      }
    }
  }

  lemma ThreadKept(cfg: Config, w: World, e: Move, old_: set<Tid>, id: Id, told: set<seq<Team>>, clock: Option<int>, t: Tid)
    requires Enabled(cfg, w, e) && Since(cfg, w, old_, id, told, clock) && InTime(clock, e)
    requires At(Next(cfg, w, e), t) && Next(cfg, w, e).threads[t].id == id && id != ""
    ensures ThreadSince(cfg, Next(cfg, w, e).threads[t], t !in old_, told + Told(cfg, w, e, id), Later(clock, e))
  {
    if !At(w, t) {
      ThreadStep(cfg, w, e, t);
    } else if Next(cfg, w, e).threads[t] == w.threads[t] {
      assert ThreadSince(cfg, w.threads[t], t !in old_, told, clock);
    } else {
      MovedThread(cfg, w, e, t);
      assert ThreadSince(cfg, w.threads[t], t !in old_, told, clock);
      MovedSince(cfg, w, e, old_, id, told, clock, t);
    }
  }

  /** Where teams come from when a request goes on to to: an answer, what it had in hand, or a row that is not due. */
  ghost predicate FromTo(cfg: Config, w: World, e: Move, th: Thread, to: Pc) {
    && (to.Replied? ==> e.Call? && th.pc.Calling? && to.row == th.pc.row && to.reply == e.reply)
    && (to.Answered? ==>
          && th.pc.Replied? && e.Conclude? && th.pc.reply.Tokens? && to.ident.expiresIn == th.pc.reply.expiresIn
          && AnsweredAfter(cfg, th, e.ui)
          && (Settled(cfg, th.pc.row, th.pc.reply).Some? ==> to.ident.teams == Settled(cfg, th.pc.row, th.pc.reply).value)
          && (Settled(cfg, th.pc.row, th.pc.reply).None? ==> to.ident.teams in Told(cfg, w, e, th.id)))
    && (to.Saving? ==>
          || (th.pc.Answered? && e.Update? && to.row.teams == th.pc.ident.teams && to.row.refreshedAt == e.now)
          || (th.pc.Saving? && to.row == th.pc.row))
    && (to.Returning? && to.result.Alive? ==>
          || (th.pc.Saving? && to.result.row == th.pc.row)
          || (e.SecondLoad? && th.id in w.db.logins && to.result.row == w.db.logins[th.id] && !RefreshDue(to.result.row, e.now)))
    && (to.Finished? && to.result.Alive? ==> th.pc.Returning? && to.result == th.pc.result)
  }

  /** Teams come from the ID token when it states any, and from the userinfo endpoint otherwise. */
  lemma SettledTeams(cfg: Config, row: Login, reply: TokenReply, ui: UserInfo)
    requires OidcRefresh(cfg, Complete(reply, ui), row.refreshToken, row.subject).Accepted?
    requires reply.Tokens? ==> (ui.NoEndpoint? <==> reply.userInfo.NoEndpoint?)
    ensures Settled(cfg, row, reply).Some? ==>
              OidcRefresh(cfg, Complete(reply, ui), row.refreshToken, row.subject).identity.teams == Settled(cfg, row, reply).value
  {
  }

  /** A request that moved made one of these moves. */
  lemma MovedThread(cfg: Config, w: World, e: Move, t: Tid)
    requires Enabled(cfg, w, e) && At(w, t) && At(Next(cfg, w, e), t) && Next(cfg, w, e).threads[t] != w.threads[t]
    ensures Next(cfg, w, e).threads[t].id == w.threads[t].id
    ensures FromTo(cfg, w, e, w.threads[t], Next(cfg, w, e).threads[t].pc)
    ensures e.Call? || e.Conclude? ==> e.t == t
  {
    if e.Delete? {
      DeleteFrame(w, e.t);
    } else if e.Conclude? {
      ConcludeMoves(cfg, w, e, t);
    } else if TakesMutex(e) {
      RefreshMoves(cfg, w, e, t);
    }
  }

  lemma ConcludeMoves(cfg: Config, w: World, e: Move, t: Tid)
    requires Enabled(cfg, w, e) && e.Conclude? && At(w, t) && Next(cfg, w, e).threads[t] != w.threads[t]
    ensures e.t == t && Next(cfg, w, e).threads[t].id == w.threads[t].id
    ensures FromTo(cfg, w, e, w.threads[t], Next(cfg, w, e).threads[t].pc)
  {
    var pc := w.threads[t].pc;
    VerdictFacts(cfg, pc.reply, e.ui, pc.row);
    if OidcRefresh(cfg, Complete(pc.reply, e.ui), pc.row.refreshToken, pc.row.subject).Accepted? {
      SettledTeams(cfg, pc.row, pc.reply, e.ui);
    }
  }

  lemma AfterCallMoves(cfg: Config, w: World, e: Move, t: Tid)
    requires Ready(w, e) && (e.Call? || e.Update? || e.SaveUser?) && At(w, t) && Next(cfg, w, e).threads[t] != w.threads[t]
    ensures e.t == t && Next(cfg, w, e).threads[t].id == w.threads[t].id
    ensures FromTo(cfg, w, e, w.threads[t], Next(cfg, w, e).threads[t].pc)
  {
    if e.Call? {
    } else if e.Update? {
    } else {
      assert e.SaveUser?;
    }
  }

  lemma RefreshMoves(cfg: Config, w: World, e: Move, t: Tid)
    requires Ready(w, e) && TakesMutex(e) && !e.Conclude? && At(w, t) && Next(cfg, w, e).threads[t] != w.threads[t]
    ensures e.t == t && Next(cfg, w, e).threads[t].id == w.threads[t].id
    ensures FromTo(cfg, w, e, w.threads[t], Next(cfg, w, e).threads[t].pc)
  {
    if e.TakeMutex? {
    } else if e.Lock? {
    } else if e.SecondLoad? {
    } else if e.Unlock? {
    } else {
      AfterCallMoves(cfg, w, e, t);
    }
  }

  lemma MovedSince(cfg: Config, w: World, e: Move, old_: set<Tid>, id: Id, told: set<seq<Team>>, clock: Option<int>, t: Tid)
    requires Since(cfg, w, old_, id, told, clock) && InTime(clock, e) && Enabled(cfg, w, e)
    requires At(w, t) && At(Next(cfg, w, e), t) && w.threads[t].id == id == Next(cfg, w, e).threads[t].id
    requires FromTo(cfg, w, e, w.threads[t], Next(cfg, w, e).threads[t].pc) && (e.Call? || e.Conclude? ==> e.t == t)
    ensures ThreadSince(cfg, Next(cfg, w, e).threads[t], t !in old_, told + Told(cfg, w, e, id), Later(clock, e))
  {
    assert ThreadSince(cfg, w.threads[t], t !in old_, told, clock);
    var th, to := w.threads[t], Next(cfg, w, e).threads[t].pc;
    if to.Answered? && Settled(cfg, th.pc.row, th.pc.reply).Some? {
      assert Settled(cfg, th.pc.row, th.pc.reply).value in told || (t in old_ && Harmless(cfg, th, clock.Some?));
    }
  }

  /** All the provider said about the login between steps k and n. */
  ghost function ToldBetween(cfg: Config, r: Trace, k: nat, n: nat, id: Id): set<seq<Team>>
    requires n <= |r.es| <= |r.ws|
  {
    if n <= k then {} else ToldBetween(cfg, r, k, n - 1, id) + Told(cfg, r.ws[n - 1], r.es[n - 1], id)
  }

  lemma {:induction false} ToldWhen(cfg: Config, r: Trace, k: nat, n: nat, id: Id, teams: seq<Team>) returns (c: nat)
    requires n <= |r.es| <= |r.ws| && teams in ToldBetween(cfg, r, k, n, id)
    ensures k <= c < n && teams in Told(cfg, r.ws[c], r.es[c], id)
  {
    if teams in Told(cfg, r.ws[n - 1], r.es[n - 1], id) {
      c := n - 1;
    } else {
      c := ToldWhen(cfg, r, k, n - 1, id, teams);
    }
  }

  function ClockIf(clocked: bool, es: seq<Move>, n: nat): Option<int>
    requires n <= |es|
  {
    if clocked then Some(Clock(es, n)) else None
  }

  lemma {:induction false} ClockIsNatural(cfg: Config, r: Trace, n: nat)
    requires Interleaving(cfg, r) && n <= |r.es| && Ascending(r.es)
    ensures 0 <= Clock(r.es, n)
  {
    if n > 0 {
      ClockIsNatural(cfg, r, n - 1);
      assert Reads(r.es[n - 1]) ==> Clock(r.es, n - 1) <= r.es[n - 1].now;
    }
  }

  lemma {:induction false} SinceKept(cfg: Config, r: Trace, k: nat, n: nat, old_: set<Tid>, id: Id, clocked: bool)
    requires Interleaving(cfg, r) && k <= n <= |r.es| && id != "" && (clocked ==> Ascending(r.es))
    requires Since(cfg, r.ws[k], old_, id, {}, ClockIf(clocked, r.es, k))
    ensures Since(cfg, r.ws[n], old_, id, ToldBetween(cfg, r, k, n, id), ClockIf(clocked, r.es, n))
    decreases n
  {
    if k < n {
      SinceKept(cfg, r, k, n - 1, old_, id, clocked);
      assert TraceAt(cfg, r, n - 1);
      if clocked {
        ClockIsNatural(cfg, r, n - 1);
      }
      SinceStep(cfg, r.ws[n - 1], r.es[n - 1], old_, id, ToldBetween(cfg, r, k, n - 1, id), ClockIf(clocked, r.es, n - 1));
    }
  }

  lemma SinceStep(cfg: Config, w: World, e: Move, old_: set<Tid>, id: Id, told: set<seq<Team>>, clock: Option<int>)
    requires Enabled(cfg, w, e) && Since(cfg, w, old_, id, told, clock) && InTime(clock, e) && id != ""
    ensures Since(cfg, Next(cfg, w, e), old_, id, told + Told(cfg, w, e, id), Later(clock, e))
  {
    RowKept(cfg, w, e, old_, id, told, clock);
    IssuedGrows(cfg, w, e);
    var v := Next(cfg, w, e);
    forall t | At(v, t) && v.threads[t].id == id ensures ThreadSince(cfg, v.threads[t], t !in old_, told + Told(cfg, w, e, id), Later(clock, e)) {
      ThreadKept(cfg, w, e, old_, id, told, clock, t);
    }
  }

  /** An answer about the login that predates this moment is in flight, and may yet be stored for longer than the leeway. */
  ghost predicate Straddled(cfg: Config, w: World, id: Id, clocked: bool) {
    exists t :: t in w.threads && w.threads[t].id == id && Straddles(cfg, w.threads[t], clocked)
  }

  ghost predicate Straddles(cfg: Config, th: Thread, clocked: bool) {
    (th.pc.Answered? || (th.pc.Replied? && Settled(cfg, th.pc.row, th.pc.reply).Some?)) && !Harmless(cfg, th, clocked)
  }

  /**
    In every interleaving in which no refresh of the login straddles the force: whoever first looks at it afterwards
    and is let in has the teams of an answer the provider gave after the force. An answer that lives 15 seconds or less
    does not count as straddling when clocks never run back.
   */
  lemma ForcedIsRefreshed(cfg: Config, r: Trace, k: nat, n: nat, id: Id, t: Tid, clocked: bool) returns (c: nat)
    requires Interleaving(cfg, r) && k < n <= |r.es| && r.es[k].Force? && (clocked ==> Ascending(r.es))
    requires id in r.ws[k].db.logins && Matches(r.es[k].which, id, r.ws[k].db.logins[id]) && id != ""
    requires !Straddled(cfg, r.ws[k], id, clocked)
    requires !At(r.ws[k], t) && At(r.ws[n], t) && r.ws[n].threads[t].id == id
    requires r.ws[n].threads[t].pc.Finished? && r.ws[n].threads[t].pc.result.Alive?
    ensures k < c < n && r.ws[n].threads[t].pc.result.row.teams in Told(cfg, r.ws[c], r.es[c], id)
  {
    var old_ := r.ws[k].threads.Keys;
    ForceStarts(cfg, r, k, id, clocked);
    SinceKept(cfg, r, k + 1, n, old_, id, clocked);
    c := ToldWhen(cfg, r, k + 1, n, id, r.ws[n].threads[t].pc.result.row.teams);
  }

  lemma StartsForced(cfg: Config, w: World, which: Where, id: Id, clocked: bool, clock: Option<int>)
    requires Exclusive(w) && id in w.db.logins && Matches(which, id, w.db.logins[id]) && !Straddled(cfg, w, id, clocked)
    requires clock.Some? <==> clocked
    ensures Since(cfg, w.(db := ForceRefresh(w.db, which)), w.threads.Keys, id, {}, clock)
  {
    forall t | t in w.threads && w.threads[t].id == id ensures ThreadSince(cfg, w.threads[t], false, {}, clock) {
      assert !Straddles(cfg, w.threads[t], clocked);
    }
  }

  lemma ForceStarts(cfg: Config, r: Trace, k: nat, id: Id, clocked: bool)
    requires Interleaving(cfg, r) && k < |r.es| && r.es[k].Force?
    requires id in r.ws[k].db.logins && Matches(r.es[k].which, id, r.ws[k].db.logins[id]) && !Straddled(cfg, r.ws[k], id, clocked)
    ensures Since(cfg, r.ws[k + 1], r.ws[k].threads.Keys, id, {}, ClockIf(clocked, r.es, k + 1))
  {
    AlwaysSafe(cfg, r, k);
    assert TraceAt(cfg, r, k);
    StartsForced(cfg, r.ws[k], r.es[k].which, id, clocked, ClockIf(clocked, r.es, k + 1));
  }

  // ----- freshness -------------------------------------------------------------------------------------

  /** No row lives longer than the refresh interval after its last refresh. */
  ghost predicate RowsBounded(cfg: Config, logins: map<Id, Login>) {
    forall id :: id in logins ==> 0 <= logins[id].refreshedAt && logins[id].accessExpiresAt <= logins[id].refreshedAt + Millis(cfg.refreshInterval)
  }

  lemma BoundsKept(cfg: Config, w: World, e: Move)
    requires ValidConfig(cfg) && Enabled(cfg, w, e) && RowsBounded(cfg, w.db.logins) && w.db.logins.Keys <= w.db.issued
    ensures RowsBounded(cfg, Next(cfg, w, e).db.logins)
  {
    var v := Next(cfg, w, e);
    forall id | id in v.db.logins
      ensures 0 <= v.db.logins[id].refreshedAt && v.db.logins[id].accessExpiresAt <= v.db.logins[id].refreshedAt + Millis(cfg.refreshInterval)
    {
      if id in w.db.issued {
        LoginStepByStep(cfg, w, e, id);
        if e.Update? {
          ExpiryBounded(cfg, w.threads[e.t].pc.ident.expiresIn, e.now);
        }
      } else {
        NewLogin(cfg, w, e, id);
        ExpiryBounded(cfg, e.ident.expiresIn, e.now);
      }
    }
  }

  lemma NewLogin(cfg: Config, w: World, e: Move, id: Id)
    requires Enabled(cfg, w, e) && id !in w.db.logins && id in Next(cfg, w, e).db.logins
    ensures e.LoginStep? && e.id == id && Next(cfg, w, e).db.logins[id].refreshedAt == e.now
    ensures Next(cfg, w, e).db.logins[id].teams == e.ident.teams
    ensures Next(cfg, w, e).db.logins[id].accessExpiresAt == AccessExpiry(cfg, e.ident.expiresIn, e.now)
  {
    if !WritesLogins(e) {
      OtherSteps(cfg, w, e);
    } else if e.Delete? {
      DeleteFrame(w, e.t);
    }
  }

  lemma {:induction false} AlwaysBounded(cfg: Config, r: Trace, n: nat)
    requires ValidConfig(cfg) && Interleaving(cfg, r) && n <= |r.es|
    ensures RowsBounded(cfg, r.ws[n].db.logins)
  {
    if n > 0 {
      AlwaysBounded(cfg, r, n - 1);
      AlwaysSafe(cfg, r, n - 1);
      assert TraceAt(cfg, r, n - 1);
      BoundsKept(cfg, r.ws[n - 1], r.es[n - 1]);
    }
  }

  /** The row request t has in hand, to return it. */
  ghost predicate InHand(th: Thread, row: Login) {
    || (th.pc.Saving? && th.pc.row == row)
    || ((th.pc.Returning? || th.pc.Finished?) && th.pc.result.Alive? && th.pc.result.row == row)
  }

  /** e is where request t got the row: it loaded it and found it fresh enough, or stored it itself. */
  ghost predicate Got(cfg: Config, e: Move, t: Tid, row: Login) {
    || ((e.FirstLoad? || e.SecondLoad?) && e.t == t && e.now < row.refreshedAt + Millis(cfg.refreshInterval) - REFRESH_LEEWAY)
    || (e.Update? && e.t == t && e.now == row.refreshedAt)
  }

  lemma GotOrHad(cfg: Config, w: World, e: Move, t: Tid, row: Login)
    requires ValidConfig(cfg) && Enabled(cfg, w, e) && RowsBounded(cfg, w.db.logins)
    requires At(Next(cfg, w, e), t) && InHand(Next(cfg, w, e).threads[t], row)
    ensures (At(w, t) && InHand(w.threads[t], row)) || Got(cfg, e, t, row)
  {
    if At(w, t) {
      if Next(cfg, w, e).threads[t] != w.threads[t] {
        MovedThread(cfg, w, e, t);
      }
    } else if !e.FirstLoad? {
      NoNewHand(cfg, w, e, t);
    }
  }

  lemma NoNewHand(cfg: Config, w: World, e: Move, t: Tid)
    requires Enabled(cfg, w, e) && !At(w, t) && At(Next(cfg, w, e), t) && !e.FirstLoad?
    ensures Next(cfg, w, e).threads[t].pc.Deleting? || Next(cfg, w, e).threads[t].pc == Finished(Ended)
  {
    if e.Delete? {
      DeleteFrame(w, e.t);
    }
  }

  /**
    In every interleaving: the teams a request is let in with were stored by its own refresh, or had been stored less
    than the refresh interval minus 15 s before it looked.
   */
  lemma {:induction false} TeamsAreFresh(cfg: Config, r: Trace, n: nat, t: Tid, row: Login) returns (i: nat)
    requires ValidConfig(cfg) && Interleaving(cfg, r) && n <= |r.es| && At(r.ws[n], t) && InHand(r.ws[n].threads[t], row)
    ensures i < n && Got(cfg, r.es[i], t, row)
  {
    assert TraceAt(cfg, r, n - 1);
    AlwaysBounded(cfg, r, n - 1);
    GotOrHad(cfg, r.ws[n - 1], r.es[n - 1], t, row);
    if Got(cfg, r.es[n - 1], t, row) {
      i := n - 1;
    } else {
      i := TeamsAreFresh(cfg, r, n - 1, t, row);
    }
  }

  // ----- a required team ---------------------------------------------------------------------------------

  /** Whatever the request has in hand has a team. */
  ghost predicate TeamInHand(th: Thread) {
    && (th.pc.Answered? || th.pc.Saving? ==> th.pc.ident.teams != [])
    && (th.pc.Saving? ==> th.pc.row.teams != [])
    && ((th.pc.Returning? || th.pc.Finished?) && th.pc.result.Alive? ==> th.pc.result.row.teams != [])
  }

  ghost predicate Teamed(w: World) {
    && (forall id :: id in w.db.logins ==> w.db.logins[id].teams != [])
    && (forall t :: t in w.threads ==> TeamInHand(w.threads[t]))
  }

  lemma TeamedLogin(cfg: Config, w: World, e: Move, id: Id)
    requires cfg.requireTeam && Enabled(cfg, w, e) && Teamed(w) && w.db.logins.Keys <= w.db.issued && id in Next(cfg, w, e).db.logins
    ensures Next(cfg, w, e).db.logins[id].teams != []
  {
    if id in w.db.issued {
      LoginStepByStep(cfg, w, e, id);
      if e.Update? {
        assert TeamInHand(w.threads[e.t]);
      }
    } else {
      NewLogin(cfg, w, e, id);
    }
  }

  lemma TeamedThread(cfg: Config, w: World, e: Move, t: Tid)
    requires cfg.requireTeam && Enabled(cfg, w, e) && Teamed(w) && t in Next(cfg, w, e).threads
    ensures TeamInHand(Next(cfg, w, e).threads[t])
  {
    if t in w.threads {
      assert TeamInHand(w.threads[t]);
    }
    if e.Delete? {
      DeleteFrame(w, e.t);
    } else if TakesMutex(e) {
      TeamedRefresh(cfg, w, e, t);
    }
  }

  lemma TeamedRefresh(cfg: Config, w: World, e: Move, t: Tid)
    requires cfg.requireTeam && Enabled(cfg, w, e) && Teamed(w) && TakesMutex(e) && t in Next(cfg, w, e).threads
    ensures TeamInHand(Next(cfg, w, e).threads[t])
  {
    if t in w.threads {
      assert TeamInHand(w.threads[t]);
    }
    if e.Call? || e.Conclude? || e.Update? || e.SaveUser? {
      TeamedAnswer(cfg, w, e, t);
    } else if e.TakeMutex? {
    } else if e.Lock? {
    } else if e.SecondLoad? {
    } else {
      assert e.Unlock?;
    }
  }

  lemma TeamedVerdict(cfg: Config, w: World, e: Move, t: Tid)
    requires cfg.requireTeam && Ready(w, e) && e.Conclude? && t in w.threads && TeamInHand(w.threads[t])
    ensures TeamInHand(Next(cfg, w, e).threads[t])
  {
  }

  lemma TeamedAnswer(cfg: Config, w: World, e: Move, t: Tid)
    requires cfg.requireTeam && Enabled(cfg, w, e) && (e.Call? || e.Conclude? || e.Update? || e.SaveUser?)
    requires t in Next(cfg, w, e).threads && t in w.threads && TeamInHand(w.threads[t])
    ensures TeamInHand(Next(cfg, w, e).threads[t])
  {
    if e.Call? {
    } else if e.Conclude? {
      TeamedVerdict(cfg, w, e, t);
    } else if e.Update? {
    } else if w.threads[e.t].pc.named {
    }
  }

  lemma {:induction false} AlwaysTeamed(cfg: Config, r: Trace, n: nat)
    requires Interleaving(cfg, r) && cfg.requireTeam && n <= |r.es|
    ensures Teamed(r.ws[n])
  {
    if n > 0 {
      var w, e := r.ws[n - 1], r.es[n - 1];
      AlwaysTeamed(cfg, r, n - 1);
      AlwaysSafe(cfg, r, n - 1);
      assert TraceAt(cfg, r, n - 1);
      forall id | id in r.ws[n].db.logins ensures r.ws[n].db.logins[id].teams != [] {
        TeamedLogin(cfg, w, e, id);
      }
      forall t | t in r.ws[n].threads ensures TeamInHand(r.ws[n].threads[t]) {
        TeamedThread(cfg, w, e, t);
      }
    }
  }

  /** Where a team is required, no request of any interleaving is let in without one. */
  lemma NobodyWithoutTeam(cfg: Config, r: Trace, n: nat, t: Tid, row: Login)
    requires Interleaving(cfg, r) && cfg.requireTeam && n <= |r.es| && At(r.ws[n], t) && InHand(r.ws[n].threads[t], row)
    ensures row.teams != []
  {
    AlwaysTeamed(cfg, r, n);
    assert TeamInHand(r.ws[n].threads[t]);
  }
}
