/**
  Particular schedules. Undisturbed, a request does what the functions of module Auth say; disturbed in a specific way, it
  undoes a forced refresh.
 */
module Schedules {
  import opened Tables
  import opened Oidc
  import opened Auth
  import opened Threads
  import opened Interleavings
  import opened Examples

  /** es can happen from w on, in this order. */
  ghost predicate Runs(cfg: Config, w: World, es: seq<Move>)
    decreases |es|
  {
    es != [] ==> Enabled(cfg, w, es[0]) && Runs(cfg, Next(cfg, w, es[0]), es[1..])
  }

  ghost function Exec(cfg: Config, w: World, es: seq<Move>): World
    requires Runs(cfg, w, es)
    decreases |es|
  {
    if es == [] then w else Exec(cfg, Next(cfg, w, es[0]), es[1..])
  }

  /** es leads from w to v. */
  ghost predicate Leads(cfg: Config, w: World, es: seq<Move>, v: World) {
    Runs(cfg, w, es) && Exec(cfg, w, es) == v
  }

  lemma Stay(cfg: Config, w: World)
    ensures Leads(cfg, w, [], w)
  {
  }

  lemma Then(cfg: Config, w: World, e: Move, es: seq<Move>, v: World)
    requires Enabled(cfg, w, e) && Leads(cfg, Next(cfg, w, e), es, v)
    ensures Leads(cfg, w, [e] + es, v)
  {
    assert ([e] + es)[1..] == es;
  }

  lemma {:induction false} Join(cfg: Config, w: World, a: seq<Move>, x: World, b: seq<Move>, v: World)
    requires Leads(cfg, w, a, x) && Leads(cfg, x, b, v)
    ensures Leads(cfg, w, a + b, v)
    decreases |a|
  {
    if a == [] {
      assert a + b == b;
    } else {
      Join(cfg, Next(cfg, w, a[0]), a[1..], x, b, v);
      assert [a[0]] + (a[1..] + b) == a + b;
      Then(cfg, w, a[0], a[1..] + b, v);
    }
  }

  // ----- ending --------------------------------------------------------------------------------

  /** The five stages for one login. */
  function Five(t: Tid): seq<Move> {
    [Delete(t), Delete(t), Delete(t), Delete(t), Delete(t)]
  }

  lemma ThreeDeletes(cfg: Config, w: World, t: Tid)
    requires At(w, t) && w.threads[t].pc.Deleting? && w.threads[t].pc.ids != [] && w.threads[t].pc.stage == 0
    ensures var pc := w.threads[t].pc;
            var id := pc.ids[0];
            var db := w.db.(sessions := SessionsWithout(w.db.sessions, {id}), tokens := TokensWithout(w.db.tokens, {id}),
                            codes := CodesWithout(w.db.codes, {id}));
            Leads(cfg, w, [Delete(t), Delete(t), Delete(t)], Go(w.(db := db), t, pc.(stage := 3)))
  {
    var pc := w.threads[t].pc;
    var id := pc.ids[0];
    var db1 := w.db.(sessions := SessionsWithout(w.db.sessions, {id}));
    var db2 := db1.(tokens := TokensWithout(w.db.tokens, {id}));
    var w1 := Go(w.(db := db1), t, pc.(stage := 1));
    var w2 := Go(w.(db := db2), t, pc.(stage := 2));
    var w3 := Go(w.(db := db2.(codes := CodesWithout(w.db.codes, {id}))), t, pc.(stage := 3));
    assert DoDelete(w, t) == w1;
    assert DoDelete(w1, t) == w2;
    assert DoDelete(w2, t) == w3;
    var e := Delete(t);
    Stay(cfg, w3);
    Then(cfg, w2, e, [], w3);
    Then(cfg, w1, e, [e], w3);
    Then(cfg, w, e, [e, e], w3);
  }

  lemma TwoDeletes(cfg: Config, w: World, t: Tid)
    requires At(w, t) && w.threads[t].pc.Deleting? && w.threads[t].pc.ids != [] && w.threads[t].pc.stage == 3
    ensures var pc := w.threads[t].pc;
            var id := pc.ids[0];
            var v := w.(db := w.db.(logins := w.db.logins - {id}), locks := w.locks - {id});
            Leads(cfg, w, [Delete(t), Delete(t)], Go(v, t, AfterDelete(pc.(stage := 4))))
  {
    var pc := w.threads[t].pc;
    var id := pc.ids[0];
    var db := w.db.(logins := w.db.logins - {id});
    var w1 := Go(w.(db := db), t, pc.(stage := 4));
    var w2 := Go(w.(db := db, locks := w.locks - {id}), t, AfterDelete(pc.(stage := 4)));
    assert DoDelete(w, t) == w1;
    assert DoDelete(w1, t) == w2;
    var e := Delete(t);
    Stay(cfg, w2);
    Then(cfg, w1, e, [], w2);
    Then(cfg, w, e, [e], w2);
  }

  lemma FiveDeletes(cfg: Config, w: World, t: Tid)
    requires At(w, t) && w.threads[t].pc.Deleting? && w.threads[t].pc.ids != [] && w.threads[t].pc.stage == 0
    ensures var pc := w.threads[t].pc;
            var id := pc.ids[0];
            Leads(cfg, w, Five(t), Go(w.(db := EndLogins(w.db, {id}), locks := w.locks - {id}), t, AfterDelete(pc.(stage := 4))))
  {
    ThreeDeletes(cfg, w, t);
    var x := Exec(cfg, w, [Delete(t), Delete(t), Delete(t)]);
    TwoDeletes(cfg, x, t);
    var v := Exec(cfg, x, [Delete(t), Delete(t)]);
    Join(cfg, w, [Delete(t), Delete(t), Delete(t)], x, [Delete(t), Delete(t)], v);
    assert [Delete(t), Delete(t), Delete(t)] + [Delete(t), Delete(t)] == Five(t);
    assert v.threads == w.threads[t := w.threads[t].(pc := AfterDelete(w.threads[t].pc.(stage := 4)))];
  }

  function Deletes(t: Tid, n: nat): seq<Move> {
    if n == 0 then [] else Five(t) + Deletes(t, n - 1)
  }

  ghost function IdsOf(ids: seq<Id>): set<Id> {
    set i | i in ids
  }

  lemma EndFirst(db: State, ids: seq<Id>)
    requires ids != []
    ensures EndLogins(EndLogins(db, {ids[0]}), IdsOf(ids[1..])) == EndLogins(db, IdsOf(ids))
  {
    assert ids == [ids[0]] + ids[1..] && IdsOf(ids) == {ids[0]} + IdsOf(ids[1..]);
    EndTwice(db, {ids[0]}, IdsOf(ids[1..]));
  }

  /** endIdpSessions run by itself, login after login. */
  lemma {:induction false} DeletesAll(cfg: Config, w: World, t: Tid)
    requires At(w, t) && w.threads[t].pc.Deleting? && w.threads[t].pc.ids != [] && w.threads[t].pc.stage == 0
    requires w.threads[t].pc.under.None?
    ensures var ids := w.threads[t].pc.ids;
            && Runs(cfg, w, Deletes(t, |ids|))
            && var v := Exec(cfg, w, Deletes(t, |ids|));
            v.db == EndLogins(w.db, IdsOf(ids)) && v.threads == w.threads[t := w.threads[t].(pc := Finished(Ended))]
    decreases |w.threads[t].pc.ids|
  {
    var ids := w.threads[t].pc.ids;
    FiveDeletes(cfg, w, t);
    var x := Exec(cfg, w, Five(t));
    if |ids| == 1 {
      assert IdsOf(ids) == {ids[0]};
      assert Deletes(t, 1) == Five(t);
    } else {
      DeletesAll(cfg, x, t);
      EndFirst(w.db, ids);
      Join(cfg, w, Five(t), x, Deletes(t, |ids| - 1), Exec(cfg, x, Deletes(t, |ids| - 1)));
    }
  }

  /** endIdpSessions, undisturbed, from its SELECT to its last DELETE. */
  lemma EndingAlone(cfg: Config, w: World, t: Tid, which: Where, ids: seq<Id>) returns (es: seq<Move>)
    requires !At(w, t) && IdsOf(ids) == Selected(w.db, which)
    ensures Runs(cfg, w, es) && Exec(cfg, w, es).db == EndLogins(w.db, Selected(w.db, which))
    ensures At(Exec(cfg, w, es), t) && Exec(cfg, w, es).threads == w.threads[t := Thread("", Finished(Ended))]
  {
    var x := DoSelectWhere(w, t, ids);
    var e := SelectWhere(t, which, ids);
    assert Enabled(cfg, w, e);
    if ids == [] {
      es := [e];
      Stay(cfg, x);
      Then(cfg, w, e, [], x);
      assert Selected(w.db, which) == {};
      EndNone(w.db);
    } else {
      DeletesAll(cfg, x, t);
      es := [e] + Deletes(t, |ids|);
      Then(cfg, w, e, Deletes(t, |ids|), Exec(cfg, x, Deletes(t, |ids|)));
    }
  }

  // ----- refreshing ----------------------------------------------------------------------------------

  /** A step of request t, which is about login id. */
  predicate Own(e: Move, t: Tid, id: Id) {
    (e.FirstLoad? && e.t == t && e.id == id) || (TakesMutex(e) && e.t == t) || e == SelectOwn(t) || e == Delete(t)
  }

  ghost predicate AllOwn(es: seq<Move>, t: Tid, id: Id) {
    forall e :: e in es ==> Own(e, t, id)
  }

  lemma OwnFirst(e: Move, es: seq<Move>, t: Tid, id: Id)
    requires Own(e, t, id) && AllOwn(es, t, id)
    ensures AllOwn([e] + es, t, id)
  {
  }

  lemma OwnEnd(t: Tid, id: Id)
    ensures AllOwn([SelectOwn(t)] + (Five(t) + [Unlock(t)]), t, id)
  {
  }

  lemma OwnSave(t: Tid, id: Id, now: int)
    ensures AllOwn([Update(t, now), SaveUser(t), SaveUser(t), Unlock(t)], t, id) && AllOwn([Unlock(t)], t, id)
  {
  }

  lemma OwnEnter(t: Tid, id: Id, now: int, rest: seq<Move>)
    requires AllOwn(rest, t, id)
    ensures AllOwn([FirstLoad(t, id, now), TakeMutex(t), Lock(t)] + rest, t, id) && AllOwn([FirstLoad(t, id, now)], t, id)
  {
  }

  /** Up to the second load; m is the mutex of the login. */
  lemma Enter(cfg: Config, w: World, t: Tid, id: Id, now: int) returns (x: World)
    requires !At(w, t) && w.held == map[] && id != "" && id in w.db.logins && RefreshDue(w.db.logins[id], now) && 0 <= now
    ensures Leads(cfg, w, [FirstLoad(t, id, now), TakeMutex(t), Lock(t)], x)
    ensures x.db == w.db && x.grants == w.grants && x.minted == w.minted && At(x, t) && x.threads[t].id == id && x.threads[t].pc.Locked?
    ensures id in x.locks && x.held == map[x.threads[t].pc.m := t]
  {
    var a := DoFirstLoad(w, t, id, now);
    var b := DoTakeMutex(a, t);
    x := DoLock(b, t);
    Stay(cfg, x);
    Then(cfg, b, Lock(t), [], x);
    Then(cfg, a, TakeMutex(t), [Lock(t)], x);
    Then(cfg, w, FirstLoad(t, id, now), [TakeMutex(t), Lock(t)], x);
  }

  /** From the decision to end the login to the answer. */
  lemma EndOwn(cfg: Config, w: World, t: Tid)
    requires At(w, t) && w.threads[t].pc.Condemned? && w.threads[t].id in w.db.logins
    ensures var es := [SelectOwn(t)] + (Five(t) + [Unlock(t)]);
            && Runs(cfg, w, es)
            && var v := Exec(cfg, w, es);
            v.db == EndLogins(w.db, {w.threads[t].id}) && At(v, t) && v.threads[t].pc == Finished(Ended)
  {
    var a := DoSelectOwn(w, t);
    FiveDeletes(cfg, a, t);
    var b := Exec(cfg, a, Five(t));
    var v := DoUnlock(b, t);
    Stay(cfg, v);
    Then(cfg, b, Unlock(t), [], v);
    Join(cfg, a, Five(t), b, [Unlock(t)], v);
    Then(cfg, w, SelectOwn(t), Five(t) + [Unlock(t)], v);
  }

  /** From the provider's answer to the request's. */
  lemma Save(cfg: Config, w: World, t: Tid, now: int)
    requires 0 <= now && At(w, t) && w.threads[t].pc.Answered? && w.threads[t].id in w.db.logins && w.threads[t].pc.row == w.db.logins[w.threads[t].id]
    ensures var pc := w.threads[t].pc;
            var next := Refreshed(cfg, pc.row, pc.ident, now);
            var es := [Update(t, now), SaveUser(t), SaveUser(t), Unlock(t)];
            && Runs(cfg, w, es)
            && var v := Exec(cfg, w, es);
            && v.db == w.db.(logins := w.db.logins[w.threads[t].id := next], users := RefreshProfile(w.db.users, pc.row.subject, pc.ident))
            && At(v, t) && v.threads[t].pc == Finished(Alive(next))
  {
    var a := DoUpdate(cfg, w, t, now);
    var b := DoSaveUser(a, t);
    var c := DoSaveUser(b, t);
    var v := DoUnlock(c, t);
    Stay(cfg, v);
    Then(cfg, c, Unlock(t), [], v);
    Then(cfg, b, SaveUser(t), [Unlock(t)], v);
    Then(cfg, a, SaveUser(t), [SaveUser(t), Unlock(t)], v);
    Then(cfg, w, Update(t, now), [SaveUser(t), SaveUser(t), Unlock(t)], v);
  }

  lemma UnlockLast(cfg: Config, w: World, t: Tid)
    requires At(w, t) && w.threads[t].pc.Returning?
    ensures Leads(cfg, w, [Unlock(t)], DoUnlock(w, t))
  {
    Stay(cfg, DoUnlock(w, t));
    Then(cfg, w, Unlock(t), [], DoUnlock(w, t));
  }

  function UserInfoOf(reply: TokenReply): UserInfo {
    if reply.Tokens? then reply.userInfo else NoEndpoint
  }

  /** What follows the token answer. */
  lemma ConcludeAlone(cfg: Config, w: World, t: Tid, now: int) returns (es: seq<Move>)
    requires At(w, t) && w.threads[t].pc.Replied? && w.threads[t].id in w.db.logins && 0 <= now
    requires w.threads[t].pc.row == w.db.logins[w.threads[t].id]
    ensures Runs(cfg, w, es) && AllOwn(es, t, w.threads[t].id)
    ensures var v := Exec(cfg, w, es);
            var pc := w.threads[t].pc;
            && At(v, t) && v.threads[t].pc.Finished?
            && (v.db, v.threads[t].pc.result)
               == AfterReply(cfg, w.db, w.threads[t].id, pc.row, OidcRefresh(cfg, pc.reply, pc.row.refreshToken, pc.row.subject), now)
  {
    var ui, id := UserInfoOf(w.threads[t].pc.reply), w.threads[t].id;
    OwnEnd(t, id);
    OwnSave(t, id, now);
    assert Complete(w.threads[t].pc.reply, ui) == w.threads[t].pc.reply;
    var x := DoConclude(cfg, w, t, ui);
    match x.threads[t].pc {
      case Condemned(m) =>
        EndOwn(cfg, x, t);
        es := [SelectOwn(t)] + (Five(t) + [Unlock(t)]);
      case Returning(m, _) =>
        UnlockLast(cfg, x, t);
        es := [Unlock(t)];
      case Answered(_, _, _) =>
        Save(cfg, x, t, now);
        es := [Update(t, now), SaveUser(t), SaveUser(t), Unlock(t)];
    }
    Then(cfg, w, Conclude(t, ui), es, Exec(cfg, x, es));
    OwnFirst(Conclude(t, ui), es, t, id);
    es := [Conclude(t, ui)] + es;
  }

  /** The provider call and what follows it. */
  lemma CallAlone(cfg: Config, w: World, t: Tid, now: int, reply: TokenReply) returns (es: seq<Move>)
    requires At(w, t) && w.threads[t].pc.Calling? && w.threads[t].id in w.db.logins && w.threads[t].id in w.grants && 0 <= now
    requires w.threads[t].pc.row == w.db.logins[w.threads[t].id]
    requires ProviderMay(w, w.grants[w.threads[t].id], w.threads[t].pc.row.refreshToken, reply, "")
    ensures Runs(cfg, w, es) && AllOwn(es, t, w.threads[t].id)
    ensures var v := Exec(cfg, w, es);
            var row := w.threads[t].pc.row;
            && At(v, t) && v.threads[t].pc.Finished?
            && (v.db, v.threads[t].pc.result)
               == AfterReply(cfg, w.db, w.threads[t].id, row, OidcRefresh(cfg, reply, row.refreshToken, row.subject), now)
  {
    var x := DoCall(w, t, reply, "");
    var rest := ConcludeAlone(cfg, x, t, now);
    Then(cfg, w, Call(t, reply, ""), rest, Exec(cfg, x, rest));
    OwnFirst(Call(t, reply, ""), rest, t, w.threads[t].id);
    es := [Call(t, reply, "")] + rest;
  }

  /** From the second load on. */
  lemma SecondHalf(cfg: Config, w: World, t: Tid, now: int, reply: TokenReply) returns (es: seq<Move>)
    requires At(w, t) && w.threads[t].pc.Locked? && w.threads[t].id in w.db.logins && w.threads[t].id in w.grants && 0 <= now
    requires w.threads[t].id != "" && RefreshDue(w.db.logins[w.threads[t].id], now)
    requires ProviderMay(w, w.grants[w.threads[t].id], w.db.logins[w.threads[t].id].refreshToken, reply, "")
    ensures Runs(cfg, w, es) && AllOwn(es, t, w.threads[t].id)
    ensures var v := Exec(cfg, w, es);
            At(v, t) && v.threads[t].pc.Finished? && (v.db, v.threads[t].pc.result) == FreshLogin(cfg, w.db, w.threads[t].id, now, reply)
  {
    var x := DoSecondLoad(w, t, now);
    if x.threads[t].pc.Condemned? {
      EndOwn(cfg, x, t);
      OwnEnd(t, w.threads[t].id);
      es := [SelectOwn(t)] + (Five(t) + [Unlock(t)]);
    } else {
      es := CallAlone(cfg, x, t, now, reply);
    }
    Then(cfg, w, SecondLoad(t, now), es, Exec(cfg, x, es));
    OwnFirst(SecondLoad(t, now), es, t, w.threads[t].id);
    es := [SecondLoad(t, now)] + es;
  }

  /** A request that nobody disturbs does to the database, and answers, exactly what FreshLogin says. */
  lemma AloneIsFreshLogin(cfg: Config, w: World, t: Tid, id: Id, now: int, reply: TokenReply) returns (es: seq<Move>)
    requires !At(w, t) && w.held == map[] && 0 <= now
    requires id in w.db.logins ==> id in w.grants && ProviderMay(w, w.grants[id], w.db.logins[id].refreshToken, reply, "")
    ensures Runs(cfg, w, es) && AllOwn(es, t, id)
    ensures var v := Exec(cfg, w, es);
            At(v, t) && v.threads[t].pc.Finished? && (v.db, v.threads[t].pc.result) == FreshLogin(cfg, w.db, id, now, reply)
  {
    if id == "" || id !in w.db.logins || !RefreshDue(w.db.logins[id], now) {
      var x := DoFirstLoad(w, t, id, now);
      es := [FirstLoad(t, id, now)];
      Stay(cfg, x);
      Then(cfg, w, FirstLoad(t, id, now), [], x);
    } else {
      var x := Enter(cfg, w, t, id, now);
      var rest := SecondHalf(cfg, x, t, now, reply);
      var first := [FirstLoad(t, id, now), TakeMutex(t), Lock(t)];
      Join(cfg, w, first, x, rest, Exec(cfg, x, rest));
      OwnEnter(t, id, now, rest);
      es := first + rest;
    }
  }

  // ----- undoing a forced refresh ------------------------------------------------------------------------------

  /** The teams of an answer in flight. */
  ghost function InFlight(cfg: Config, th: Thread): seq<Team>
    requires th.pc.Answered? || (th.pc.Replied? && Settled(cfg, th.pc.row, th.pc.reply).Some?)
  {
    if th.pc.Answered? then th.pc.ident.teams else Settled(cfg, th.pc.row, th.pc.reply).value
  }

  /** A request that looks at a login right after a straddling answer was stored over a force. */
  lemma StoreOverForce(cfg: Config, w: World, u: Tid, t: Tid, now: int)
    requires At(w, u) && w.threads[u].pc.Answered? && w.threads[u].id in w.db.logins && w.threads[u].id != "" && !At(w, t) && 0 <= now
    requires !Short(cfg, w.threads[u].pc.ident.expiresIn)
    ensures var es := [Update(u, now), FirstLoad(t, w.threads[u].id, now)];
            && Runs(cfg, w, es)
            && var v := Exec(cfg, w, es);
            && At(v, t) && v.threads[t].pc.Finished? && v.threads[t].pc.result.Alive? && v.threads[t].id == w.threads[u].id
            && v.threads[t].pc.result.row.teams == w.threads[u].pc.ident.teams
  {
    var id := w.threads[u].id;
    LifetimeIs(cfg, w.threads[u].pc.ident.expiresIn, now);
    var b := DoUpdate(cfg, w, u, now);
    var v := DoFirstLoad(b, t, id, now);
    Stay(cfg, v);
    Then(cfg, b, FirstLoad(t, id, now), [], v);
    Then(cfg, w, Update(u, now), [FirstLoad(t, id, now)], v);
  }

  /**
    Whenever a refresh straddles a force, the force can come to nothing: the answer that was in flight is stored over it,
    and the next request to look at the login is let in with its teams, without anyone having asked the provider again.
    now is any time; the clock need not run back.
   */
  lemma StraddlerUndoesForce(cfg: Config, w: World, u: Tid, t: Tid, which: Where, now: int) returns (es: seq<Move>)
    requires At(w, u) && w.threads[u].id in w.db.logins && w.threads[u].id != "" && !At(w, t) && 0 <= now
    requires Straddles(cfg, w.threads[u], true)
    ensures 3 <= |es| <= 4 && es[0] == Force(which) && (|es| == 4 ==> es[1].Conclude?)
    ensures es[|es| - 2..] == [Update(u, now), FirstLoad(t, w.threads[u].id, now)]
    ensures Runs(cfg, w, es)
    ensures var v := Exec(cfg, w, es);
            && At(v, t) && v.threads[t].pc.Finished? && v.threads[t].pc.result.Alive? && v.threads[t].id == w.threads[u].id
            && v.threads[t].pc.result.row.teams == InFlight(cfg, w.threads[u])
  {
    var a := w.(db := ForceRefresh(w.db, which));
    var id := w.threads[u].id;
    var rest;
    if w.threads[u].pc.Answered? {
      rest := [Update(u, now), FirstLoad(t, id, now)];
      StoreOverForce(cfg, a, u, t, now);
    } else {
      rest := ConcludeOverForce(cfg, a, u, t, now);
    }
    Then(cfg, w, Force(which), rest, Exec(cfg, a, rest));
    es := [Force(which)] + rest;
  }

  lemma ConcludeOverForce(cfg: Config, w: World, u: Tid, t: Tid, now: int) returns (es: seq<Move>)
    requires At(w, u) && w.threads[u].pc.Replied? && w.threads[u].id in w.db.logins && w.threads[u].id != "" && !At(w, t) && 0 <= now
    requires Straddles(cfg, w.threads[u], true)
    ensures |es| == 3 && es[0].Conclude? && es[1..] == [Update(u, now), FirstLoad(t, w.threads[u].id, now)]
    ensures Runs(cfg, w, es)
    ensures var v := Exec(cfg, w, es);
            && At(v, t) && v.threads[t].pc.Finished? && v.threads[t].pc.result.Alive? && v.threads[t].id == w.threads[u].id
            && v.threads[t].pc.result.row.teams == InFlight(cfg, w.threads[u])
  {
    var pc := w.threads[u].pc;
    var ui :| AnsweredAfter(cfg, w.threads[u], ui);
    VerdictFacts(cfg, pc.reply, ui, pc.row);
    SettledTeams(cfg, pc.row, pc.reply, ui);
    var b := DoConclude(cfg, w, u, ui);
    StoreOverForce(cfg, b, u, t, now);
    var rest := [Update(u, now), FirstLoad(t, w.threads[u].id, now)];
    Then(cfg, w, Conclude(u, ui), rest, Exec(cfg, b, rest));
    es := [Conclude(u, ui)] + rest;
  }

  // ----- from the start --------------------------------------------------------------------------------------------

  ghost function Worlds(cfg: Config, w: World, es: seq<Move>): seq<World>
    requires Runs(cfg, w, es)
    decreases |es|
  {
    if es == [] then [w] else [w] + Worlds(cfg, Next(cfg, w, es[0]), es[1..])
  }

  lemma {:induction false} WorldsStep(cfg: Config, w: World, es: seq<Move>)
    requires Runs(cfg, w, es)
    ensures var ws := Worlds(cfg, w, es);
            && |ws| == |es| + 1 && ws[0] == w && ws[|es|] == Exec(cfg, w, es)
            && forall i :: 0 <= i < |es| ==> Enabled(cfg, ws[i], es[i]) && ws[i + 1] == Next(cfg, ws[i], es[i])
    decreases |es|
  {
    if es != [] {
      WorldsStep(cfg, Next(cfg, w, es[0]), es[1..]);
    }
  }

  /** What can be run from the start is an interleaving. */
  lemma FromIdle(cfg: Config, es: seq<Move>) returns (r: Trace)
    requires Runs(cfg, IDLE, es)
    ensures Interleaving(cfg, r) && r.es == es && r.ws == Worlds(cfg, IDLE, es) && r.ws[|es|] == Exec(cfg, IDLE, es)
  {
    WorldsStep(cfg, IDLE, es);
    r := Trace(es, Worlds(cfg, IDLE, es));
    forall i: nat | i < |es| ensures TraceAt(cfg, r, i) {
    }
  }

  // ----- a straddled force, from the start -------------------------------------------------------------------------

  /** A login, and a quarter of an hour later a request that gets an answer. */
  const STRADDLE := [LoginStep("login", FIRST, 0), FirstLoad(1, "login", QUARTER), TakeMutex(1), Lock(1), SecondLoad(1, QUARTER),
                     Call(1, RENEWED, "")]

  lemma StraddleBegins() returns (w: World)
    ensures Leads(PLAIN, IDLE, STRADDLE[..3], w)
    ensures w.threads == map[1 := Thread("login", Waiting(0))] && w.held == map[] && w.minted == {"rt0"}
    ensures w.grants == map["login" := Upstream("rt0", true)]
    ensures w.db.logins == map["login" := Login("user", "", "rt0", [Team("a", false)], 0, 0, QUARTER)]
  {
    var w1 := DoLogin(PLAIN, IDLE, "login", FIRST, 0);
    var w2 := DoFirstLoad(w1, 1, "login", QUARTER);
    w := DoTakeMutex(w2, 1);
    Stay(PLAIN, w);
    Then(PLAIN, w2, STRADDLE[2], [], w);
    Then(PLAIN, w1, STRADDLE[1], [STRADDLE[2]], w);
    Then(PLAIN, IDLE, STRADDLE[0], [STRADDLE[1], STRADDLE[2]], w);
    assert STRADDLE[..3] == [STRADDLE[0], STRADDLE[1], STRADDLE[2]];
  }

  lemma JoinStraddle(w3: World, w: World)
    requires Leads(PLAIN, IDLE, STRADDLE[..3], w3) && Leads(PLAIN, w3, [STRADDLE[3], STRADDLE[4], STRADDLE[5]], w)
    ensures Leads(PLAIN, IDLE, STRADDLE, w)
  {
    Join(PLAIN, IDLE, STRADDLE[..3], w3, [STRADDLE[3], STRADDLE[4], STRADDLE[5]], w);
    assert STRADDLE[..3] + [STRADDLE[3], STRADDLE[4], STRADDLE[5]] == STRADDLE;
  }

  lemma StraddleEnds(w3: World) returns (w: World)
    requires w3.threads == map[1 := Thread("login", Waiting(0))] && w3.held == map[] && w3.minted == {"rt0"}
    requires w3.grants == map["login" := Upstream("rt0", true)]
    requires w3.db.logins == map["login" := Login("user", "", "rt0", [Team("a", false)], 0, 0, QUARTER)]
    ensures Leads(PLAIN, w3, [STRADDLE[3], STRADDLE[4], STRADDLE[5]], w)
    ensures w.threads.Keys == {1} && w.threads[1].id == "login" && "login" in w.db.logins
    ensures var pc := w.threads[1].pc;
            pc.Replied? && pc.row.refreshToken == "rt0" && pc.row.subject == "user" && pc.reply == RENEWED
  {
    var w4 := DoLock(w3, 1);
    var w5 := DoSecondLoad(w4, 1, QUARTER);
    w := DoCall(w5, 1, RENEWED, "");
    Stay(PLAIN, w);
    Then(PLAIN, w5, STRADDLE[5], [], w);
    Then(PLAIN, w4, STRADDLE[4], [STRADDLE[5]], w);
    Then(PLAIN, w3, STRADDLE[3], [STRADDLE[4], STRADDLE[5]], w);
  }

  lemma StraddleRuns() returns (w: World)
    ensures Leads(PLAIN, IDLE, STRADDLE, w)
    ensures At(w, 1) && w.threads.Keys == {1} && w.threads[1].id == "login" && "login" in w.db.logins
    ensures Straddles(PLAIN, w.threads[1], true)
  {
    var w3 := StraddleBegins();
    w := StraddleEnds(w3);
    JoinStraddle(w3, w);
    StraddleHolds(w.threads[1]);
  }

  lemma StraddleHolds(th: Thread)
    requires th.pc.Replied? && th.pc.row.refreshToken == "rt0" && th.pc.row.subject == "user" && th.pc.reply == RENEWED
    ensures Straddles(PLAIN, th, true)
  {
    assert AnsweredAfter(PLAIN, th, NoEndpoint);
    assert !Short(PLAIN, 0);
  }

  lemma NobodyAsks(es: seq<Move>)
    requires 3 <= |es| <= 4 && es[0] == Force(All) && (|es| == 4 ==> es[1].Conclude?)
    requires es[|es| - 2..] == [Update(1, QUARTER), FirstLoad(2, "login", QUARTER)]
    ensures var all := STRADDLE + es;
            all[6] == Force(All) && forall c :: 6 <= c < |all| ==> !all[c].Call? && (Reads(all[c]) ==> all[c].now == QUARTER)
  {
    assert es[|es| - 2] == es[|es| - 2..][0] && es[|es| - 1] == es[|es| - 2..][1];
    assert |STRADDLE| == 6;
  }

  /** An interleaving, with a clock that never runs back, in which a forced refresh comes to nothing. */
  lemma ForceUndone() returns (r: Trace, k: nat, t: Tid)
    ensures Interleaving(PLAIN, r) && k < |r.es| && r.es[k] == Force(All) && "login" in r.ws[k].db.logins
    ensures !At(r.ws[k], t)
    ensures var v := r.ws[|r.es|];
            At(v, t) && v.threads[t].id == "login" && v.threads[t].pc.Finished? && v.threads[t].pc.result.Alive?
    ensures forall c :: k <= c < |r.es| ==> !r.es[c].Call? && (Reads(r.es[c]) ==> r.es[c].now == QUARTER)
  {
    var w := StraddleRuns();
    var es := StraddlerUndoesForce(PLAIN, w, 1, 2, All, QUARTER);
    Join(PLAIN, IDLE, STRADDLE, w, es, Exec(PLAIN, w, es));
    r := FromIdle(PLAIN, STRADDLE + es);
    k, t := 6, 2;
    NobodyAsks(es);
    PrefixWorld(PLAIN, IDLE, STRADDLE, es);
    assert r.ws == Worlds(PLAIN, IDLE, STRADDLE + es);
  }

  /** After the first part of a schedule the world is where that part leads. */
  lemma {:induction false} PrefixWorld(cfg: Config, w: World, a: seq<Move>, b: seq<Move>)
    requires Runs(cfg, w, a) && Runs(cfg, w, a + b)
    ensures |Worlds(cfg, w, a + b)| == |a| + |b| + 1 && Worlds(cfg, w, a + b)[|a|] == Exec(cfg, w, a)
    decreases |a|
  {
    WorldsStep(cfg, w, a + b);
    if a != [] {
      assert (a + b)[1..] == a[1..] + b;
      PrefixWorld(cfg, Next(cfg, w, a[0]), a[1..], b);
    }
  }
}
