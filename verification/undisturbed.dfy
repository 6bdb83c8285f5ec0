/**
  Exchanges and approvals that nobody disturbs. Statement by statement they do to the database, and answer, exactly what
  the functions of module OAuth say.
 */
module Undisturbed {
  import opened Tables
  import opened Oidc
  import opened Urls
  import opened Auth
  import opened OAuth
  import opened Threads
  import opened Schedules
  import opened Exchanges

  // ----- playing acts -----------------------------------------------------------------------

  ghost predicate Plays(cfg: Config, j: Joint, acts: seq<Act>)
    decreases |acts|
  {
    acts != [] ==> May(cfg, j, acts[0]) && Plays(cfg, Do(cfg, j, acts[0]), acts[1..])
  }

  ghost function Played(cfg: Config, j: Joint, acts: seq<Act>): Joint
    requires Plays(cfg, j, acts)
    decreases |acts|
  {
    if acts == [] then j else Played(cfg, Do(cfg, j, acts[0]), acts[1..])
  }

  /** acts take j to v. */
  ghost predicate Takes(cfg: Config, j: Joint, acts: seq<Act>, v: Joint) {
    Plays(cfg, j, acts) && Played(cfg, j, acts) == v
  }

  lemma Rest(cfg: Config, j: Joint)
    ensures Takes(cfg, j, [], j)
  {
  }

  lemma First(cfg: Config, j: Joint, a: Act, acts: seq<Act>, v: Joint)
    requires May(cfg, j, a) && Takes(cfg, Do(cfg, j, a), acts, v)
    ensures Takes(cfg, j, [a] + acts, v)
  {
    assert ([a] + acts)[1..] == acts;
  }

  lemma {:induction false} Joined(cfg: Config, j: Joint, a: seq<Act>, x: Joint, b: seq<Act>, v: Joint)
    requires Takes(cfg, j, a, x) && Takes(cfg, x, b, v)
    ensures Takes(cfg, j, a + b, v)
    decreases |a|
  {
    if a == [] {
      assert a + b == b;
    } else {
      Joined(cfg, Do(cfg, j, a[0]), a[1..], x, b, v);
      assert [a[0]] + (a[1..] + b) == a + b;
      First(cfg, j, a[0], a[1..] + b, v);
    }
  }

  lemma Single(cfg: Config, j: Joint, a: Act)
    requires May(cfg, j, a)
    ensures Takes(cfg, j, [a], Do(cfg, j, a))
  {
    Rest(cfg, Do(cfg, j, a));
    First(cfg, j, a, [], Do(cfg, j, a));
  }

  // ----- the check of the login -----------------------------------------------------------------

  function AsActs(es: seq<Move>): seq<Act> {
    if es == [] then [] else [Sys(es[0])] + AsActs(es[1..])
  }

  ghost predicate Checks(j: Joint, t: Tid, id: Id) {
    t in j.flows && Grants(j.flows[t]) && j.flows[t].stage == Checking && LoginOf(j.flows[t].errand) == id
  }

  /** The steps of freshIdpSession, run under the name of a grant. */
  lemma {:induction false} Lift(cfg: Config, j: Joint, t: Tid, id: Id, es: seq<Move>)
    requires Runs(cfg, j.w, es) && AllOwn(es, t, id) && Checks(j, t, id)
    ensures Takes(cfg, j, AsActs(es), j.(w := Exec(cfg, j.w, es)))
    decreases |es|
  {
    if es == [] {
      Rest(cfg, j);
    } else {
      assert Own(es[0], t, id);
      assert May(cfg, j, Sys(es[0]));
      var x := j.(w := Threads.Next(cfg, j.w, es[0]));
      Lift(cfg, x, t, id, es[1..]);
      First(cfg, j, Sys(es[0]), AsActs(es[1..]), j.(w := Exec(cfg, j.w, es)));
    }
  }

  /** What checkIdpSessionForGrant makes of the answer. */
  function Dead(r: FreshResult): Option<ErrorCode> {
    match r
    case Alive(_) => None
    case Ended => Some(InvalidGrant)
    case Unavailable => Some(TemporarilyUnavailable)
  }

  /** The provider can give this answer about the login. */
  ghost predicate MayReply(w: World, id: Id, reply: TokenReply) {
    id in w.db.logins ==> id in w.grants && ProviderMay(w, w.grants[id], w.db.logins[id].refreshToken, reply, "")
  }

  lemma CheckAlone(cfg: Config, j: Joint, t: Tid, now: int, reply: TokenReply) returns (acts: seq<Act>, v: Joint)
    requires t in j.flows && Grants(j.flows[t]) && j.flows[t].stage == Checking && !At(j.w, t) && j.w.held == map[] && 0 <= now
    requires MayReply(j.w, LoginOf(j.flows[t].errand), reply)
    ensures Takes(cfg, j, acts, v) && At(v.w, t) && v.w.threads[t].pc.Finished?
    ensures (v.w.db, Dead(v.w.threads[t].pc.result)) == CheckLogin(cfg, j.w.db, LoginOf(j.flows[t].errand), now, reply)
    ensures v.flows == j.flows[t := Flow(j.flows[t].errand, if !v.w.threads[t].pc.result.Alive? then Stopped else if Renews(j.flows[t]) then Checked else Minting)]
  {
    var id := LoginOf(j.flows[t].errand);
    var es := AloneIsFreshLogin(cfg, j.w, t, id, now, reply);
    var x := j.(w := Exec(cfg, j.w, es));
    Lift(cfg, j, t, id, es);
    Single(cfg, x, Check(t));
    v := DoCheck(x, t);
    acts := AsActs(es) + [Check(t)];
    Joined(cfg, j, AsActs(es), x, [Check(t)], v);
  }

  // ----- tokens ------------------------------------------------------------------------------------

  lemma MintAlone(cfg: Config, j: Joint, t: Tid, now: int, access: Id, refresh: Id) returns (acts: seq<Act>, v: Joint)
    requires t in j.flows && Grants(j.flows[t]) && j.flows[t].stage == Minting
    requires Unissued(j.w, access) && Unissued(j.w, refresh) && access != refresh
    ensures Takes(cfg, j, acts, v) && v.flows == j.flows[t := Flow(j.flows[t].errand, Minted(access, refresh))]
    ensures var (p, q) := (NewToken(j.flows[t].errand, Access, now), NewToken(j.flows[t].errand, Refresh, now));
            v.w == j.w.(db := j.w.db.(tokens := j.w.db.tokens[access := p][refresh := q], issued := j.w.db.issued + {access, refresh}))
  {
    var x := DoInsert(j, t, access, Access, now, HalfMinted(access));
    v := DoInsert(x, t, refresh, Refresh, now, Minted(access, refresh));
    assert j.w.db.issued + {access} + {refresh} == j.w.db.issued + {access, refresh};
    assert v.flows == j.flows[t := Flow(j.flows[t].errand, Minted(access, refresh))];
    Single(cfg, x, InsertRefresh(t, refresh, now));
    First(cfg, j, InsertAccess(t, access, now), [InsertRefresh(t, refresh, now)], v);
    acts := [InsertAccess(t, access, now)] + [InsertRefresh(t, refresh, now)];
  }

  // ----- whole requests ----------------------------------------------------------------------------

  /** What the client of a finished exchange is told. */
  ghost predicate Told(j: Joint, t: Tid, a: Answer) {
    t in j.flows && match j.flows[t]
                    case Denied => a.Failed?
                    case Flow(_, Stopped) => At(j.w, t) && j.w.threads[t].pc.Finished? && a.Failed? && Some(a.error) == Dead(j.w.threads[t].pc.result)
                    case Flow(_, Minted(access, refresh)) => a.Issued? && a.access == access && a.refresh == refresh
                    case Flow(_, Sent(code)) => a.CodeSent? && a.code == code
                    case _ => false
  }

  ghost predicate NewPair(w: World, access: Id, refresh: Id) {
    Unissued(w, access) && Unissued(w, refresh) && access != refresh
  }

  lemma CheckLoginIssues(cfg: Config, s: State, login: Id, now: int, reply: TokenReply)
    ensures CheckLogin(cfg, s, login, now, reply).0.issued == s.issued
  {
  }

  /** From the check of the login on, for a code. */
  lemma GrantCode(cfg: Config, j: Joint, t: Tid, now: int, reply: TokenReply, access: Id, refresh: Id) returns (acts: seq<Act>, v: Joint)
    requires t in j.flows && Redeems(j.flows[t]) && j.flows[t].stage == Checking && !At(j.w, t) && j.w.held == map[] && 0 <= now
    requires MayReply(j.w, LoginOf(j.flows[t].errand), reply) && NewPair(j.w, access, refresh)
    ensures Takes(cfg, j, acts, v)
    ensures var c := j.flows[t].errand.row;
            var (db, a) := Grant(cfg, j.w.db, c.clientId, c.subject, c.scope, c.idp, now, reply, access, refresh, None);
            v.w.db == db && Told(v, t, a)
  {
    var first, x := CheckAlone(cfg, j, t, now, reply);
    CheckLoginIssues(cfg, j.w.db, LoginOf(j.flows[t].errand), now, reply);
    if x.w.threads[t].pc.result.Alive? {
      var rest, y := MintAlone(cfg, x, t, now, access, refresh);
      Joined(cfg, j, first, x, rest, y);
      acts, v := first + rest, y;
    } else {
      acts, v := first, x;
    }
  }

  /** An exchange of a code that nobody disturbs. */
  lemma RedeemAlone(cfg: Config, j: Joint, t: Tid, input: CodeInput, now: int, reply: TokenReply, access: Id, refresh: Id)
    returns (acts: seq<Act>, v: Joint)
    requires CanBegin(j, t) && j.w.held == map[] && 0 <= now && NewPair(j.w, access, refresh)
    requires input.code in j.w.db.codes ==> MayReply(j.w, j.w.db.codes[input.code].idp, reply)
    ensures Takes(cfg, j, acts, v)
    ensures var (db, a) := RedeemCode(cfg, j.w.db, input, now, reply, access, refresh);
            v.w.db == db && Told(v, t, a)
  {
    var x := DoSelectCode(cfg, j, t, input, now);
    Single(cfg, j, SelectCode(t, input, now));
    if x.flows[t].Denied? {
      acts, v := [SelectCode(t, input, now)], x;
    } else {
      var y := DoUseUp(x, t);
      var rest;
      rest, v := GrantCode(cfg, y, t, now, reply, access, refresh);
      First(cfg, x, UseUp(t), rest, v);
      First(cfg, j, SelectCode(t, input, now), [UseUp(t)] + rest, v);
      acts := [SelectCode(t, input, now)] + ([UseUp(t)] + rest);
    }
  }

  lemma GiveUpAndMint(cfg: Config, j: Joint, t: Tid, now: int, access: Id, refresh: Id) returns (acts: seq<Act>, v: Joint)
    requires t in j.flows && Renews(j.flows[t]) && j.flows[t].stage == Checked && NewPair(j.w, access, refresh)
    ensures Takes(cfg, j, acts, v) && v.flows == j.flows[t := Flow(j.flows[t].errand, Minted(access, refresh))]
    ensures var o := j.flows[t].errand.old_;
            v.w.db == OAuth.MintTokens(RevokeToken(j.w.db, j.flows[t].errand.token), o.clientId, o.subject, o.scope, o.idp, now, access, refresh).0
  {
    var x := DoGiveUp(j, t);
    var rest;
    rest, v := MintAlone(cfg, x, t, now, access, refresh);
    assert v.flows == j.flows[t := Flow(j.flows[t].errand, Minted(access, refresh))];
    First(cfg, j, GiveUp(t), rest, v);
    acts := [GiveUp(t)] + rest;
  }

  lemma GrantRenewal(cfg: Config, j: Joint, t: Tid, now: int, reply: TokenReply, access: Id, refresh: Id) returns (acts: seq<Act>, v: Joint)
    requires t in j.flows && Renews(j.flows[t]) && j.flows[t].stage == Checking && !At(j.w, t) && j.w.held == map[] && 0 <= now
    requires MayReply(j.w, LoginOf(j.flows[t].errand), reply) && NewPair(j.w, access, refresh)
    ensures Takes(cfg, j, acts, v)
    ensures var (token, o) := (j.flows[t].errand.token, j.flows[t].errand.old_);
            var (db, a) := Grant(cfg, j.w.db, o.clientId, o.subject, o.scope, o.idp, now, reply, access, refresh, Some(token));
            v.w.db == db && Told(v, t, a)
  {
    var first, x := CheckAlone(cfg, j, t, now, reply);
    CheckLoginIssues(cfg, j.w.db, LoginOf(j.flows[t].errand), now, reply);
    if x.w.threads[t].pc.result.Alive? {
      var rest, y := GiveUpAndMint(cfg, x, t, now, access, refresh);
      Joined(cfg, j, first, x, rest, y);
      acts, v := first + rest, y;
    } else {
      acts, v := first, x;
    }
  }

  /** A rotation of a refresh token that nobody disturbs. */
  lemma RenewAlone(cfg: Config, j: Joint, t: Tid, clientId: Url, token: Id, now: int, reply: TokenReply, access: Id, refresh: Id)
    returns (acts: seq<Act>, v: Joint)
    requires CanBegin(j, t) && j.w.held == map[] && 0 <= now && NewPair(j.w, access, refresh)
    requires token in j.w.db.tokens ==> MayReply(j.w, j.w.db.tokens[token].idp, reply)
    ensures Takes(cfg, j, acts, v)
    ensures var (db, a) := RenewToken(cfg, j.w.db, clientId, token, now, reply, access, refresh);
            v.w.db == db && Told(v, t, a)
  {
    var x := DoSelectToken(j, t, clientId, token, now);
    Single(cfg, j, SelectToken(t, clientId, token, now));
    if x.flows[t].Denied? {
      acts, v := [SelectToken(t, clientId, token, now)], x;
    } else {
      var rest;
      rest, v := GrantRenewal(cfg, x, t, now, reply, access, refresh);
      First(cfg, j, SelectToken(t, clientId, token, now), rest, v);
      acts := [SelectToken(t, clientId, token, now)] + rest;
    }
  }

  lemma SendAlone(cfg: Config, j: Joint, t: Tid, now: int, code: Id) returns (acts: seq<Act>, v: Joint)
    requires t in j.flows && Approves(j.flows[t]) && j.flows[t].stage == Selected && Unissued(j.w, code)
    ensures Takes(cfg, j, acts, v) && v.flows == j.flows[t := Flow(j.flows[t].errand, Sent(code))]
    ensures var e := j.flows[t].errand;
            v.w == j.w.(db := j.w.db.(codes := j.w.db.codes[code := NewCode(e, now)], issued := j.w.db.issued + {code},
                                      requests := j.w.db.requests - {e.request}))
  {
    var x := DoInsertCode(j, t, code, now);
    v := DoDropRequest(x, t);
    assert v.flows == j.flows[t := Flow(j.flows[t].errand, Sent(code))];
    Single(cfg, x, DropRequest(t));
    First(cfg, j, InsertCode(t, code, now), [DropRequest(t)], v);
    acts := [InsertCode(t, code, now)] + [DropRequest(t)];
  }

  /** An approval that nobody disturbs, by a session let in through visit; an expired request is deleted by its load. */
  lemma ApproveAlone(cfg: Config, j: Joint, t: Tid, r: Id, sid: Id, visit: Tid, now: int, code: Id) returns (acts: seq<Act>, v: Joint)
    requires CanBegin(j, t) && visit in j.w.threads && j.w.threads[visit].pc.Finished? && j.w.threads[visit].pc.result.Alive?
    requires Unissued(j.w, code) && j.w.db.requests.Keys <= j.w.db.issued
    ensures Takes(cfg, j, acts, v)
    ensures var (db, a) := CompleteAuthz(j.w.db, r, sid, j.w.threads[visit].pc.result.row.subject, j.w.threads[visit].id, now, code);
            v.w.db == db && Told(v, t, a)
  {
    var a := SelectRequest(t, r, sid, visit, now);
    var x := DoSelectRequest(j, t, r, sid, visit, now);
    if !x.flows[t].Denied? {
      var rest;
      rest, v := SendAlone(cfg, x, t, now, code);
      First(cfg, j, a, rest, v);
      acts := [a] + rest;
    } else if r in j.w.db.requests && j.w.db.requests[r].expiresAt < now {
      v := Write(x, DoAlone(x.w.db, Drop(r)));
      Single(cfg, x, Drop(r));
      First(cfg, j, a, [Drop(r)], v);
      acts := [a] + [Drop(r)];
    } else {
      v := x;
      Single(cfg, j, a);
      acts := [a];
    }
  }
}
