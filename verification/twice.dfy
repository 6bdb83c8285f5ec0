/**
  Overlaps that happen: one story from the start in which one request gives two codes, one code two pairs of tokens, and
  one refresh token two more; and one in which a token outlives its login.
 */
module Twice {
  import opened Tables
  import opened Oidc
  import opened Urls
  import opened Auth
  import opened OAuth
  import opened Threads
  import opened Exchanges
  import opened Examples

  // ----- stories, step by step ---------------------------------------------------------------

  ghost predicate EndsIn(cfg: Config, s: Story, j: Joint) {
    Happens(cfg, s) && s.js[|s.acts|] == j
  }

  /** Some story leads to j. */
  ghost predicate Reached(cfg: Config, j: Joint) {
    exists s :: EndsIn(cfg, s, j)
  }

  lemma Play(cfg: Config, j: Joint, a: Act) returns (next: Joint)
    requires Reached(cfg, j) && May(cfg, j, a)
    ensures next == Do(cfg, j, a) && Reached(cfg, next)
  {
    next := Do(cfg, j, a);
    var s :| EndsIn(cfg, s, j);
    var more := Story(s.acts + [a], s.js + [next]);
    forall i: nat | i < |more.acts| ensures StoryAt(cfg, more, i) {
      assert i < |s.acts| ==> StoryAt(cfg, s, i);
    }
    assert EndsIn(cfg, more, next);
  }

  lemma StartIsReached(cfg: Config)
    ensures Reached(cfg, START)
  {
    assert EndsIn(cfg, Story([], [START]), START);
  }

  lemma ToStory(cfg: Config, j: Joint) returns (s: Story)
    requires Reached(cfg, j)
    ensures EndsIn(cfg, s, j)
  {
    s :| EndsIn(cfg, s, j);
  }

  // ----- the cast ---------------------------------------------------------------------------------

  const ROW := Login("user", "", "rt0", [Team("a", false)], 0, 0, QUARTER)
  const ASKED := Request(CLIENT, BACK, "", "", "secret", "S256", REQUEST_TTL, "")
  const SHOWN := ASKED.(session := "session")
  const CODE := Code(CLIENT, "user", BACK, "secret", "S256", "", CODE_TTL, false, "login")
  const INPUT := CodeInput(CLIENT, "code1", BACK, "secret", "")
  const EARLY: set<Id> := {"login", "session", "request", "code1", "code2"}
  const LET_IN := Finished(Alive(ROW))

  /** Signed in. */
  ghost predicate SignedIn(j: Joint) {
    && j.flows == map[]
    && j.w.threads == map[0 := Thread("login", LET_IN)] && j.w.db.logins == map["login" := ROW]
    && j.w.db.requests == map[] && j.w.db.codes == map[] && j.w.db.tokens == map[]
    && j.w.db.issued == {"login"}
  }

  lemma Opening() returns (j: Joint)
    ensures Reached(PLAIN, j) && SignedIn(j)
  {
    StartIsReached(PLAIN);
    j := Play(PLAIN, START, Sys(LoginStep("login", FIRST, 0)));
    assert j.w.db.logins == map["login" := ROW];
    j := Play(PLAIN, j, Sys(FirstLoad(0, "login", 0)));
  }

  /** And the consent page shown. */
  ghost predicate Shown(j: Joint) {
    && j.flows == map[]
    && j.w.threads == map[0 := Thread("login", LET_IN)] && j.w.db.logins == map["login" := ROW]
    && j.w.db.requests == map["request" := SHOWN] && j.w.db.codes == map[] && j.w.db.tokens == map[]
    && j.w.db.issued == {"login", "session", "request"}
  }

  lemma Showing(i: Joint) returns (j: Joint)
    requires Reached(PLAIN, i) && SignedIn(i)
    ensures Reached(PLAIN, j) && Shown(j)
  {
    j := Play(PLAIN, i, OpenSession("session", Session("user", SESSION_TTL, "login")));
    j := AskAndShow(j);
  }

  lemma AskAndShow(i: Joint) returns (j: Joint)
    requires Reached(PLAIN, i) && Unissued(i.w, "request") && i.w.db.requests == map[]
    ensures Reached(PLAIN, j) && j.flows == i.flows
    ensures j.w == i.w.(db := i.w.db.(requests := map["request" := SHOWN], issued := i.w.db.issued + {"request"}))
  {
    j := Play(PLAIN, i, Ask("request", ASKED));
    j := Play(PLAIN, j, Show("request", "session"));
    assert j.w.db.requests == map["request" := SHOWN];
  }

  const APPROVAL := Approval("request", SHOWN, "user", "login")

  lemma BothSelectRequest(i: Joint) returns (j: Joint)
    requires Reached(PLAIN, i) && Shown(i)
    ensures Reached(PLAIN, j) && j.w == i.w && j.flows == map[1 := Flow(APPROVAL, Selected), 2 := Flow(APPROVAL, Selected)]
  {
    j := Play(PLAIN, i, SelectRequest(1, "request", "session", 0, 0));
    j := Play(PLAIN, j, SelectRequest(2, "request", "session", 0, 0));
  }

  lemma BothInsertCode(i: Joint) returns (j: Joint)
    requires Reached(PLAIN, i) && i.flows == map[1 := Flow(APPROVAL, Selected), 2 := Flow(APPROVAL, Selected)]
    requires i.w.db.codes == map[] && i.w.db.issued == {"login", "session", "request"}
    ensures Reached(PLAIN, j) && j.w == i.w.(db := j.w.db) && j.w.db == i.w.db.(codes := j.w.db.codes, issued := j.w.db.issued)
    ensures j.flows == map[1 := Flow(APPROVAL, Inserted("code1")), 2 := Flow(APPROVAL, Inserted("code2"))]
    ensures j.w.db.codes == map["code1" := CODE, "code2" := CODE]
    ensures j.w.db.issued == EARLY
  {
    j := InsertOneCode(i, 1, "code1");
    j := InsertOneCode(j, 2, "code2");
  }

  lemma InsertOneCode(i: Joint, t: Tid, code: Id) returns (j: Joint)
    requires Reached(PLAIN, i) && t in i.flows && i.flows[t] == Flow(APPROVAL, Selected) && Unissued(i.w, code)
    ensures Reached(PLAIN, j) && j.w == i.w.(db := j.w.db) && j.flows == i.flows[t := Flow(APPROVAL, Inserted(code))]
    ensures j.w.db == i.w.db.(codes := i.w.db.codes[code := CODE], issued := i.w.db.issued + {code})
  {
    j := Play(PLAIN, i, InsertCode(t, code, 0));
  }

  /** Two codes from one request. */
  ghost predicate TwoCodes(j: Joint) {
    && j.flows == map[1 := Flow(APPROVAL, Sent("code1")), 2 := Flow(APPROVAL, Sent("code2"))]
    && j.w.threads == map[0 := Thread("login", LET_IN)] && j.w.db.logins == map["login" := ROW]
    && j.w.db.codes == map["code1" := CODE, "code2" := CODE] && j.w.db.tokens == map[]
    && j.w.db.issued == EARLY
  }

  lemma BothSend(i: Joint) returns (j: Joint)
    requires Reached(PLAIN, i) && Shown(i)
    ensures Reached(PLAIN, j) && TwoCodes(j)
  {
    j := BothSelectRequest(i);
    j := BothInsertCode(j);
    j := Play(PLAIN, j, DropRequest(1));
    j := Play(PLAIN, j, DropRequest(2));
  }

  /** One request approved twice at once, by the session it was shown to: two codes. */
  lemma RequestGivesTwoCodes() returns (s: Story)
    ensures Happens(PLAIN, s) && TwoCodes(s.js[|s.acts|])
  {
    var j := Opening();
    j := Showing(j);
    j := BothSend(j);
    s := ToStory(PLAIN, j);
  }

  // ----- one code, redeemed twice ---------------------------------------------------------------------

  const REDEEM := Redeem("code1", CODE)

  ghost predicate CodeReady(j: Joint) {
    "code1" in j.w.db.codes && j.w.db.codes["code1"] == CODE
  }

  lemma BothSelectCode(i: Joint) returns (j: Joint)
    requires Reached(PLAIN, i) && CodeReady(i) && CanBegin(i, 3) && CanBegin(i, 4)
    ensures Reached(PLAIN, j) && j.w == i.w && j.flows == i.flows[3 := Flow(REDEEM, Selected)][4 := Flow(REDEEM, Selected)]
  {
    j := SelectOneCode(i, 3);
    j := SelectOneCode(j, 4);
  }

  lemma SelectOneCode(i: Joint, t: Tid) returns (j: Joint)
    requires Reached(PLAIN, i) && CodeReady(i) && CanBegin(i, t)
    ensures Reached(PLAIN, j) && j.w == i.w && j.flows == i.flows[t := Flow(REDEEM, Selected)]
  {
    j := Play(PLAIN, i, SelectCode(t, INPUT, 0));
  }

  lemma UseOneUp(i: Joint, t: Tid, e: Errand) returns (j: Joint)
    requires Reached(PLAIN, i) && t in i.flows && i.flows[t] == Flow(e, Selected) && e.Redeem?
    ensures Reached(PLAIN, j) && j.w == i.w.(db := i.w.db.(codes := j.w.db.codes)) && j.flows == i.flows[t := Flow(e, Checking)]
  {
    j := Play(PLAIN, i, UseUp(t));
  }

  lemma BothUseUp(i: Joint, t: Tid, u: Tid, e: Errand) returns (j: Joint)
    requires Reached(PLAIN, i) && t in i.flows && u in i.flows && t != u
    requires i.flows[t] == i.flows[u] == Flow(e, Selected) && e.Redeem?
    ensures Reached(PLAIN, j) && j.w == i.w.(db := i.w.db.(codes := j.w.db.codes))
    ensures j.flows == i.flows[t := Flow(e, Checking)][u := Flow(e, Checking)]
  {
    j := UseOneUp(i, t, e);
    j := UseOneUp(j, u, e);
  }

  /** Two checks of the login, neither of which has to ask the provider. */
  lemma BothCheck(i: Joint, t: Tid, u: Tid, e: Errand, to: Stage) returns (j: Joint)
    requires Reached(PLAIN, i) && t != u && t in i.flows && u in i.flows && t !in i.w.threads && u !in i.w.threads
    requires i.flows[t] == i.flows[u] == Flow(e, Checking) && LoginOf(e) == "login" && i.w.db.logins == map["login" := ROW]
    requires (e.Redeem? && to == Minting) || (e.Renew? && to == Checked)
    ensures Reached(PLAIN, j) && j.w == i.w.(threads := j.w.threads)
    ensures j.w.threads == i.w.threads[t := Thread("login", LET_IN)][u := Thread("login", LET_IN)]
    ensures j.flows == i.flows[t := Flow(e, to)][u := Flow(e, to)]
  {
    j := OneChecks(i, t, e, to);
    j := OneChecks(j, u, e, to);
  }

  lemma OneChecks(i: Joint, t: Tid, e: Errand, to: Stage) returns (j: Joint)
    requires Reached(PLAIN, i) && t in i.flows && t !in i.w.threads && i.flows[t] == Flow(e, Checking)
    requires LoginOf(e) == "login" && i.w.db.logins == map["login" := ROW]
    requires (e.Redeem? && to == Minting) || (e.Renew? && to == Checked)
    ensures Reached(PLAIN, j) && j.w == i.w.(threads := i.w.threads[t := Thread("login", LET_IN)])
    ensures j.flows == i.flows[t := Flow(e, to)]
  {
    j := Play(PLAIN, i, Sys(FirstLoad(t, "login", 0)));
    j := Play(PLAIN, j, Check(t));
  }

  datatype Pair = Pair(access: Id, refresh: Id)

  ghost predicate FreshPair(issued: set<Id>, p: Pair) {
    p.access != "" && p.refresh != "" && p.access != p.refresh && p.access !in issued && p.refresh !in issued
  }

  /** Four new ids. */
  ghost predicate FreshPairs(issued: set<Id>, p: Pair, q: Pair) {
    FreshPair(issued, p) && FreshPair(issued + {p.access, p.refresh}, q)
  }

  /** A grant inserts its pair of tokens. */
  lemma InsertPair(i: Joint, t: Tid, e: Errand, p: Pair) returns (j: Joint)
    requires Reached(PLAIN, i) && t in i.flows && i.flows[t] == Flow(e, Minting) && (e.Redeem? || e.Renew?)
    requires FreshPair(i.w.db.issued, p)
    ensures Reached(PLAIN, j) && j.w == i.w.(db := j.w.db) && j.flows == i.flows[t := Flow(e, Minted(p.access, p.refresh))]
    ensures j.w.db == i.w.db.(tokens := j.w.db.tokens, issued := i.w.db.issued + {p.access, p.refresh})
    ensures j.w.db.tokens == i.w.db.tokens[p.access := NewToken(e, Access, 0)][p.refresh := NewToken(e, Refresh, 0)]
  {
    j := Play(PLAIN, i, InsertAccess(t, p.access, 0));
    j := Play(PLAIN, j, InsertRefresh(t, p.refresh, 0));
    assert j.w.db.issued == i.w.db.issued + {p.access, p.refresh};
    assert j.flows == i.flows[t := Flow(e, Minted(p.access, p.refresh))];
  }

  lemma BothInsert(i: Joint, t: Tid, u: Tid, e: Errand, p: Pair, q: Pair) returns (j: Joint)
    requires Reached(PLAIN, i) && t != u && t in i.flows && u in i.flows && i.flows[t] == i.flows[u] == Flow(e, Minting)
    requires (e.Redeem? || e.Renew?) && FreshPairs(i.w.db.issued, p, q)
    ensures Reached(PLAIN, j) && j.flows == i.flows[t := Flow(e, Minted(p.access, p.refresh))][u := Flow(e, Minted(q.access, q.refresh))]
    ensures j.w.threads == i.w.threads && j.w.db.logins == i.w.db.logins
    ensures j.w.db.issued == i.w.db.issued + {p.access, p.refresh} + {q.access, q.refresh}
    ensures p.refresh in j.w.db.tokens && q.refresh in j.w.db.tokens
    ensures j.w.db.tokens[p.refresh] == j.w.db.tokens[q.refresh] == NewToken(e, Refresh, 0)
  {
    j := InsertPair(i, t, e, p);
    j := InsertPair(j, u, e, q);
  }

  /** Requests 3 and 4 both got tokens for the one code, and both refresh tokens are live. */
  ghost predicate TwoPairs(j: Joint, e: Errand, p: Pair, q: Pair) {
    && e.Redeem? && p.refresh != q.refresh
    && 3 in j.flows && j.flows[3] == Flow(e, Minted(p.access, p.refresh))
    && 4 in j.flows && j.flows[4] == Flow(e, Minted(q.access, q.refresh))
    && CanBegin(j, 5) && CanBegin(j, 6) && j.w.db.logins == map["login" := ROW]
    && p.refresh in j.w.db.tokens && j.w.db.tokens[p.refresh] == NewToken(e, Refresh, 0)
    && q.refresh in j.w.db.tokens && j.w.db.tokens[q.refresh] == NewToken(e, Refresh, 0)
  }

  const P3 := Pair("at3", "rt3")
  const P4 := Pair("at4", "rt4")

  lemma FreeYet()
    ensures FreshPairs(EARLY, P3, P4)
  {
  }

  lemma BothLetThrough(i: Joint, e: Errand) returns (j: Joint)
    requires Reached(PLAIN, i) && 3 in i.flows && 4 in i.flows && i.flows[3] == i.flows[4] == Flow(e, Selected)
    requires e.Redeem? && LoginOf(e) == "login" && i.w.db.logins == map["login" := ROW] && 3 !in i.w.threads && 4 !in i.w.threads
    ensures Reached(PLAIN, j) && j.flows == i.flows[3 := Flow(e, Minting)][4 := Flow(e, Minting)]
    ensures j.w.threads.Keys == i.w.threads.Keys + {3, 4} && j.w.db == i.w.db.(codes := j.w.db.codes)
  {
    j := BothUseUp(i, 3, 4, e);
    j := BothCheck(j, 3, 4, e, Minting);
  }

  /** What of two codes it takes to redeem the first. */
  ghost predicate OneCode(j: Joint) {
    && CodeReady(j) && CanBegin(j, 3) && CanBegin(j, 4) && CanBegin(j, 5) && CanBegin(j, 6)
    && j.w.db.logins == map["login" := ROW] && j.w.db.issued == EARLY
  }

  lemma OneOfTwo(j: Joint)
    requires TwoCodes(j)
    ensures OneCode(j)
  {
  }

  lemma BothRedeemOne(i: Joint, p: Pair, q: Pair) returns (j: Joint)
    requires Reached(PLAIN, i) && OneCode(i) && FreshPairs(i.w.db.issued, p, q)
    ensures Reached(PLAIN, j) && TwoPairs(j, REDEEM, p, q)
    ensures j.w.db.issued == i.w.db.issued + {p.access, p.refresh} + {q.access, q.refresh}
  {
    j := BothSelectCode(i);
    j := BothGranted(j, REDEEM, p, q);
  }

  lemma BothGranted(i: Joint, e: Errand, p: Pair, q: Pair) returns (j: Joint)
    requires Reached(PLAIN, i) && 3 in i.flows && 4 in i.flows && i.flows[3] == i.flows[4] == Flow(e, Selected)
    requires e.Redeem? && LoginOf(e) == "login" && i.w.db.logins == map["login" := ROW] && 3 !in i.w.threads && 4 !in i.w.threads
    requires CanBegin(i, 5) && CanBegin(i, 6) && FreshPairs(i.w.db.issued, p, q)
    ensures Reached(PLAIN, j) && TwoPairs(j, e, p, q)
    ensures j.w.db.issued == i.w.db.issued + {p.access, p.refresh} + {q.access, q.refresh}
  {
    j := BothLetThrough(i, e);
    j := BothInsert(j, 3, 4, e, p, q);
  }

  /** One code exchanged twice at once: two pairs of tokens, both refresh tokens live. */
  lemma CodeGivesTwoPairs() returns (s: Story)
    ensures Happens(PLAIN, s) && TwoPairs(s.js[|s.acts|], REDEEM, P3, P4)
  {
    var j := Opening();
    j := Showing(j);
    j := BothSend(j);
    OneOfTwo(j);
    FreeYet();
    j := BothRedeemOne(j, P3, P4);
    s := ToStory(PLAIN, j);
  }

  // ----- one refresh token, rotated twice -----------------------------------------------------------------

  function Renewal(p: Pair): Errand {
    Renew(p.refresh, NewToken(REDEEM, Refresh, 0))
  }

  lemma SelectOneToken(i: Joint, t: Tid, p: Pair) returns (j: Joint)
    requires Reached(PLAIN, i) && CanBegin(i, t) && p.refresh in i.w.db.tokens && i.w.db.tokens[p.refresh] == NewToken(REDEEM, Refresh, 0)
    ensures Reached(PLAIN, j) && j.w == i.w && j.flows == i.flows[t := Flow(Renewal(p), Checking)]
  {
    j := Play(PLAIN, i, SelectToken(t, CLIENT, p.refresh, 0));
  }

  lemma BothGiveUp(i: Joint, e: Errand) returns (j: Joint)
    requires Reached(PLAIN, i) && 5 in i.flows && 6 in i.flows && i.flows[5] == i.flows[6] == Flow(e, Checked) && e.Renew?
    ensures Reached(PLAIN, j) && j.w == i.w.(db := i.w.db.(tokens := j.w.db.tokens))
    ensures j.flows == i.flows[5 := Flow(e, Minting)][6 := Flow(e, Minting)]
  {
    j := Play(PLAIN, i, GiveUp(5));
    j := Play(PLAIN, j, GiveUp(6));
  }

  /** Requests 5 and 6 both renewed the tokens of p, and both new refresh tokens are live. */
  ghost predicate TwoRenewals(j: Joint, p: Pair, q: Pair, r: Pair) {
    && 5 in j.flows && j.flows[5] == Flow(Renewal(p), Minted(q.access, q.refresh))
    && 6 in j.flows && j.flows[6] == Flow(Renewal(p), Minted(r.access, r.refresh)) && q.refresh != r.refresh
    && q.refresh in j.w.db.tokens && !j.w.db.tokens[q.refresh].revoked
    && r.refresh in j.w.db.tokens && !j.w.db.tokens[r.refresh].revoked
  }

  const P5 := Pair("at5", "rt5")
  const P6 := Pair("at6", "rt6")

  lemma StillFree()
    ensures FreshPairs(EARLY + {P3.access, P3.refresh} + {P4.access, P4.refresh}, P5, P6)
  {
  }

  lemma BothRevoke(i: Joint, p: Pair, q: Pair) returns (j: Joint)
    requires Reached(PLAIN, i) && TwoPairs(i, REDEEM, p, q)
    ensures Reached(PLAIN, j) && 5 in j.flows && 6 in j.flows && j.flows[5] == j.flows[6] == Flow(Renewal(p), Minting)
    ensures j.w.db.issued == i.w.db.issued
  {
    j := SelectOneToken(i, 5, p);
    j := SelectOneToken(j, 6, p);
    j := BothCheck(j, 5, 6, Renewal(p), Checked);
    j := BothGiveUp(j, Renewal(p));
  }

  lemma BothRenewOne(i: Joint, p: Pair, q: Pair, r: Pair, s: Pair) returns (j: Joint)
    requires Reached(PLAIN, i) && TwoPairs(i, REDEEM, p, q) && FreshPairs(i.w.db.issued, r, s)
    ensures Reached(PLAIN, j) && TwoRenewals(j, p, r, s)
  {
    j := BothRevoke(i, p, q);
    j := BothInsert(j, 5, 6, Renewal(p), r, s);
  }

  /** One refresh token exchanged twice at once: two live ones in its place. */
  lemma TokenGivesTwoPairs() returns (s: Story)
    ensures Happens(PLAIN, s) && TwoRenewals(s.js[|s.acts|], P3, P5, P6)
  {
    var j := Opening();
    j := Showing(j);
    j := BothSend(j);
    OneOfTwo(j);
    FreeYet();
    j := BothRedeemOne(j, P3, P4);
    StillFree();
    j := BothRenewOne(j, P3, P4, P5, P6);
    s := ToStory(PLAIN, j);
  }

  // ----- a token without a login ------------------------------------------------------------------------------

  lemma OneUsesUp(i: Joint) returns (j: Joint)
    requires Reached(PLAIN, i) && CodeReady(i) && CanBegin(i, 3)
    ensures Reached(PLAIN, j) && j.w == i.w.(db := i.w.db.(codes := j.w.db.codes)) && j.flows == i.flows[3 := Flow(REDEEM, Checking)]
  {
    j := SelectOneCode(i, 3);
    j := UseOneUp(j, 3, REDEEM);
    assert j.flows == i.flows[3 := Flow(REDEEM, Checking)];
  }

  lemma EndThenInsert(i: Joint) returns (j: Joint)
    requires Reached(PLAIN, i) && 3 in i.flows && i.flows[3] == Flow(REDEEM, Minting) && 7 !in i.flows && 7 !in i.w.threads
    requires i.w.db.logins == map["login" := ROW] && "at3" !in i.w.db.issued
    ensures Reached(PLAIN, j) && "at3" in j.w.db.tokens && j.w.db.tokens["at3"] == NewToken(REDEEM, Access, 0)
    ensures "login" !in j.w.db.logins
  {
    assert Auth.Selected(i.w.db, ById("login")) == {"login"};
    j := Play(PLAIN, i, Sys(SelectWhere(7, ById("login"), ["login"])));
    j := EndLogin(j, 7, 0);
    j := Play(PLAIN, j, InsertAccess(3, "at3", 0));
  }

  /** The deletion of the login, stage by stage. */
  lemma {:induction false} EndLogin(i: Joint, t: Tid, k: nat) returns (j: Joint)
    requires Reached(PLAIN, i) && t in i.w.threads && k <= 4 && i.w.threads[t].pc == Deleting(None, ["login"], k)
    ensures Reached(PLAIN, j) && j.flows == i.flows && j.w.db.issued == i.w.db.issued
    ensures j.w.db.logins == if k <= 3 then i.w.db.logins - {"login"} else i.w.db.logins
    decreases 5 - k
  {
    DeleteFrame(i.w, t);
    j := Play(PLAIN, i, Sys(Delete(t)));
    if k < 4 {
      j := EndLogin(j, t, k + 1);
    }
  }

  /** The login is ended after a grant found it alive and before the grant inserts its tokens. */
  lemma TokenOutlivesLogin() returns (s: Story)
    ensures Happens(PLAIN, s)
    ensures var db := s.js[|s.acts|].w.db;
            "at3" in db.tokens && !db.tokens["at3"].revoked && db.tokens["at3"].idp == "login" && "login" !in db.logins
  {
    var j := Opening();
    j := Showing(j);
    j := BothSend(j);
    j := OneUsesUp(j);
    j := OneChecks(j, 3, REDEEM, Minting);
    FreeYet();
    j := EndThenInsert(j);
    s := ToStory(PLAIN, j);
  }
}
