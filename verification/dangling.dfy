/**
  Tokens and codes that outlive their login. A grant whose login was found alive inserts its tokens without looking again,
  and an approval its code, so they can come after the login was ended; this is the only way they can dangle.
 */
module Dangling {
  import opened Tables
  import opened Auth
  import opened OAuth
  import opened Threads
  import opened Exchanges
  import opened Lineage
  import opened Overlaps
  import Interleavings

  /** The stages of a deletion: the DELETE FROM oauth_tokens, and the one from oauth_codes. */
  const TOKEN_STAGE: nat := 1
  const CODE_STAGE: nat := 2

  /** Logins of which this step deletes all of a table for good: it is that DELETE of their end, or purges their rows. */
  ghost function WipedIn(j: Joint, a: Act, stage: nat): set<Id> {
    if a.Sys? && a.e.Delete? && Ready(j.w, a.e) && j.w.threads[a.e.t].pc.stage == stage then {j.w.threads[a.e.t].pc.ids[0]}
    else if a.Sys? && a.e.PurgeStep? then j.w.db.logins.Keys - PurgeLogins(j.w.db, a.e.now).logins.Keys
    else {}
  }

  ghost function Wiped(s: Story, n: nat, stage: nat): set<Id>
    requires Indexed(s, n)
  {
    if n == 0 then {} else Wiped(s, n - 1, stage) + WipedIn(s.js[n - 1], s.acts[n - 1], stage)
  }

  ghost predicate EndersWipe(threads: map<Tid, Thread>, wiped: set<Id>, stage: nat) {
    forall t :: t in threads && threads[t].pc.Deleting? && threads[t].pc.stage > stage && threads[t].pc.ids != [] ==>
                  threads[t].pc.ids[0] in wiped
  }

  /** A login that once was and is no more has been wiped. */
  ghost predicate GoneWiped(w: World, wiped: set<Id>) {
    forall id :: id in w.grants && id !in w.db.logins ==> id in wiped
  }

  ghost predicate KnownLogin(w: World, th: Thread) {
    th.id in w.grants || th.pc == Finished(Ended) || (th.pc.Deleting? && th.pc.under.None?)
  }

  ghost predicate ThreadsKnown(w: World) {
    forall t :: t in w.threads ==> KnownLogin(w, w.threads[t])
  }

  /** What is about to be deleted was a login. */
  ghost predicate EndersKnown(threads: map<Tid, Thread>, issued: set<Id>) {
    forall t, id :: t in threads && threads[t].pc.Deleting? && id in threads[t].pc.ids ==> id in issued
  }

  // ----- steps -----------------------------------------------------------------------------------

  lemma SysGrants(cfg: Config, w: World, e: Move)
    requires Enabled(cfg, w, e)
    ensures w.grants.Keys <= Threads.Next(cfg, w, e).grants.Keys
    ensures !e.LoginStep? ==> Threads.Next(cfg, w, e).grants.Keys == w.grants.Keys
  {
    if !WritesGrants(e) {
      OtherGrants(cfg, w, e);
    }
  }

  lemma EndersKept(cfg: Config, j: Joint, a: Act, wiped: set<Id>, stage: nat)
    requires May(cfg, j, a) && EndersWipe(j.w.threads, wiped, stage)
    ensures EndersWipe(Do(cfg, j, a).w.threads, wiped + WipedIn(j, a, stage), stage)
  {
    if !a.Sys? {
      OutsideStep(cfg, j, a);
    } else if a.e.Delete? {
      DeleteEnders(j.w, a.e.t, wiped, stage);
    } else if TakesMutex(a.e) {
      MutexEnders(cfg, j.w, a.e);
    } else {
      OtherEnders(cfg, j.w, a.e);
    }
  }

  lemma DeleteEnders(w: World, t: Tid, wiped: set<Id>, stage: nat)
    requires Ready(w, Delete(t)) && EndersWipe(w.threads, wiped, stage)
    ensures w.threads[t].pc.stage == stage ==> EndersWipe(DoDelete(w, t).threads, wiped + {w.threads[t].pc.ids[0]}, stage)
    ensures w.threads[t].pc.stage != stage ==> EndersWipe(DoDelete(w, t).threads, wiped, stage)
  {
    DeleteFrame(w, t);
  }

  lemma OtherEnders(cfg: Config, w: World, e: Move)
    requires Enabled(cfg, w, e) && !e.Delete? && !TakesMutex(e)
    ensures var v := Threads.Next(cfg, w, e);
            forall t :: t in v.threads && v.threads[t].pc.Deleting? && v.threads[t].pc.stage > 0 ==> t in w.threads && v.threads[t] == w.threads[t]
  {
  }

  lemma MutexEnders(cfg: Config, w: World, e: Move)
    requires Ready(w, e) && TakesMutex(e)
    ensures var v := Threads.Next(cfg, w, e);
            forall t :: t in v.threads && v.threads[t].pc.Deleting? ==> t in w.threads && v.threads[t] == w.threads[t]
  {
    if e.TakeMutex? {
    } else if e.Lock? {
    } else if e.SecondLoad? {
    } else if e.Call? {
    } else if e.Conclude? {
    } else if e.Update? {
    } else if e.SaveUser? {
    } else {
      assert e.Unlock?;
    }
  }

  lemma GoneKept(cfg: Config, j: Joint, a: Act, wiped: set<Id>, stage: nat)
    requires May(cfg, j, a) && stage < 3 && EndersWipe(j.w.threads, wiped, stage) && GoneWiped(j.w, wiped)
    ensures GoneWiped(Do(cfg, j, a).w, wiped + WipedIn(j, a, stage))
  {
    if !a.Sys? {
      OutsideStep(cfg, j, a);
    } else {
      SysGrants(cfg, j.w, a.e);
      if a.e.Delete? {
        DeleteFrame(j.w, a.e.t);
      } else if !a.e.PurgeStep? {
        LoginsStay(cfg, j.w, a.e);
      }
    }
  }

  lemma LoginsStay(cfg: Config, w: World, e: Move)
    requires Enabled(cfg, w, e) && !e.Delete? && !e.PurgeStep?
    ensures w.db.logins.Keys <= Threads.Next(cfg, w, e).db.logins.Keys
    ensures e.LoginStep? ==> Threads.Next(cfg, w, e).grants.Keys == w.grants.Keys + {e.id} && e.id in Threads.Next(cfg, w, e).db.logins
  {
    if TakesMutex(e) {
      MutexTables(cfg, w, e);
    }
  }

  lemma ThreadsKept(cfg: Config, j: Joint, a: Act)
    requires May(cfg, j, a) && ThreadsKnown(j.w) && j.w.db.logins.Keys <= j.w.grants.Keys
    ensures ThreadsKnown(Do(cfg, j, a).w)
  {
    var v := Do(cfg, j, a).w;
    if !a.Sys? {
      OutsideStep(cfg, j, a);
    } else {
      SysGrants(cfg, j.w, a.e);
    }
    forall t | t in v.threads ensures KnownLogin(v, v.threads[t]) {
      ThreadsStay(cfg, j, a, t);
      if t in j.w.threads {
        assert KnownLogin(j.w, j.w.threads[t]);
        if a.Sys? && j.w.threads[t].id !in j.w.grants {
          OnlyEndersEnd(cfg, j.w, a.e, t);
        }
      }
    }
  }

  /** A request without a login of its own ends logins, and then is done. */
  lemma OnlyEndersEnd(cfg: Config, w: World, e: Move, t: Tid)
    requires Enabled(cfg, w, e) && t in w.threads && KnownLogin(w, w.threads[t]) && w.threads[t].id !in w.grants
    requires t in Threads.Next(cfg, w, e).threads
    ensures KnownLogin(w, Threads.Next(cfg, w, e).threads[t]) || Threads.Next(cfg, w, e).threads[t].id in w.grants
  {
    if w.threads[t].pc.Deleting? && w.threads[t].pc.ids != [] {
      EnderWaits(cfg, w, e, t);
      if e == Delete(t) {
        DeleteFrame(w, t);
      }
    } else if e.Delete? {
      DeleteFrame(w, e.t);
    } else if !TakesMutex(e) {
    } else {
      MutexWaits(cfg, w, e, t);
    }
  }

  lemma MutexWaits(cfg: Config, w: World, e: Move, t: Tid)
    requires Ready(w, e) && TakesMutex(e) && t in w.threads && (w.threads[t].pc.Finished? || w.threads[t].pc.Deleting?)
    ensures t in Threads.Next(cfg, w, e).threads && Threads.Next(cfg, w, e).threads[t] == w.threads[t]
  {
    if e.TakeMutex? {
    } else if e.Lock? {
    } else if e.SecondLoad? {
    } else if e.Call? {
    } else if e.Conclude? {
    } else if e.Update? {
    } else if e.SaveUser? {
    } else {
      assert e.Unlock?;
    }
  }

  lemma EndersKnownKept(cfg: Config, j: Joint, a: Act)
    requires May(cfg, j, a) && EndersKnown(j.w.threads, j.w.db.issued) && j.w.db.logins.Keys <= j.w.db.issued
    ensures EndersKnown(Do(cfg, j, a).w.threads, Do(cfg, j, a).w.db.issued)
  {
    Overlaps.IssuedGrows(cfg, j, a);
    if !a.Sys? {
      OutsideStep(cfg, j, a);
    } else if a.e.Delete? {
      DeleteFrame(j.w, a.e.t);
    } else if TakesMutex(a.e) {
      MutexEnders(cfg, j.w, a.e);
    } else {
      NewEnders(cfg, j.w, a.e);
    }
  }

  lemma NewEnders(cfg: Config, w: World, e: Move)
    requires Enabled(cfg, w, e) && !e.Delete? && !TakesMutex(e) && EndersKnown(w.threads, w.db.issued) && w.db.logins.Keys <= w.db.issued
    ensures EndersKnown(Threads.Next(cfg, w, e).threads, w.db.issued)
  {
    if e.SelectWhere? {
      assert forall id :: id in e.ids ==> id in Auth.Selected(w.db, e.which);
    } else if e.SelectOwn? {
    }
  }

  // ----- every story ---------------------------------------------------------------------------------

  ghost predicate Traced(w: World, wiped: set<Id>, stage: nat) {
    && EndersWipe(w.threads, wiped, stage) && GoneWiped(w, wiped) && ThreadsKnown(w)
  }

  lemma LoginsKnown(cfg: Config, s: Story, n: nat)
    requires Happens(cfg, s) && n <= |s.acts|
    ensures s.js[n].w.db.logins.Keys <= s.js[n].w.grants.Keys <= s.js[n].w.db.issued
  {
    var r := StoryIsInterleaving(cfg, s);
    AlwaysSafe(cfg, r, n);
  }

  lemma StoryStep(cfg: Config, s: Story, n: nat)
    requires Happens(cfg, s) && n < |s.acts|
    ensures May(cfg, s.js[n], s.acts[n]) && s.js[n + 1] == Do(cfg, s.js[n], s.acts[n])
  {
    assert StoryAt(cfg, s, n);
  }

  /** A step of a story. */
  ghost predicate Sound(cfg: Config, i: Joint, a: Act, j: Joint) {
    May(cfg, i, a) && j == Do(cfg, i, a) && i.w.db.logins.Keys <= i.w.grants.Keys <= i.w.db.issued
  }

  ghost predicate SoundAt(cfg: Config, s: Story, n: nat)
    requires Indexed(s, n) && 0 < n
  {
    Sound(cfg, s.js[n - 1], s.acts[n - 1], s.js[n])
  }

  lemma StepIsSound(cfg: Config, s: Story, n: nat)
    requires Happens(cfg, s) && 0 < n <= |s.acts|
    ensures SoundAt(cfg, s, n)
  {
    StoryStep(cfg, s, n - 1);
    LoginsKnown(cfg, s, n - 1);
  }

  lemma TracedNext(cfg: Config, i: Joint, a: Act, j: Joint, wiped: set<Id>, stage: nat)
    requires Sound(cfg, i, a, j) && Traced(i.w, wiped, stage) && stage < 3
    ensures Traced(j.w, wiped + WipedIn(i, a, stage), stage)
  {
    EndersKept(cfg, i, a, wiped, stage);
    GoneKept(cfg, i, a, wiped, stage);
    ThreadsKept(cfg, i, a);
  }

  lemma TracedStart(stage: nat)
    ensures Traced(START.w, {}, stage)
  {
    assert START.w == IDLE;
  }

  lemma {:induction false} AlwaysTraced(cfg: Config, s: Story, n: nat, stage: nat) returns (wiped: set<Id>)
    requires Happens(cfg, s) && n <= |s.acts| && stage < 3
    ensures wiped == Wiped(s, n, stage) && Traced(s.js[n].w, wiped, stage)
  {
    if n == 0 {
      wiped := {};
      TracedStart(stage);
    } else {
      var m := n - 1;
      wiped := AlwaysTraced(cfg, s, m, stage);
      StepIsSound(cfg, s, n);
      TracedNext(cfg, s.js[m], s.acts[m], s.js[n], wiped, stage);
      wiped := wiped + WipedIn(s.js[m], s.acts[m], stage);
    }
  }

  lemma {:induction false} AlwaysEndersKnown(cfg: Config, s: Story, n: nat)
    requires Happens(cfg, s) && n <= |s.acts|
    ensures EndersKnown(s.js[n].w.threads, s.js[n].w.db.issued)
  {
    if n > 0 {
      AlwaysEndersKnown(cfg, s, n - 1);
      StepIsSound(cfg, s, n);
      EndersKnownKept(cfg, s.js[n - 1], s.acts[n - 1]);
    }
  }

  lemma {:induction false} WipedWhen(s: Story, n: nat, stage: nat, id: Id) returns (m: nat)
    requires Indexed(s, n) && id in Wiped(s, n, stage)
    ensures m < n && id in WipedIn(s.js[m], s.acts[m], stage)
  {
    if id in WipedIn(s.js[n - 1], s.acts[n - 1], stage) {
      m := n - 1;
    } else {
      m := WipedWhen(s, n - 1, stage, id);
    }
  }

  /** A login that is gone has been wiped. */
  lemma GoneIsWiped(cfg: Config, s: Story, n: nat, stage: nat, id: Id) returns (m: nat)
    requires Happens(cfg, s) && n <= |s.acts| && stage < 3 && id in s.js[n].w.grants && id !in s.js[n].w.db.logins
    ensures m < n && id in WipedIn(s.js[m], s.acts[m], stage)
  {
    var wiped := AlwaysTraced(cfg, s, n, stage);
    m := WipedWhen(s, n, stage, id);
  }

  lemma {:induction false} GrantsStay(cfg: Config, s: Story, i: nat, n: nat, id: Id)
    requires Happens(cfg, s) && i <= n <= |s.acts| && id in s.js[i].w.grants
    ensures id in s.js[n].w.grants
    decreases n
  {
    if i < n {
      GrantsStay(cfg, s, i, n - 1, id);
      StoryStep(cfg, s, n - 1);
      var j, a := s.js[n - 1], s.acts[n - 1];
      if a.Sys? {
        SysGrants(cfg, j.w, a.e);
      } else {
        OutsideStep(cfg, j, a);
      }
    }
  }

  /** Whoever was let in was let in by a login that existed. */
  lemma LetInKnown(cfg: Config, s: Story, n: nat, t: Tid)
    requires Happens(cfg, s) && n <= |s.acts| && Vouched(s.js[n].w, t)
    ensures s.js[n].w.threads[t].id in s.js[n].w.grants
  {
    var wiped := AlwaysTraced(cfg, s, n, TOKEN_STAGE);
    assert KnownLogin(s.js[n].w, s.js[n].w.threads[t]);
  }

  // ----- tokens ----------------------------------------------------------------------------------------

  /** What is wiped has no token left that is not revoked. */
  lemma NoTokenSurvives(cfg: Config, j: Joint, a: Act, k: Id)
    requires May(cfg, j, a) && k in Do(cfg, j, a).w.db.tokens && !Do(cfg, j, a).w.db.tokens[k].revoked
    ensures Do(cfg, j, a).w.db.tokens[k].idp !in WipedIn(j, a, TOKEN_STAGE)
  {
    if a.Sys? && a.e.Delete? {
      DeleteTables(j.w, a.e.t);
    } else if a.Sys? && a.e.PurgeStep? {
      assert Do(cfg, j, a).w.db.tokens == j.w.db.tokens;
      var id := j.w.db.tokens[k].idp;
      assert Referenced(j.w.db.sessions, j.w.db.tokens, j.w.db.codes, id);
    }
  }

  /** An unrevoked token was there, unrevoked and of the same login, ever since it was inserted. */
  lemma {:induction false} TokenWasThere(cfg: Config, s: Story, i: nat, m: nat, n: nat, k: Id)
    requires Happens(cfg, s) && i < m <= n <= |s.acts| && k in s.js[n].w.db.tokens && !s.js[n].w.db.tokens[k].revoked
    requires TokenMadeIn(s.js[i], s.acts[i], k, s.js[n].w.db.tokens[k])
    ensures k in s.js[m].w.db.tokens && !s.js[m].w.db.tokens[k].revoked && s.js[m].w.db.tokens[k].idp == s.js[n].w.db.tokens[k].idp
    decreases n
  {
    if m < n {
      StoryStep(cfg, s, n - 1);
      MadeIsIssued(cfg, s, i, n - 1, k);
      TokensStep(cfg, s.js[n - 1], s.acts[n - 1], k);
      TokenWasThere(cfg, s, i, m, n - 1, k);
    }
  }

  lemma MadeIsIssued(cfg: Config, s: Story, i: nat, n: nat, k: Id)
    requires Happens(cfg, s) && i < n <= |s.acts| && (s.acts[i].InsertAccess? || s.acts[i].InsertRefresh? || s.acts[i].InsertCode?)
    requires s.acts[i].key == k
    ensures k in s.js[n].w.db.issued
  {
    StoryStep(cfg, s, i);
    KeyIssued(cfg, s.js[i], s.acts[i]);
    StaysIssued(cfg, s, i + 1, n, k);
  }

  lemma {:induction false} StaysIssued(cfg: Config, s: Story, i: nat, n: nat, k: Id)
    requires Happens(cfg, s) && i <= n <= |s.acts| && k in s.js[i].w.db.issued
    ensures k in s.js[n].w.db.issued
    decreases n
  {
    if i < n {
      StaysIssued(cfg, s, i, n - 1, k);
      StoryStep(cfg, s, n - 1);
      Overlaps.IssuedGrows(cfg, s.js[n - 1], s.acts[n - 1]);
    }
  }

  /** The token k of js[n] was inserted after its login had been wiped. */
  ghost predicate LateToken(s: Story, m: nat, i: nat, n: nat, k: Id)
    requires Indexed(s, n) && k in s.js[n].w.db.tokens
  {
    m < i < n && TokenMadeIn(s.js[i], s.acts[i], k, s.js[n].w.db.tokens[k]) && s.js[n].w.db.tokens[k].idp in WipedIn(s.js[m], s.acts[m], TOKEN_STAGE)
  }

  /** In every story: an unrevoked token without a login was inserted after its login had been wiped. */
  lemma DanglesOnlyLate(cfg: Config, s: Story, n: nat, k: Id) returns (m: nat, i: nat)
    requires Happens(cfg, s) && n <= |s.acts|
    requires k in s.js[n].w.db.tokens && !s.js[n].w.db.tokens[k].revoked && s.js[n].w.db.tokens[k].idp !in s.js[n].w.db.logins
    ensures LateToken(s, m, i, n, k)
  {
    var login := s.js[n].w.db.tokens[k].idp;
    i := TokenMade(cfg, s, n, k);
    MadeForKnown(cfg, s, i, k, s.js[n].w.db.tokens[k]);
    GrantsStay(cfg, s, i, n, login);
    m := GoneIsWiped(cfg, s, n, TOKEN_STAGE, login);
    if m >= i {
      TokenWasThere(cfg, s, i, m + 1, n, k);
      StoryStep(cfg, s, m);
      NoTokenSurvives(cfg, s.js[m], s.acts[m], k);
    }
  }

  lemma MadeForKnown(cfg: Config, s: Story, i: nat, k: Id, row: Token)
    requires Happens(cfg, s) && i < |s.acts| && TokenMadeIn(s.js[i], s.acts[i], k, row)
    ensures row.idp in s.js[i].w.grants
  {
    StoryStep(cfg, s, i);
    AlwaysFlowsOk(cfg, s, i);
    assert FlowOk(s.js[i].w, s.acts[i].t, s.js[i].flows[s.acts[i].t]);
    LetInKnown(cfg, s, i, s.acts[i].t);
  }

  // ----- codes -------------------------------------------------------------------------------------------

  lemma NoCodeSurvives(cfg: Config, j: Joint, a: Act, c: Id)
    requires May(cfg, j, a) && c in Do(cfg, j, a).w.db.codes
    ensures Do(cfg, j, a).w.db.codes[c].idp !in WipedIn(j, a, CODE_STAGE)
  {
    if a.Sys? && a.e.Delete? {
      DeleteTables(j.w, a.e.t);
    } else if a.Sys? && a.e.PurgeStep? {
      assert Do(cfg, j, a).w.db.codes == j.w.db.codes;
      var id := j.w.db.codes[c].idp;
      assert Referenced(j.w.db.sessions, j.w.db.tokens, j.w.db.codes, id);
    }
  }

  lemma {:induction false} CodeWasThere(cfg: Config, s: Story, i: nat, m: nat, n: nat, c: Id)
    requires Happens(cfg, s) && i < m <= n <= |s.acts| && c in s.js[n].w.db.codes && CodeMadeIn(s.js[i], s.acts[i], c, s.js[n].w.db.codes[c])
    ensures c in s.js[m].w.db.codes && s.js[m].w.db.codes[c].idp == s.js[n].w.db.codes[c].idp
    decreases n
  {
    if m < n {
      StoryStep(cfg, s, n - 1);
      MadeIsIssued(cfg, s, i, n - 1, c);
      CodesStep(cfg, s.js[n - 1], s.acts[n - 1], c);
      CodeWasThere(cfg, s, i, m, n - 1, c);
    }
  }

  /** The code c of js[n] was inserted after its login had been wiped. */
  ghost predicate LateCode(s: Story, m: nat, i: nat, n: nat, c: Id)
    requires Indexed(s, n) && c in s.js[n].w.db.codes
  {
    m < i < n && CodeMadeIn(s.js[i], s.acts[i], c, s.js[n].w.db.codes[c]) && s.js[n].w.db.codes[c].idp in WipedIn(s.js[m], s.acts[m], CODE_STAGE)
  }

  /** The same of codes, which approvals insert. */
  lemma CodesDangleOnlyLate(cfg: Config, s: Story, n: nat, c: Id) returns (m: nat, i: nat)
    requires Happens(cfg, s) && n <= |s.acts| && c in s.js[n].w.db.codes && s.js[n].w.db.codes[c].idp !in s.js[n].w.db.logins
    ensures LateCode(s, m, i, n, c)
  {
    var login := s.js[n].w.db.codes[c].idp;
    i := CodeMade(cfg, s, n, c);
    var t := s.acts[i].t;
    var b := Began(cfg, s, i, t);
    BeganFinds(cfg, s, b, t, s.js[i].flows[t].errand);
    LetInKnown(cfg, s, b, s.acts[b].visit);
    GrantsStay(cfg, s, b, n, login);
    m := GoneIsWiped(cfg, s, n, CODE_STAGE, login);
    if m >= i {
      CodeWasThere(cfg, s, i, m + 1, n, c);
      StoryStep(cfg, s, m);
      NoCodeSurvives(cfg, s.js[m], s.acts[m], c);
    }
  }

  // ----- and every late one dangles ---------------------------------------------------------------------------

  /** A deletion of the login is past that stage, but has not reached the row itself. */
  ghost predicate HalfWay(w: World, id: Id, stage: nat) {
    exists t :: t in w.threads && Ending(w.threads[t].pc, id, stage)
  }

  predicate Ending(pc: Pc, id: Id, stage: nat) {
    pc.Deleting? && pc.ids != [] && pc.ids[0] == id && stage < pc.stage <= 3
  }

  /** What was wiped is gone, or about to go. */
  lemma {:induction false} WipedGoes(cfg: Config, s: Story, m: nat, n: nat, stage: nat, id: Id)
    requires Happens(cfg, s) && m < n <= |s.acts| && stage < 3 && id in WipedIn(s.js[m], s.acts[m], stage)
    ensures id in s.js[n].w.db.issued && (id !in s.js[n].w.db.logins || HalfWay(s.js[n].w, id, stage))
    decreases n
  {
    var j, a := s.js[n - 1], s.acts[n - 1];
    StoryStep(cfg, s, n - 1);
    Overlaps.IssuedGrows(cfg, j, a);
    if m == n - 1 {
      AlwaysEndersKnown(cfg, s, m);
      LoginsKnown(cfg, s, m);
      WipeBegins(cfg, j, a, stage, id);
    } else {
      WipedGoes(cfg, s, m, n - 1, stage, id);
      WipeGoesOn(cfg, j, a, stage, id);
    }
  }

  lemma WipeBegins(cfg: Config, j: Joint, a: Act, stage: nat, id: Id)
    requires May(cfg, j, a) && stage < 3 && id in WipedIn(j, a, stage)
    requires EndersKnown(j.w.threads, j.w.db.issued) && j.w.db.logins.Keys <= j.w.db.issued
    ensures id in j.w.db.issued
    ensures id !in Do(cfg, j, a).w.db.logins || HalfWay(Do(cfg, j, a).w, id, stage)
  {
    if a.e.Delete? {
      DeleteFrame(j.w, a.e.t);
      assert j.w.threads[a.e.t].pc.ids[0] in j.w.threads[a.e.t].pc.ids;
      assert Ending(Do(cfg, j, a).w.threads[a.e.t].pc, id, stage);
    }
  }

  lemma WipeGoesOn(cfg: Config, j: Joint, a: Act, stage: nat, id: Id)
    requires May(cfg, j, a) && id in j.w.db.issued && (id !in j.w.db.logins || HalfWay(j.w, id, stage))
    ensures id !in Do(cfg, j, a).w.db.logins || HalfWay(Do(cfg, j, a).w, id, stage)
  {
    if id in Do(cfg, j, a).w.db.logins {
      StepIsMove(cfg, j, a);
      Interleavings.LoginStepByStep(cfg, j.w, MoveOf(cfg, j, a), id);
      var t :| t in j.w.threads && Ending(j.w.threads[t].pc, id, stage);
      EnderWaits(cfg, j.w, MoveOf(cfg, j, a), t);
      if MoveOf(cfg, j, a) == Delete(t) {
        DeleteFrame(j.w, t);
      }
      assert Ending(Do(cfg, j, a).w.threads[t].pc, id, stage);
    }
  }

  /** A deletion is moved by its own steps only. */
  lemma EnderWaits(cfg: Config, w: World, e: Move, t: Tid)
    requires Enabled(cfg, w, e) && t in w.threads && w.threads[t].pc.Deleting? && w.threads[t].pc.ids != []
    ensures e != Delete(t) ==> t in Threads.Next(cfg, w, e).threads && Threads.Next(cfg, w, e).threads[t] == w.threads[t]
  {
    if e.Delete? {
      DeleteFrame(w, e.t);
    } else if TakesMutex(e) {
      MutexWaits(cfg, w, e, t);
    }
  }

  /** Unless a deletion is half way through: an unrevoked token dangles if and only if it was inserted late. */
  lemma DanglesExactly(cfg: Config, s: Story, n: nat, k: Id)
    requires Happens(cfg, s) && n <= |s.acts| && k in s.js[n].w.db.tokens && !s.js[n].w.db.tokens[k].revoked
    requires !HalfWay(s.js[n].w, s.js[n].w.db.tokens[k].idp, TOKEN_STAGE)
    ensures s.js[n].w.db.tokens[k].idp !in s.js[n].w.db.logins <==> exists m: nat, i: nat :: LateToken(s, m, i, n, k)
  {
    if s.js[n].w.db.tokens[k].idp !in s.js[n].w.db.logins {
      var m, i := DanglesOnlyLate(cfg, s, n, k);
    }
    forall m: nat, i: nat | LateToken(s, m, i, n, k) ensures s.js[n].w.db.tokens[k].idp !in s.js[n].w.db.logins {
      WipedGoes(cfg, s, m, n, TOKEN_STAGE, s.js[n].w.db.tokens[k].idp);
    }
  }

  lemma CodesDangleExactly(cfg: Config, s: Story, n: nat, c: Id)
    requires Happens(cfg, s) && n <= |s.acts| && c in s.js[n].w.db.codes && !HalfWay(s.js[n].w, s.js[n].w.db.codes[c].idp, CODE_STAGE)
    ensures s.js[n].w.db.codes[c].idp !in s.js[n].w.db.logins <==> exists m: nat, i: nat :: LateCode(s, m, i, n, c)
  {
    if s.js[n].w.db.codes[c].idp !in s.js[n].w.db.logins {
      var m, i := CodesDangleOnlyLate(cfg, s, n, c);
    }
    forall m: nat, i: nat | LateCode(s, m, i, n, c) ensures s.js[n].w.db.codes[c].idp !in s.js[n].w.db.logins {
      WipedGoes(cfg, s, m, n, CODE_STAGE, s.js[n].w.db.codes[c].idp);
    }
  }
}
