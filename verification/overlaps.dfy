/**
  When overlapping exchanges of one code, one refresh token or one authorization request both succeed: exactly when each
  reads the row before the other marks it. And which tokens can outlive their login.
 */
module Overlaps {
  import opened Tables
  import opened Oidc
  import opened Urls
  import opened Auth
  import opened OAuth
  import opened Threads
  import opened Exchanges
  import Interleavings

  // ----- what one step does to the tables ---------------------------------------------------

  lemma SysTables(cfg: Config, w: World, e: Move)
    requires Ready(w, e) && !e.Other? && !e.Delete?
    ensures var (db, v) := (w.db, Threads.Next(cfg, w, e).db);
            v.codes == db.codes && v.tokens == db.tokens && v.requests == db.requests
  {
    if TakesMutex(e) {
      MutexTables(cfg, w, e);
    }
  }

  lemma MutexTables(cfg: Config, w: World, e: Move)
    requires Ready(w, e) && TakesMutex(e)
    ensures var (db, v) := (w.db, Threads.Next(cfg, w, e).db);
            v.codes == db.codes && v.tokens == db.tokens && v.requests == db.requests && v.logins.Keys == db.logins.Keys
  {
    if e.TakeMutex? {
    } else if e.Lock? {
    } else if e.SecondLoad? {
    } else if e.Unlock? {
    } else {
      ProviderTables(cfg, w, e);
    }
  }

  lemma ProviderTables(cfg: Config, w: World, e: Move)
    requires Ready(w, e) && (e.Call? || e.Conclude? || e.Update? || e.SaveUser?)
    ensures var (db, v) := (w.db, Threads.Next(cfg, w, e).db);
            v.codes == db.codes && v.tokens == db.tokens && v.requests == db.requests && v.logins.Keys == db.logins.Keys
  {
    if e.Call? {
      CallTables(w, e.t, e.reply, e.hidden);
    } else if e.Conclude? {
      ConcludeTables(cfg, w, e.t, e.ui);
    } else if e.Update? {
      UpdateTables(cfg, w, e.t, e.now);
    } else {
      SaveUserTables(w, e.t);
    }
  }

  lemma CallTables(w: World, t: Tid, reply: TokenReply, hidden: string)
    requires At(w, t) && w.threads[t].pc.Calling? && w.threads[t].id in w.grants
    ensures DoCall(w, t, reply, hidden).db == w.db
  {
  }

  lemma ConcludeTables(cfg: Config, w: World, t: Tid, ui: UserInfo)
    requires At(w, t) && w.threads[t].pc.Replied?
    ensures DoConclude(cfg, w, t, ui).db == w.db
  {
  }

  lemma UpdateTables(cfg: Config, w: World, t: Tid, now: int)
    requires At(w, t) && w.threads[t].pc.Answered?
    ensures var v := DoUpdate(cfg, w, t, now).db; v == w.db.(logins := v.logins) && v.logins.Keys == w.db.logins.Keys
  {
  }

  lemma SaveUserTables(w: World, t: Tid)
    requires At(w, t) && w.threads[t].pc.Saving?
    ensures var (db, v) := (w.db, DoSaveUser(w, t).db);
            v.codes == db.codes && v.tokens == db.tokens && v.requests == db.requests && v.logins == db.logins
  {
    if w.threads[t].pc.named {
    } else if w.threads[t].pc.ident.name != "" {
    }
  }

  lemma DeleteTables(w: World, t: Tid)
    requires Ready(w, Delete(t))
    ensures var (db, v, pc) := (w.db, DoDelete(w, t).db, w.threads[t].pc);
            && v.requests == db.requests
            && (pc.stage == 1 ==> v.tokens == TokensWithout(db.tokens, {pc.ids[0]})) && (pc.stage != 1 ==> v.tokens == db.tokens)
            && (pc.stage == 2 ==> v.codes == CodesWithout(db.codes, {pc.ids[0]})) && (pc.stage != 2 ==> v.codes == db.codes)
  {
    var stage := w.threads[t].pc.stage;
    if stage == 0 {
    } else if stage == 1 {
    } else if stage == 2 {
    } else if stage == 3 {
    }
  }

  lemma SweepTables(db: State, table: Table, now: int)
    ensures var v := Without(db, table, now);
            && (table == CodeRows ==> v.codes == UnexpiredCodes(db.codes, now)) && (table != CodeRows ==> v.codes == db.codes)
            && (table == TokenRows ==> v.tokens == UnexpiredTokens(db.tokens, now)) && (table != TokenRows ==> v.tokens == db.tokens)
            && (table == RequestRows ==> v.requests == UnexpiredRequests(db.requests, now)) && (table != RequestRows ==> v.requests == db.requests)
  {
    match table {
      case SessionRows =>
      case TokenRows =>
      case CodeRows =>
      case RequestRows =>
    }
  }

  /** The rows of m are rows of n. */
  ghost predicate Part<T(!new)>(m: map<Id, T>, n: map<Id, T>) {
    forall k :: k in m ==> k in n && m[k] == n[k]
  }

  /** The requests of Threads only ever delete codes and tokens. */
  lemma SysRows(cfg: Config, j: Joint, a: Act)
    requires May(cfg, j, a) && a.Sys?
    ensures var (db, v) := (j.w.db, Do(cfg, j, a).w.db);
            v.requests == db.requests && Part(v.codes, db.codes) && Part(v.tokens, db.tokens)
  {
    if a.e.Delete? {
      DeleteTables(j.w, a.e.t);
    } else {
      SysTables(cfg, j.w, a.e);
    }
  }

  /** The code this step marks as used. */
  ghost function UsedIn(j: Joint, a: Act): set<Id> {
    if a.UseUp? && a.t in j.flows && Redeems(j.flows[a.t]) then {j.flows[a.t].errand.code} else {}
  }

  ghost predicate CodeFrom(codes: map<Id, Code>, c: Id, row: Code, used: set<Id>) {
    c in codes && row.(used := false) == codes[c].(used := false) && (row.used <==> codes[c].used || c in used)
  }

  /** The code this step inserts. */
  ghost predicate InsertsCode(j: Joint, a: Act, c: Id, row: Code) {
    a.InsertCode? && a.key == c && a.t in j.flows && Approves(j.flows[a.t]) && row == NewCode(j.flows[a.t].errand, a.now)
  }

  /** Codes stay, go, get used, or are new. */
  lemma CodesStep(cfg: Config, j: Joint, a: Act, c: Id)
    requires May(cfg, j, a) && c in Do(cfg, j, a).w.db.codes
    ensures var row := Do(cfg, j, a).w.db.codes[c];
            CodeFrom(j.w.db.codes, c, row, UsedIn(j, a)) || (InsertsCode(j, a, c, row) && c !in j.w.db.issued)
  {
    if a.Sys? {
      SysRows(cfg, j, a);
    } else if Alone(a) {
      AloneCodes(j.w.db, a);
    } else {
      FlowCodes(cfg, j, a, c);
    }
  }

  lemma FlowCodes(cfg: Config, j: Joint, a: Act, c: Id)
    requires May(cfg, j, a) && !a.Sys? && !Alone(a) && c in Do(cfg, j, a).w.db.codes
    ensures var row := Do(cfg, j, a).w.db.codes[c];
            CodeFrom(j.w.db.codes, c, row, UsedIn(j, a)) || (InsertsCode(j, a, c, row) && c !in j.w.db.issued)
  {
    if a.InsertCode? {
    } else if a.UseUp? {
    } else {
      assert Do(cfg, j, a).w.db.codes == j.w.db.codes;
    }
  }

  lemma AloneCodes(db: State, a: Act)
    requires Alone(a)
    ensures Part(DoAlone(db, a).codes, db.codes)
  {
    if a.OpenSession? {
    } else if a.Ask? {
    } else if a.Show? {
    } else if a.Drop? {
    } else if a.RevokeTokens? {
    } else if a.Sweep? {
      SweepTables(db, a.table, a.now);
    } else {
      assert a.DropCodes?;
    }
  }

  /** The refresh token an exchange gives up, or the tokens a user revokes. */
  ghost function RevokedIn(j: Joint, a: Act): set<Id> {
    if a.GiveUp? && a.t in j.flows && Renews(j.flows[a.t]) then {j.flows[a.t].errand.token}
    else if a.RevokeTokens? then set k | k in j.w.db.tokens && j.w.db.tokens[k].subject == a.subject && j.w.db.tokens[k].clientId == a.clientId
    else {}
  }

  ghost predicate TokenFrom(tokens: map<Id, Token>, k: Id, row: Token, revoked: set<Id>) {
    k in tokens && row.(revoked := false) == tokens[k].(revoked := false) && (row.revoked <==> tokens[k].revoked || k in revoked)
  }

  /** The token this step inserts. */
  ghost predicate Inserts(j: Joint, a: Act, k: Id, row: Token) {
    && (a.InsertAccess? || a.InsertRefresh?) && a.key == k && a.t in j.flows && Grants(j.flows[a.t])
    && row == NewToken(j.flows[a.t].errand, if a.InsertAccess? then Access else Refresh, a.now)
  }

  /** Tokens stay, go, get revoked, or are new. */
  lemma TokensStep(cfg: Config, j: Joint, a: Act, k: Id)
    requires May(cfg, j, a) && k in Do(cfg, j, a).w.db.tokens
    ensures var row := Do(cfg, j, a).w.db.tokens[k];
            TokenFrom(j.w.db.tokens, k, row, RevokedIn(j, a)) || (Inserts(j, a, k, row) && k !in j.w.db.issued)
  {
    if a.Sys? {
      SysRows(cfg, j, a);
    } else if Alone(a) {
      assert Do(cfg, j, a).w.db == DoAlone(j.w.db, a);
      AloneToken(j, a, k);
    } else {
      FlowTokens(cfg, j, a, k);
    }
  }

  lemma AloneToken(j: Joint, a: Act, k: Id)
    requires Alone(a) && k in DoAlone(j.w.db, a).tokens
    ensures TokenFrom(j.w.db.tokens, k, DoAlone(j.w.db, a).tokens[k], RevokedIn(j, a))
  {
    AloneTokens(j.w.db, a);
  }

  lemma FlowTokens(cfg: Config, j: Joint, a: Act, k: Id)
    requires May(cfg, j, a) && !a.Sys? && !Alone(a) && k in Do(cfg, j, a).w.db.tokens
    ensures var row := Do(cfg, j, a).w.db.tokens[k];
            TokenFrom(j.w.db.tokens, k, row, RevokedIn(j, a)) || (Inserts(j, a, k, row) && k !in j.w.db.issued)
  {
    if a.InsertAccess? {
    } else if a.InsertRefresh? {
    } else if a.GiveUp? {
    } else {
      assert Do(cfg, j, a).w.db.tokens == j.w.db.tokens;
    }
  }

  lemma AloneTokens(db: State, a: Act)
    requires Alone(a)
    ensures a.RevokeTokens? ==> DoAlone(db, a).tokens == TokensRevoked(db.tokens, a.subject, a.clientId)
    ensures !a.RevokeTokens? ==> Part(DoAlone(db, a).tokens, db.tokens)
  {
    if a.OpenSession? {
    } else if a.Ask? {
    } else if a.Show? {
    } else if a.Drop? {
    } else if a.RevokeTokens? {
    } else if a.Sweep? {
      SweepTables(db, a.table, a.now);
    } else {
      assert a.DropCodes?;
    }
  }

  /** The requests this step deletes. */
  ghost function DroppedIn(j: Joint, a: Act): set<Id> {
    if a.DropRequest? && a.t in j.flows && Approves(j.flows[a.t]) then {j.flows[a.t].errand.request}
    else if a.Drop? then {a.request}
    else if a.Sweep? && a.table == RequestRows then j.w.db.requests.Keys - UnexpiredRequests(j.w.db.requests, a.now).Keys
    else {}
  }

  ghost function AskedIn(a: Act): set<Id> {
    if a.Ask? then {a.key} else {}
  }

  lemma RequestsStep(cfg: Config, j: Joint, a: Act)
    requires May(cfg, j, a)
    ensures Do(cfg, j, a).w.db.requests.Keys == (j.w.db.requests.Keys + AskedIn(a)) - DroppedIn(j, a)
  {
    if a.Sys? {
      SysRows(cfg, j, a);
    } else if Alone(a) {
      assert Do(cfg, j, a).w.db == DoAlone(j.w.db, a);
      AloneRequests(j, a);
    } else {
      FlowRequests(cfg, j, a);
      FlowDrops(j, a);
    }
  }

  lemma FlowDrops(j: Joint, a: Act)
    requires !a.Sys? && !Alone(a)
    ensures AskedIn(a) == {} && (!a.DropRequest? ==> DroppedIn(j, a) == {})
  {
  }

  lemma FlowRequests(cfg: Config, j: Joint, a: Act)
    requires May(cfg, j, a) && !a.Sys? && !Alone(a)
    ensures a.DropRequest? ==> Do(cfg, j, a).w.db.requests == j.w.db.requests - {j.flows[a.t].errand.request}
    ensures !a.DropRequest? ==> Do(cfg, j, a).w.db.requests == j.w.db.requests
  {
    if a.DropRequest? {
    } else if Begins(a) {
    } else if a.UseUp? {
    } else if a.InsertCode? {
    }
  }

  lemma AloneRequests(j: Joint, a: Act)
    requires Alone(a)
    ensures DoAlone(j.w.db, a).requests.Keys == (j.w.db.requests.Keys + AskedIn(a)) - DroppedIn(j, a)
  {
    if a.OpenSession? {
    } else if a.Ask? {
    } else if a.Show? {
    } else if a.Drop? {
    } else if a.RevokeTokens? {
    } else if a.DropCodes? {
    } else {
      SweepTables(j.w.db, a.table, a.now);
    }
  }

  lemma IssuedGrows(cfg: Config, j: Joint, a: Act)
    requires May(cfg, j, a)
    ensures j.w.db.issued <= Do(cfg, j, a).w.db.issued
  {
    StepIsMove(cfg, j, a);
    Interleavings.IssuedGrows(cfg, j.w, MoveOf(cfg, j, a));
  }

  lemma KeyIssued(cfg: Config, j: Joint, a: Act)
    requires May(cfg, j, a) && (a.InsertAccess? || a.InsertRefresh? || a.InsertCode? || a.Ask?)
    ensures a.key in Do(cfg, j, a).w.db.issued
  {
    if a.InsertAccess? {
    } else if a.InsertRefresh? {
    } else if a.InsertCode? {
    } else {
      assert Do(cfg, j, a).w.db == DoAlone(j.w.db, a);
    }
  }

  // ----- what one step does to a request -----------------------------------------------------------

  predicate Begins(a: Act) {
    a.SelectCode? || a.SelectToken? || a.SelectRequest?
  }

  predicate Advances(a: Act) {
    Begins(a) || a.UseUp? || a.Check? || a.GiveUp? || a.InsertAccess? || a.InsertRefresh? || a.InsertCode? || a.DropRequest?
  }

  /** A request keeps its errand; only its own steps move it, from stage to stage. */
  lemma FlowStep(cfg: Config, j: Joint, a: Act, t: Tid)
    requires May(cfg, j, a) && t in Do(cfg, j, a).flows
    ensures t in j.flows ==> SameErrand(j.flows[t], Do(cfg, j, a).flows[t])
    ensures t !in j.flows ==> Begins(a) && a.t == t
    ensures t in j.flows && Do(cfg, j, a).flows[t] != j.flows[t] ==> Advances(a) && !Begins(a) && a.t == t
    ensures t in j.flows && Final(j.flows[t]) ==> Do(cfg, j, a).flows[t] == j.flows[t]
  {
  }

  ghost predicate SameErrand(f: Flow, g: Flow) {
    if f.Denied? then g.Denied? else g.Flow? && g.errand == f.errand
  }

  /** Nothing more will happen to it. */
  predicate Final(f: Flow) {
    f.Denied? || f.stage.Minted? || f.stage.Sent? || f.stage.Stopped?
  }

  lemma FlowsStay(cfg: Config, j: Joint, a: Act, t: Tid)
    requires May(cfg, j, a) && t in j.flows
    ensures t in Do(cfg, j, a).flows
  {
  }

  // ----- marks ---------------------------------------------------------------------------------------

  ghost predicate Indexed(s: Story, n: nat) {
    n <= |s.acts| && |s.js| == |s.acts| + 1
  }

  /** The codes marked as used in the first n steps. */
  ghost function Used(s: Story, n: nat): set<Id>
    requires Indexed(s, n)
  {
    if n == 0 then {} else Used(s, n - 1) + UsedIn(s.js[n - 1], s.acts[n - 1])
  }

  ghost function Revoked(s: Story, n: nat): set<Id>
    requires Indexed(s, n)
  {
    if n == 0 then {} else Revoked(s, n - 1) + RevokedIn(s.js[n - 1], s.acts[n - 1])
  }

  ghost function Asked(s: Story, n: nat): set<Id>
    requires Indexed(s, n)
  {
    if n == 0 then {} else Asked(s, n - 1) + AskedIn(s.acts[n - 1])
  }

  ghost function Dropped(s: Story, n: nat): set<Id>
    requires Indexed(s, n)
  {
    if n == 0 then {} else Dropped(s, n - 1) + DroppedIn(s.js[n - 1], s.acts[n - 1])
  }

  ghost predicate ErrandIssued(f: Flow, issued: set<Id>) {
    && (Redeems(f) ==> f.errand.code in issued)
    && (Renews(f) ==> f.errand.token in issued)
    && (Approves(f) ==> f.errand.request in issued)
  }

  /** Ids in the tables and in the hands of requests were issued. */
  ghost predicate Known(j: Joint) {
    && j.w.db.codes.Keys <= j.w.db.issued && j.w.db.tokens.Keys <= j.w.db.issued && j.w.db.requests.Keys <= j.w.db.issued
    && forall t :: t in j.flows ==> ErrandIssued(j.flows[t], j.w.db.issued)
  }

  ghost predicate CodesMarked(codes: map<Id, Code>, used: set<Id>) {
    forall c :: c in codes ==> (codes[c].used <==> c in used)
  }

  ghost predicate TokensMarked(tokens: map<Id, Token>, revoked: set<Id>) {
    forall k :: k in tokens ==> (tokens[k].revoked <==> k in revoked)
  }

  lemma KnownKept(cfg: Config, j: Joint, a: Act)
    requires May(cfg, j, a) && Known(j)
    ensures Known(Do(cfg, j, a))
  {
    var v := Do(cfg, j, a);
    IssuedGrows(cfg, j, a);
    forall c | c in v.w.db.codes ensures c in v.w.db.issued {
      CodesStep(cfg, j, a, c);
      if a.InsertCode? {
        KeyIssued(cfg, j, a);
      }
    }
    forall k | k in v.w.db.tokens ensures k in v.w.db.issued {
      TokensStep(cfg, j, a, k);
      if a.InsertAccess? || a.InsertRefresh? {
        KeyIssued(cfg, j, a);
      }
    }
    RequestsStep(cfg, j, a);
    if a.Ask? {
      KeyIssued(cfg, j, a);
    }
    forall t | t in v.flows ensures ErrandIssued(v.flows[t], v.w.db.issued) {
      FlowIssued(cfg, j, a, t);
    }
  }

  lemma FlowIssued(cfg: Config, j: Joint, a: Act, t: Tid)
    requires May(cfg, j, a) && Known(j) && t in Do(cfg, j, a).flows && j.w.db.issued <= Do(cfg, j, a).w.db.issued
    ensures ErrandIssued(Do(cfg, j, a).flows[t], Do(cfg, j, a).w.db.issued)
  {
    FlowStep(cfg, j, a, t);
    if t !in j.flows {
      if a.SelectCode? {
      } else if a.SelectToken? {
      } else {
        assert a.SelectRequest?;
      }
    }
  }

  lemma CodesMarkedKept(cfg: Config, j: Joint, a: Act, used: set<Id>)
    requires May(cfg, j, a) && Known(j) && CodesMarked(j.w.db.codes, used) && used <= j.w.db.issued
    ensures CodesMarked(Do(cfg, j, a).w.db.codes, used + UsedIn(j, a)) && used + UsedIn(j, a) <= Do(cfg, j, a).w.db.issued
  {
    IssuedGrows(cfg, j, a);
    var v := Do(cfg, j, a);
    forall c | c in v.w.db.codes ensures v.w.db.codes[c].used <==> c in used + UsedIn(j, a) {
      CodesStep(cfg, j, a, c);
    }
  }

  lemma TokensMarkedKept(cfg: Config, j: Joint, a: Act, revoked: set<Id>)
    requires May(cfg, j, a) && Known(j) && TokensMarked(j.w.db.tokens, revoked) && revoked <= j.w.db.issued
    ensures TokensMarked(Do(cfg, j, a).w.db.tokens, revoked + RevokedIn(j, a)) && revoked + RevokedIn(j, a) <= Do(cfg, j, a).w.db.issued
  {
    IssuedGrows(cfg, j, a);
    var v := Do(cfg, j, a);
    forall k | k in v.w.db.tokens ensures v.w.db.tokens[k].revoked <==> k in revoked + RevokedIn(j, a) {
      TokensStep(cfg, j, a, k);
    }
  }

  lemma AskedAreIssued(cfg: Config, j: Joint, a: Act)
    requires May(cfg, j, a) && Known(j)
    ensures AskedIn(a) + DroppedIn(j, a) <= Do(cfg, j, a).w.db.issued
  {
    IssuedGrows(cfg, j, a);
    if a.Ask? {
      KeyIssued(cfg, j, a);
    } else {
      DroppedAreIssued(cfg, j, a);
    }
  }

  lemma DroppedAreIssued(cfg: Config, j: Joint, a: Act)
    requires May(cfg, j, a) && Known(j)
    ensures DroppedIn(j, a) <= j.w.db.issued
  {
    if a.DropRequest? {
    } else if a.Drop? {
    } else if a.Sweep? {
    }
  }

  lemma RequestsKept(cfg: Config, j: Joint, a: Act, asked: set<Id>, dropped: set<Id>)
    requires May(cfg, j, a) && Known(j) && j.w.db.requests.Keys == asked - dropped && asked <= j.w.db.issued && dropped <= j.w.db.issued
    ensures Do(cfg, j, a).w.db.requests.Keys == (asked + AskedIn(a)) - (dropped + DroppedIn(j, a))
    ensures asked + AskedIn(a) <= Do(cfg, j, a).w.db.issued && dropped + DroppedIn(j, a) <= Do(cfg, j, a).w.db.issued
  {
    RequestsStep(cfg, j, a);
    IssuedGrows(cfg, j, a);
    AskedAreIssued(cfg, j, a);
    AskedAreNew(cfg, j, a);
    MovedOn(j.w.db.issued, asked, AskedIn(a), dropped, DroppedIn(j, a));
  }

  lemma MovedOn(issued: set<Id>, asked: set<Id>, more: set<Id>, dropped: set<Id>, gone: set<Id>)
    requires dropped <= issued && more !! issued && (more != {} ==> gone == {})
    ensures (asked - dropped + more) - gone == (asked + more) - (dropped + gone)
  {
  }

  lemma AskedAreNew(cfg: Config, j: Joint, a: Act)
    requires May(cfg, j, a)
    ensures AskedIn(a) !! j.w.db.issued && (AskedIn(a) != {} ==> DroppedIn(j, a) == {})
  {
  }

  /** In every story the marks in the tables are those that were set, and requests are there from being asked to being dropped. */
  ghost predicate Marked(s: Story, n: nat)
    requires Indexed(s, n)
  {
    var j := s.js[n];
    && Known(j)
    && CodesMarked(j.w.db.codes, Used(s, n)) && Used(s, n) <= j.w.db.issued
    && TokensMarked(j.w.db.tokens, Revoked(s, n)) && Revoked(s, n) <= j.w.db.issued
    && j.w.db.requests.Keys == Asked(s, n) - Dropped(s, n) && Asked(s, n) <= j.w.db.issued && Dropped(s, n) <= j.w.db.issued
  }

  lemma {:induction false} AlwaysMarked(cfg: Config, s: Story, n: nat)
    requires Happens(cfg, s) && n <= |s.acts|
    ensures Marked(s, n)
  {
    if n > 0 {
      AlwaysMarked(cfg, s, n - 1);
      assert StoryAt(cfg, s, n - 1);
      var j, a := s.js[n - 1], s.acts[n - 1];
      KnownKept(cfg, j, a);
      CodesMarkedKept(cfg, j, a, Used(s, n - 1));
      TokensMarkedKept(cfg, j, a, Revoked(s, n - 1));
      RequestsKept(cfg, j, a, Asked(s, n - 1), Dropped(s, n - 1));
    }
  }

  // ----- outcomes -----------------------------------------------------------------------------------------

  /** The login behind the grant was found alive. */
  ghost predicate Vouched(w: World, t: Tid) {
    t in w.threads && w.threads[t].pc.Finished? && w.threads[t].pc.result.Alive?
  }

  ghost predicate FlowOk(w: World, t: Tid, f: Flow) {
    && (Grants(f) ==>
          && !f.stage.Inserted? && !f.stage.Sent?
          && (f.stage.Checked? || f.stage.Minting? || f.stage.HalfMinted? || f.stage.Minted? ==> Vouched(w, t) && w.threads[t].id == LoginOf(f.errand))
          && (f.stage.Stopped? ==> t in w.threads && w.threads[t].pc.Finished? && !Vouched(w, t)))
    && (Approves(f) ==> f.stage.Selected? || f.stage.Inserted? || f.stage.Sent?)
  }

  /** A check runs for the login of the grant whose name it bears. */
  ghost predicate CheckOk(w: World, t: Tid, f: Flow) {
    Grants(f) && t in w.threads ==> w.threads[t].id == LoginOf(f.errand)
  }

  ghost predicate FlowsOk(j: Joint) {
    forall t :: t in j.flows ==> FlowOk(j.w, t, j.flows[t]) && CheckOk(j.w, t, j.flows[t])
  }

  lemma ThreadsStay(cfg: Config, j: Joint, a: Act, t: Tid)
    requires May(cfg, j, a)
    ensures t in j.w.threads ==> t in Do(cfg, j, a).w.threads && Do(cfg, j, a).w.threads[t].id == j.w.threads[t].id
    ensures t in j.w.threads && j.w.threads[t].pc.Finished? ==> Do(cfg, j, a).w.threads[t] == j.w.threads[t]
    ensures t !in j.w.threads && t in Do(cfg, j, a).w.threads ==> a.Sys? && (a.e.FirstLoad? || a.e.SelectWhere?) && a.e.t == t
    ensures t !in j.w.threads && t in Do(cfg, j, a).w.threads && a.e.FirstLoad? ==> Do(cfg, j, a).w.threads[t].id == a.e.id
  {
    if a.Sys? {
      SysThreads(cfg, j.w, a.e, t);
    } else {
      OutsideStep(cfg, j, a);
    }
  }

  lemma SysThreads(cfg: Config, w: World, e: Move, t: Tid)
    requires Enabled(cfg, w, e)
    ensures var v := Threads.Next(cfg, w, e);
            && (t in w.threads ==> t in v.threads && v.threads[t].id == w.threads[t].id)
            && (t in w.threads && w.threads[t].pc.Finished? ==> v.threads[t] == w.threads[t])
            && (t !in w.threads && t in v.threads ==> (e.FirstLoad? || e.SelectWhere?) && e.t == t)
            && (t !in w.threads && t in v.threads && e.FirstLoad? ==> v.threads[t].id == e.id)
  {
    if e.Delete? {
      DeleteFrame(w, e.t);
    } else if e.Conclude? {
    } else if e.SaveUser? {
      if w.threads[e.t].pc.named {
      }
    } else if TakesMutex(e) {
    }
  }

  lemma FlowsOkKept(cfg: Config, j: Joint, a: Act)
    requires May(cfg, j, a) && FlowsOk(j)
    ensures FlowsOk(Do(cfg, j, a))
  {
    var v := Do(cfg, j, a);
    forall t | t in v.flows ensures FlowOk(v.w, t, v.flows[t]) && CheckOk(v.w, t, v.flows[t]) {
      FlowStep(cfg, j, a, t);
      ThreadsStay(cfg, j, a, t);
      if t in j.flows && v.flows[t] == j.flows[t] {
        assert FlowOk(j.w, t, j.flows[t]) && CheckOk(j.w, t, j.flows[t]);
      } else {
        MovedFlow(cfg, j, a, t);
      }
    }
  }

  lemma MovedFlow(cfg: Config, j: Joint, a: Act, t: Tid)
    requires May(cfg, j, a) && FlowsOk(j) && Advances(a) && a.t == t && t in Do(cfg, j, a).flows
    ensures FlowOk(Do(cfg, j, a).w, t, Do(cfg, j, a).flows[t]) && CheckOk(Do(cfg, j, a).w, t, Do(cfg, j, a).flows[t])
  {
    if t in j.flows {
      assert FlowOk(j.w, t, j.flows[t]) && CheckOk(j.w, t, j.flows[t]);
    }
    if a.SelectCode? {
    } else if a.SelectToken? {
    } else if a.SelectRequest? {
    } else if a.UseUp? {
    } else if a.Check? {
    } else if a.GiveUp? {
    } else if a.InsertAccess? {
    } else if a.InsertRefresh? {
    } else if a.InsertCode? {
    } else {
      assert a.DropRequest?;
    }
  }

  lemma {:induction false} AlwaysFlowsOk(cfg: Config, s: Story, n: nat)
    requires Happens(cfg, s) && n <= |s.acts|
    ensures FlowsOk(s.js[n])
  {
    if n > 0 {
      AlwaysFlowsOk(cfg, s, n - 1);
      assert StoryAt(cfg, s, n - 1);
      FlowsOkKept(cfg, s.js[n - 1], s.acts[n - 1]);
    }
  }

  /** A request that began stays, with its errand. */
  lemma {:induction false} ErrandStays(cfg: Config, s: Story, m: nat, n: nat, t: Tid)
    requires Happens(cfg, s) && m <= n <= |s.acts| && t in s.js[m].flows
    ensures t in s.js[n].flows && SameErrand(s.js[m].flows[t], s.js[n].flows[t])
    decreases n
  {
    if m < n {
      ErrandStays(cfg, s, m, n - 1, t);
      assert StoryAt(cfg, s, n - 1);
      FlowsStay(cfg, s.js[n - 1], s.acts[n - 1], t);
      FlowStep(cfg, s.js[n - 1], s.acts[n - 1], t);
    }
  }

  ghost predicate Done(j: Joint, t: Tid) {
    t in j.flows && Final(j.flows[t])
  }

  ghost predicate Mints(j: Joint, t: Tid) {
    t in j.flows && j.flows[t].Flow? && j.flows[t].stage.Minted?
  }

  ghost predicate Sends(j: Joint, t: Tid) {
    t in j.flows && j.flows[t].Flow? && j.flows[t].stage.Sent?
  }

  /** Everything the token endpoint asks of a code but that it be unused. */
  ghost predicate CodeFits(cfg: Config, db: State, i: CodeInput, now: int) {
    i.code in db.codes && var c := db.codes[i.code];
    && !(c.expiresAt < now) && c.clientId == i.clientId && c.redirect == i.redirect
    && VerifyPkce(cfg, c.challenge, c.method_, i.verifier) && ResourceOk(cfg, i.resource)
  }

  /** A finished exchange minted if and only if its SELECT came before any UPDATE of the code, and its login was found alive. */
  lemma RedeemsExactly(cfg: Config, s: Story, i: nat, n: nat, t: Tid, input: CodeInput, now: int)
    requires Happens(cfg, s) && i < n <= |s.acts| && s.acts[i] == SelectCode(t, input, now) && Done(s.js[n], t)
    ensures Mints(s.js[n], t) <==> CodeFits(cfg, s.js[i].w.db, input, now) && input.code !in Used(s, i) && Vouched(s.js[n].w, t)
  {
    assert StoryAt(cfg, s, i);
    AlwaysMarked(cfg, s, i);
    ErrandStays(cfg, s, i + 1, n, t);
    AlwaysFlowsOk(cfg, s, n);
    assert FlowOk(s.js[n].w, t, s.js[n].flows[t]);
  }

  /** Everything it asks of a refresh token but that it be unrevoked. */
  ghost predicate TokenFits(db: State, clientId: Url, token: Id, now: int) {
    token in db.tokens && var k := db.tokens[token];
    k.kind == Refresh && !(k.expiresAt < now) && k.clientId == clientId
  }

  lemma RenewsExactly(cfg: Config, s: Story, i: nat, n: nat, t: Tid, clientId: Url, token: Id, now: int)
    requires Happens(cfg, s) && i < n <= |s.acts| && s.acts[i] == SelectToken(t, clientId, token, now) && Done(s.js[n], t)
    ensures Mints(s.js[n], t) <==> TokenFits(s.js[i].w.db, clientId, token, now) && token !in Revoked(s, i) && Vouched(s.js[n].w, t)
  {
    assert StoryAt(cfg, s, i);
    AlwaysMarked(cfg, s, i);
    ErrandStays(cfg, s, i + 1, n, t);
    AlwaysFlowsOk(cfg, s, n);
    assert FlowOk(s.js[n].w, t, s.js[n].flows[t]);
  }

  /** What the approval asks of a request that is there. */
  ghost predicate RequestMatches(requests: map<Id, Request>, r: Id, session: Id, now: int) {
    r in requests ==> !(requests[r].expiresAt < now) && requests[r].session != "" && requests[r].session == session
  }

  lemma ApprovesExactly(cfg: Config, s: Story, i: nat, n: nat, t: Tid, r: Id, session: Id, visit: Tid, now: int)
    requires Happens(cfg, s) && i < n <= |s.acts| && s.acts[i] == SelectRequest(t, r, session, visit, now) && Done(s.js[n], t)
    ensures Sends(s.js[n], t) <==> r in Asked(s, i) && r !in Dropped(s, i) && RequestMatches(s.js[i].w.db.requests, r, session, now)
  {
    assert StoryAt(cfg, s, i);
    AlwaysMarked(cfg, s, i);
    ErrandStays(cfg, s, i + 1, n, t);
    AlwaysFlowsOk(cfg, s, n);
    assert FlowOk(s.js[n].w, t, s.js[n].flows[t]);
    assert r in s.js[i].w.db.requests <==> r in Asked(s, i) && r !in Dropped(s, i);
  }

  // ----- two at once ---------------------------------------------------------------------------------------

  lemma {:induction false} UsedWhen(s: Story, n: nat, c: Id)
    requires Indexed(s, n)
    ensures c in Used(s, n) <==> exists k :: 0 <= k < n && c in UsedIn(s.js[k], s.acts[k])
  {
    if n > 0 {
      UsedWhen(s, n - 1, c);
    }
  }

  lemma {:induction false} RevokedWhen(s: Story, n: nat, k: Id)
    requires Indexed(s, n)
    ensures k in Revoked(s, n) <==> exists m :: 0 <= m < n && k in RevokedIn(s.js[m], s.acts[m])
  {
    if n > 0 {
      RevokedWhen(s, n - 1, k);
    }
  }

  lemma {:induction false} DroppedWhen(s: Story, n: nat, r: Id)
    requires Indexed(s, n)
    ensures r in Dropped(s, n) <==> exists k :: 0 <= k < n && r in DroppedIn(s.js[k], s.acts[k])
  {
    if n > 0 {
      DroppedWhen(s, n - 1, r);
    }
  }

  /** In every interleaving, no approval that looks for its request after the DELETE of a denial sends a code. */
  lemma DeniedStays(cfg: Config, s: Story, d: nat, i: nat, n: nat, t: Tid, r: Id, session: Id, visit: Tid, now: int)
    requires Happens(cfg, s) && d < i < n <= |s.acts| && s.acts[d] == Drop(r)
    requires s.acts[i] == SelectRequest(t, r, session, visit, now) && Done(s.js[n], t)
    ensures !Sends(s.js[n], t)
  {
    ApprovesExactly(cfg, s, i, n, t, r, session, visit, now);
    DroppedWhen(s, i, r);
    assert r in DroppedIn(s.js[d], s.acts[d]);
  }

  /** Before it begins, a request has taken no step. */
  lemma NotBefore(cfg: Config, s: Story, i: nat, k: nat, t: Tid)
    requires Happens(cfg, s) && k < i < |s.acts| && Begins(s.acts[i]) && s.acts[i].t == t
    ensures t !in s.js[k].flows
  {
    assert StoryAt(cfg, s, i);
    if t in s.js[k].flows {
      ErrandStays(cfg, s, k, i, t);
    }
  }

  /** Only t and u mark the code before n. */
  ghost predicate OnlyUsedBy(s: Story, n: nat, c: Id, t: Tid, u: Tid)
    requires Indexed(s, n)
  {
    forall k :: 0 <= k < n && c in UsedIn(s.js[k], s.acts[k]) ==> s.acts[k] == UseUp(t) || s.acts[k] == UseUp(u)
  }

  /** At t's SELECT the code is unmarked exactly if u has not got to its UPDATE. */
  lemma UnusedUntil(cfg: Config, s: Story, i: nat, j: nat, n: nat, t: Tid, u: Tid, x: CodeInput, y: CodeInput, at: int, later: int)
    requires Happens(cfg, s) && i < n <= |s.acts| && j < n && t != u && x.code == y.code && OnlyUsedBy(s, n, x.code, t, u)
    requires s.acts[i] == SelectCode(t, x, at) && s.acts[j] == SelectCode(u, y, later)
    ensures x.code !in Used(s, i) <==> forall k :: 0 <= k < i ==> s.acts[k] != UseUp(u)
  {
    UsedWhen(s, i, x.code);
    forall k | 0 <= k < i && x.code in UsedIn(s.js[k], s.acts[k]) ensures s.acts[k] == UseUp(u) {
      NotBefore(cfg, s, i, k, t);
    }
    forall k | 0 <= k < i && s.acts[k] == UseUp(u) ensures x.code in UsedIn(s.js[k], s.acts[k]) {
      MarksItsCode(cfg, s, j, k, u, y, later);
    }
  }

  lemma MarksItsCode(cfg: Config, s: Story, j: nat, k: nat, u: Tid, y: CodeInput, later: int)
    requires Happens(cfg, s) && j < |s.acts| && k < |s.acts| && s.acts[j] == SelectCode(u, y, later) && s.acts[k] == UseUp(u)
    ensures y.code in UsedIn(s.js[k], s.acts[k])
  {
    assert StoryAt(cfg, s, k);
    assert StoryAt(cfg, s, j);
    if k < j {
      NotBefore(cfg, s, j, k, u);
    } else {
      ErrandStays(cfg, s, j + 1, k, u);
    }
  }

  /**
    Two exchanges of one code that it fits, with nobody else using it: both mint if and only if each SELECT comes before
    the other's UPDATE and both logins are found alive.
   */
  lemma BothRedeem(cfg: Config, s: Story, i: nat, j: nat, n: nat, t: Tid, u: Tid, x: CodeInput, y: CodeInput, at: int, later: int)
    requires Happens(cfg, s) && i < n <= |s.acts| && j < n && t != u && x.code == y.code && OnlyUsedBy(s, n, x.code, t, u)
    requires s.acts[i] == SelectCode(t, x, at) && s.acts[j] == SelectCode(u, y, later) && Done(s.js[n], t) && Done(s.js[n], u)
    requires CodeFits(cfg, s.js[i].w.db, x, at) && CodeFits(cfg, s.js[j].w.db, y, later)
    ensures Mints(s.js[n], t) && Mints(s.js[n], u)
       <==> && (forall k :: 0 <= k < i ==> s.acts[k] != UseUp(u)) && (forall k :: 0 <= k < j ==> s.acts[k] != UseUp(t))
            && Vouched(s.js[n].w, t) && Vouched(s.js[n].w, u)
  {
    RedeemsExactly(cfg, s, i, n, t, x, at);
    RedeemsExactly(cfg, s, j, n, u, y, later);
    UnusedUntil(cfg, s, i, j, n, t, u, x, y, at, later);
    UnusedUntil(cfg, s, j, i, n, u, t, y, x, later, at);
  }

  ghost predicate OnlyRevokedBy(s: Story, n: nat, k: Id, t: Tid, u: Tid)
    requires Indexed(s, n)
  {
    forall m :: 0 <= m < n && k in RevokedIn(s.js[m], s.acts[m]) ==> s.acts[m] == GiveUp(t) || s.acts[m] == GiveUp(u)
  }

  lemma UnrevokedUntil(cfg: Config, s: Story, i: nat, j: nat, n: nat, t: Tid, u: Tid, a: Url, b: Url, token: Id, at: int, later: int)
    requires Happens(cfg, s) && i < n <= |s.acts| && j < n && t != u && OnlyRevokedBy(s, n, token, t, u)
    requires s.acts[i] == SelectToken(t, a, token, at) && s.acts[j] == SelectToken(u, b, token, later)
    ensures token !in Revoked(s, i) <==> forall k :: 0 <= k < i ==> s.acts[k] != GiveUp(u)
  {
    RevokedWhen(s, i, token);
    forall k | 0 <= k < i && token in RevokedIn(s.js[k], s.acts[k]) ensures s.acts[k] == GiveUp(u) {
      NotBefore(cfg, s, i, k, t);
      assert StoryAt(cfg, s, k);
    }
    forall k | 0 <= k < i && s.acts[k] == GiveUp(u) ensures token in RevokedIn(s.js[k], s.acts[k]) {
      GivesUpItsToken(cfg, s, j, k, u, b, token, later);
    }
  }

  lemma GivesUpItsToken(cfg: Config, s: Story, j: nat, k: nat, u: Tid, b: Url, token: Id, later: int)
    requires Happens(cfg, s) && j < |s.acts| && k < |s.acts| && s.acts[j] == SelectToken(u, b, token, later) && s.acts[k] == GiveUp(u)
    ensures token in RevokedIn(s.js[k], s.acts[k])
  {
    assert StoryAt(cfg, s, k);
    assert StoryAt(cfg, s, j);
    if k < j {
      NotBefore(cfg, s, j, k, u);
    } else {
      ErrandStays(cfg, s, j + 1, k, u);
    }
  }

  /** The same for two exchanges of one refresh token. */
  lemma BothRenew(cfg: Config, s: Story, i: nat, j: nat, n: nat, t: Tid, u: Tid, a: Url, b: Url, token: Id, at: int, later: int)
    requires Happens(cfg, s) && i < n <= |s.acts| && j < n && t != u && OnlyRevokedBy(s, n, token, t, u)
    requires s.acts[i] == SelectToken(t, a, token, at) && s.acts[j] == SelectToken(u, b, token, later) && Done(s.js[n], t) && Done(s.js[n], u)
    requires TokenFits(s.js[i].w.db, a, token, at) && TokenFits(s.js[j].w.db, b, token, later)
    ensures Mints(s.js[n], t) && Mints(s.js[n], u)
       <==> && (forall k :: 0 <= k < i ==> s.acts[k] != GiveUp(u)) && (forall k :: 0 <= k < j ==> s.acts[k] != GiveUp(t))
            && Vouched(s.js[n].w, t) && Vouched(s.js[n].w, u)
  {
    RenewsExactly(cfg, s, i, n, t, a, token, at);
    RenewsExactly(cfg, s, j, n, u, b, token, later);
    UnrevokedUntil(cfg, s, i, j, n, t, u, a, b, token, at, later);
    UnrevokedUntil(cfg, s, j, i, n, u, t, b, a, token, later, at);
  }

  ghost predicate OnlyDroppedBy(s: Story, n: nat, r: Id, t: Tid, u: Tid)
    requires Indexed(s, n)
  {
    forall k :: 0 <= k < n && r in DroppedIn(s.js[k], s.acts[k]) ==> s.acts[k] == DropRequest(t) || s.acts[k] == DropRequest(u)
  }

  lemma ThereUntil(cfg: Config, s: Story, i: nat, j: nat, n: nat, t: Tid, u: Tid, r: Id, sid: Id, visit: Tid, at: int, sid2: Id, visit2: Tid, later: int)
    requires Happens(cfg, s) && i < n <= |s.acts| && j < n && t != u && OnlyDroppedBy(s, n, r, t, u)
    requires s.acts[i] == SelectRequest(t, r, sid, visit, at) && s.acts[j] == SelectRequest(u, r, sid2, visit2, later)
    ensures r !in Dropped(s, i) <==> forall k :: 0 <= k < i ==> s.acts[k] != DropRequest(u)
  {
    DroppedWhen(s, i, r);
    forall k | 0 <= k < i && r in DroppedIn(s.js[k], s.acts[k]) ensures s.acts[k] == DropRequest(u) {
      NotBefore(cfg, s, i, k, t);
      assert StoryAt(cfg, s, k);
    }
    forall k | 0 <= k < i && s.acts[k] == DropRequest(u) ensures r in DroppedIn(s.js[k], s.acts[k]) {
      DropsItsRequest(cfg, s, j, k, u, r, sid2, visit2, later);
    }
  }

  lemma DropsItsRequest(cfg: Config, s: Story, j: nat, k: nat, u: Tid, r: Id, sid: Id, visit: Tid, later: int)
    requires Happens(cfg, s) && j < |s.acts| && k < |s.acts|
    requires s.acts[j] == SelectRequest(u, r, sid, visit, later) && s.acts[k] == DropRequest(u)
    ensures r in DroppedIn(s.js[k], s.acts[k])
  {
    assert StoryAt(cfg, s, k);
    assert StoryAt(cfg, s, j);
    if k < j {
      NotBefore(cfg, s, j, k, u);
    } else {
      ErrandStays(cfg, s, j + 1, k, u);
    }
  }

  /** Two approvals of one request: both send a code if and only if each SELECT comes before the other's DELETE. */
  lemma BothApprove(cfg: Config, s: Story, i: nat, j: nat, n: nat, t: Tid, u: Tid, r: Id, sid: Id, visit: Tid, at: int, sid2: Id, visit2: Tid, later: int)
    requires Happens(cfg, s) && i < n <= |s.acts| && j < n && t != u && OnlyDroppedBy(s, n, r, t, u)
    requires s.acts[i] == SelectRequest(t, r, sid, visit, at) && s.acts[j] == SelectRequest(u, r, sid2, visit2, later)
    requires Done(s.js[n], t) && Done(s.js[n], u) && r in Asked(s, i) && r in Asked(s, j)
    requires RequestMatches(s.js[i].w.db.requests, r, sid, at) && RequestMatches(s.js[j].w.db.requests, r, sid2, later)
    ensures Sends(s.js[n], t) && Sends(s.js[n], u)
       <==> (forall k :: 0 <= k < i ==> s.acts[k] != DropRequest(u)) && (forall k :: 0 <= k < j ==> s.acts[k] != DropRequest(t))
  {
    ApprovesExactly(cfg, s, i, n, t, r, sid, visit, at);
    ApprovesExactly(cfg, s, j, n, u, r, sid2, visit2, later);
    ThereUntil(cfg, s, i, j, n, t, u, r, sid, visit, at, sid2, visit2, later);
    ThereUntil(cfg, s, j, i, n, u, t, r, sid2, visit2, later, sid, visit, at);
  }
}
