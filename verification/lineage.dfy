/**
  Where a token comes from, whatever overlapped: every token of every story goes back to a request, the page shown for it,
  its approval and the redemption of its code. Each step copies what it found, so nothing is mixed up on the way.
 */
module Lineage {
  import opened Tables
  import opened Urls
  import opened OAuth
  import opened Threads
  import opened Exchanges
  import opened Overlaps

  // ----- one step back ------------------------------------------------------------------------

  ghost predicate TokenMadeIn(j: Joint, a: Act, k: Id, row: Token) {
    && (a.InsertAccess? || a.InsertRefresh?) && a.key == k && a.t in j.flows && Grants(j.flows[a.t])
    && row.(revoked := false) == NewToken(j.flows[a.t].errand, if a.InsertAccess? then Access else Refresh, a.now)
  }

  /** A stored token is as its INSERT made it, but perhaps revoked. */
  lemma {:induction false} TokenMade(cfg: Config, s: Story, n: nat, k: Id) returns (i: nat)
    requires Happens(cfg, s) && n <= |s.acts| && k in s.js[n].w.db.tokens
    ensures i < n && TokenMadeIn(s.js[i], s.acts[i], k, s.js[n].w.db.tokens[k])
  {
    assert n > 0;
    assert StoryAt(cfg, s, n - 1);
    TokensStep(cfg, s.js[n - 1], s.acts[n - 1], k);
    if Inserts(s.js[n - 1], s.acts[n - 1], k, s.js[n].w.db.tokens[k]) {
      i := n - 1;
    } else {
      i := TokenMade(cfg, s, n - 1, k);
    }
  }

  ghost predicate CodeMadeIn(j: Joint, a: Act, c: Id, row: Code) {
    InsertsCode(j, a, c, row.(used := false))
  }

  lemma {:induction false} CodeMade(cfg: Config, s: Story, n: nat, c: Id) returns (i: nat)
    requires Happens(cfg, s) && n <= |s.acts| && c in s.js[n].w.db.codes
    ensures i < n && CodeMadeIn(s.js[i], s.acts[i], c, s.js[n].w.db.codes[c])
  {
    assert n > 0;
    assert StoryAt(cfg, s, n - 1);
    CodesStep(cfg, s.js[n - 1], s.acts[n - 1], c);
    if InsertsCode(s.js[n - 1], s.acts[n - 1], c, s.js[n].w.db.codes[c]) {
      i := n - 1;
    } else {
      i := CodeMade(cfg, s, n - 1, c);
    }
  }

  /** What one step makes of a stored request: shown to a session perhaps, or new. */
  ghost predicate RequestFrom(requests: map<Id, Request>, a: Act, r: Id, row: Request) {
    || (r in requests && (row == requests[r] || (a == Show(r, row.session) && row == requests[r].(session := row.session))))
    || (a == Ask(r, row) && row.session == "")
  }

  lemma RequestStep(cfg: Config, j: Joint, a: Act, r: Id)
    requires May(cfg, j, a) && r in Do(cfg, j, a).w.db.requests
    ensures RequestFrom(j.w.db.requests, a, r, Do(cfg, j, a).w.db.requests[r])
  {
    if a.Sys? {
      SysRows(cfg, j, a);
    } else if Alone(a) {
      assert Do(cfg, j, a).w.db == DoAlone(j.w.db, a);
      AloneRequest(j.w.db, a, r);
    } else {
      FlowRequests(cfg, j, a);
    }
  }

  lemma AloneRequest(db: State, a: Act, r: Id)
    requires Alone(a) && r in DoAlone(db, a).requests && (a.Ask? ==> a.asked.session == "")
    ensures RequestFrom(db.requests, a, r, DoAlone(db, a).requests[r])
  {
    if a.OpenSession? {
    } else if a.Ask? {
    } else if a.Show? {
    } else if a.Drop? {
    } else if a.RevokeTokens? {
    } else if a.Sweep? {
      SweepTables(db, a.table, a.now);
    } else {
      assert a.DropCodes?;
    }
  }

  /** A stored request is as it was asked, but for the session it was last shown to. */
  lemma {:induction false} RequestMade(cfg: Config, s: Story, n: nat, r: Id) returns (b: nat, v: nat)
    requires Happens(cfg, s) && n <= |s.acts| && r in s.js[n].w.db.requests
    ensures var row := s.js[n].w.db.requests[r];
            && b < n && s.acts[b] == Ask(r, row.(session := ""))
            && (row.session != "" ==> b < v < n && s.acts[v] == Show(r, row.session))
  {
    assert n > 0;
    assert StoryAt(cfg, s, n - 1);
    var a := s.acts[n - 1];
    var row := s.js[n].w.db.requests[r];
    RequestStep(cfg, s.js[n - 1], a, r);
    if a == Ask(r, row) && row.session == "" {
      b, v := n - 1, 0;
    } else {
      b, v := RequestMade(cfg, s, n - 1, r);
      if row != s.js[n - 1].w.db.requests[r] {
        v := n - 1;
      }
    }
  }

  // ----- errands ------------------------------------------------------------------------------------

  /** Request t began at step b, with this errand. */
  ghost predicate BeganAt(s: Story, b: nat, t: Tid, e: Errand) {
    && b < |s.acts| && b + 1 < |s.js|
    && Begins(s.acts[b]) && s.acts[b].t == t
    && t in s.js[b + 1].flows && s.js[b + 1].flows[t].Flow? && s.js[b + 1].flows[t].errand == e
  }

  lemma {:induction false} Began(cfg: Config, s: Story, n: nat, t: Tid) returns (b: nat)
    requires Happens(cfg, s) && n <= |s.acts| && t in s.js[n].flows && s.js[n].flows[t].Flow?
    ensures b < n && BeganAt(s, b, t, s.js[n].flows[t].errand)
  {
    assert n > 0;
    assert StoryAt(cfg, s, n - 1);
    FlowStep(cfg, s.js[n - 1], s.acts[n - 1], t);
    if t in s.js[n - 1].flows {
      b := Began(cfg, s, n - 1, t);
    } else {
      b := n - 1;
    }
  }

  /** What the SELECT at the beginning of an errand found. */
  ghost predicate Found(cfg: Config, j: Joint, a: Act, e: Errand) {
    match e
    case Redeem(c, row) =>
      a.SelectCode? && a.input.code == c && c in j.w.db.codes && row == j.w.db.codes[c] && CodeError(cfg, j.w.db, a.input, a.now).None?
    case Renew(k, old_) =>
      a.SelectToken? && a.token == k && k in j.w.db.tokens && old_ == j.w.db.tokens[k] && RefreshTokenOk(j.w.db, a.clientId, k, a.now)
    case Approval(r, asked, subject, login) =>
      && a.SelectRequest? && a.request == r && r in j.w.db.requests && asked == j.w.db.requests[r]
      && RequestFits(j.w.db.requests, r, a.session, a.now)
      && a.visit in j.w.threads && login == j.w.threads[a.visit].id && j.w.threads[a.visit].pc.Finished?
      && j.w.threads[a.visit].pc.result.Alive? && subject == j.w.threads[a.visit].pc.result.row.subject
  }

  lemma BeganFinds(cfg: Config, s: Story, b: nat, t: Tid, e: Errand)
    requires Happens(cfg, s) && BeganAt(s, b, t, e)
    ensures Found(cfg, s.js[b], s.acts[b], e)
  {
    assert StoryAt(cfg, s, b);
    FindsOne(cfg, s.js[b], s.acts[b], e);
  }

  lemma FindsOne(cfg: Config, j: Joint, a: Act, e: Errand)
    requires May(cfg, j, a) && Begins(a) && a.t in Do(cfg, j, a).flows
    requires Do(cfg, j, a).flows[a.t].Flow? && Do(cfg, j, a).flows[a.t].errand == e
    ensures Found(cfg, j, a, e)
  {
    if a.SelectCode? {
    } else if a.SelectToken? {
    } else {
      assert a.SelectRequest?;
    }
  }

  // ----- whole lines ----------------------------------------------------------------------------------

  ghost predicate SameGrant(k: Token, c: Code) {
    k.clientId == c.clientId && k.subject == c.subject && k.scope == c.scope && k.idp == c.idp
  }

  /** Back through any number of renewals to the SELECT of the code. */
  lemma {:induction false} TokenRoot(cfg: Config, s: Story, n: nat, k: Id) returns (x: nat)
    requires Happens(cfg, s) && n <= |s.acts| && k in s.js[n].w.db.tokens
    ensures x < n && s.acts[x].SelectCode? && s.acts[x].input.code in s.js[x].w.db.codes
    ensures CodeError(cfg, s.js[x].w.db, s.acts[x].input, s.acts[x].now).None?
    ensures SameGrant(s.js[n].w.db.tokens[k], s.js[x].w.db.codes[s.acts[x].input.code])
    decreases n
  {
    var i := TokenMade(cfg, s, n, k);
    var t := s.acts[i].t;
    var e := s.js[i].flows[t].errand;
    var b := Began(cfg, s, i, t);
    BeganFinds(cfg, s, b, t, e);
    if e.Redeem? {
      x := b;
    } else {
      x := TokenRoot(cfg, s, b, e.token);
    }
  }

  /** The steps a token rests on. */
  datatype Line = Line(asked: nat, shown: nat, approved: nat, sent: nat, redeemed: nat)

  /** The line of a code: asked for, shown to a session, approved by that session, sent. */
  ghost predicate CodeLine(s: Story, l: Line, c: Id, row: Code) {
    && l.asked < l.shown < l.approved < l.sent < |s.acts| < |s.js|
    && s.acts[l.asked].Ask? && s.acts[l.shown].Show? && s.acts[l.approved].SelectRequest? && s.acts[l.sent].InsertCode?
    && s.acts[l.shown].request == s.acts[l.approved].request == s.acts[l.asked].key
    && s.acts[l.shown].session == s.acts[l.approved].session != ""
    && s.acts[l.sent].key == c && s.acts[l.sent].t == s.acts[l.approved].t
    && var (asked, visit, w) := (s.acts[l.asked].asked, s.acts[l.approved].visit, s.js[l.approved].w);
    && row.clientId == asked.clientId && row.redirect == asked.redirect && row.scope == asked.scope
    && row.challenge == asked.challenge && row.method_ == asked.method_
    && visit in w.threads && w.threads[visit].pc.Finished? && w.threads[visit].pc.result.Alive?
    && row.idp == w.threads[visit].id && row.subject == w.threads[visit].pc.result.row.subject
  }

  lemma CodeTracesBack(cfg: Config, s: Story, n: nat, c: Id) returns (l: Line)
    requires Happens(cfg, s) && n <= |s.acts| && c in s.js[n].w.db.codes
    ensures CodeLine(s, l, c, s.js[n].w.db.codes[c]) && l.sent < n
  {
    var i := CodeMade(cfg, s, n, c);
    var t := s.acts[i].t;
    var a := Began(cfg, s, i, t);
    BeganFinds(cfg, s, a, t, s.js[i].flows[t].errand);
    var b, v := RequestMade(cfg, s, a, s.acts[a].request);
    l := Line(b, v, a, i, n);
  }

  /**
    Every token of every story: a client asked, the page for it was shown to a session, that session approved as the user
    of a login found alive, and the same client redeemed the code with the verifier of its own challenge. Client,
    subject, scope and login of the token are those of that request and that login.
   */
  lemma StoryTracesBack(cfg: Config, s: Story, n: nat, k: Id) returns (l: Line)
    requires Happens(cfg, s) && n <= |s.acts| && k in s.js[n].w.db.tokens
    ensures l.sent < l.redeemed < n && s.acts[l.redeemed].SelectCode?
    ensures var (input, codes) := (s.acts[l.redeemed].input, s.js[l.redeemed].w.db.codes);
            && input.code in codes && CodeLine(s, l, input.code, codes[input.code])
            && SameGrant(s.js[n].w.db.tokens[k], codes[input.code])
            && input.clientId == s.acts[l.asked].asked.clientId && input.redirect == s.acts[l.asked].asked.redirect
            && VerifyPkce(cfg, s.acts[l.asked].asked.challenge, s.acts[l.asked].asked.method_, input.verifier)
  {
    var x := TokenRoot(cfg, s, n, k);
    var c := s.acts[x].input.code;
    l := CodeTracesBack(cfg, s, x, c);
    l := l.(redeemed := x);
  }
}
