/** Events the provider pushes: ZITADEL webhooks (zitadel_events.go) and back-channel logout (web_auth.go). */
module Events {
  import opened Tables
  import opened Oidc
  import opened Auth
  import opened Runs
  import opened Invariants
  import opened Grants

  const ACCOUNT_EVENTS := {"user.locked", "user.deactivated", "user.removed"}
  const USER_TOKEN_EVENTS := {"user.token.removed", "user.human.signed.out", "user.human.refresh.token.removed"}
  const OIDC_SESSION_EVENTS := {"oidc_session.access_token.revoked", "oidc_session.refresh_token.revoked"}
  const REVOKE_GRANT_EVENTS := {"user.grant.removed", "user.grant.cascade.removed", "user.grant.deactivated"}
  const REFRESH_GRANT_EVENTS := {"user.grant.changed", "user.grant.cascade.changed", "user.grant.added", "user.grant.reactivated"}
  const EMAIL_EVENTS := {"user.human.email.changed", "user.human.email.verified"}

  /** kind is the event type, aggregate its trimmed aggregate id; project and user come from the payload, "" when absent. */
  datatype Notice = Notice(kind: string, aggregate: string, project: string, user: string)

  datatype Effect = Ignored | Ends(which: Where) | Forces(which: Where)

  predicate ForeignProject(cfg: Config, project: string) {
    project != "" && cfg.projects != [] && forall p :: p in cfg.projects ==> p.id != project
  }

  /** handleZitadelEvent: the cases in order. */
  function ZitadelEffect(cfg: Config, logins: map<Id, Login>, n: Notice): Effect {
    if n.kind in ACCOUNT_EVENTS && n.aggregate != "" then Ends(BySubject(n.aggregate))
    else if n.kind in USER_TOKEN_EVENTS && n.aggregate != "" then Ends(BySubject(n.aggregate))
    else if n.kind in EMAIL_EVENTS && n.aggregate != "" then Forces(BySubject(n.aggregate))
    else if n.kind == "session.terminated" && n.aggregate != "" then
      if exists i :: i in logins && logins[i].sid == n.aggregate then Ends(BySid(n.aggregate)) else Ignored
    else if n.kind in OIDC_SESSION_EVENTS then Forces(All)
    else if StartsWith(n.kind, "user.grant.") then
      if ForeignProject(cfg, n.project) then Ignored
      else if n.kind in REVOKE_GRANT_EVENTS && n.user != "" then Ends(BySubject(n.user))
      else if n.kind in REFRESH_GRANT_EVENTS && n.user != "" then Forces(BySubject(n.user))
      else if n.kind in REVOKE_GRANT_EVENTS || n.kind in REFRESH_GRANT_EVENTS then Forces(All)
      else Ignored
    else Ignored
  }

  /** handleBackchannelLogout, for a logout token that names a session, a subject, or both. */
  function BackchannelWhere(sub: string, sid: string): Where {
    if sid != "" && sub != "" then BySidAndSubject(sid, sub)
    else if sid != "" then BySid(sid)
    else BySubject(sub)
  }

  function Apply(s: State, e: Effect): State {
    match e
    case Ignored => s
    case Ends(w) => EndLogins(s, Selected(s, w))
    case Forces(w) => ForceRefresh(s, w)
  }

  /** What the effect amounts to as a step of a run. */
  ghost predicate ActsAs(cfg: Config, s: State, e: Effect, at: int, t: State) {
    && (e.Ignored? ==> t == s)
    && (e.Ends? ==> t == Step(cfg, s, EndEvent(at, e.which)).0)
    && (e.Forces? ==> t == Step(cfg, s, ForceEvent(at, e.which)).0)
  }

  /** An event is a step of a run, and so keeps what every step keeps. */
  lemma EffectIsStep(cfg: Config, s: State, e: Effect, at: nat)
    ensures ActsAs(cfg, s, e, at, Apply(s, e))
    ensures Inv(cfg, s) ==> Inv(cfg, Apply(s, e))
  {
    if Inv(cfg, s) {
      if e.Ends? {
        StepKeepsInv(cfg, s, EndEvent(at, e.which));
      } else if e.Forces? {
        StepKeepsInv(cfg, s, ForceEvent(at, e.which));
      }
    }
  }

  // ----- event by event ------------------------------------------------------------------------------

  /** The event does not speak of a project that is none of ours. */
  ghost predicate Ours(cfg: Config, n: Notice) {
    n.project == "" || cfg.projects == [] || exists p :: p in cfg.projects && p.id == n.project
  }

  /** The event ends what this login has: its user was locked or signed out or lost a grant, or its provider session ended. */
  ghost predicate EndedBy(cfg: Config, n: Notice, row: Login) {
    || (row.subject != "" && n.aggregate == row.subject && n.kind in ACCOUNT_EVENTS + USER_TOKEN_EVENTS)
    || (row.subject != "" && n.user == row.subject && n.kind in REVOKE_GRANT_EVENTS && Ours(cfg, n))
    || (row.sid != "" && n.aggregate == row.sid && n.kind == "session.terminated")
  }

  /** The event changes what the provider would say of this login's user, or may do so of everybody's. */
  ghost predicate RereadBy(cfg: Config, n: Notice, row: Login) {
    || (row.subject != "" && n.aggregate == row.subject && n.kind in EMAIL_EVENTS)
    || (row.subject != "" && n.user == row.subject && n.kind in REFRESH_GRANT_EVENTS && Ours(cfg, n))
    || (n.user == "" && n.kind in REVOKE_GRANT_EVENTS + REFRESH_GRANT_EVENTS && Ours(cfg, n))
    || n.kind in OIDC_SESSION_EVENTS
  }

  /** Exactly these logins go, with what is bound to them; exactly those are due; nothing else changes. */
  ghost predicate Handled(cfg: Config, s: State, n: Notice, t: State) {
    && (forall i :: i in t.logins <==> i in s.logins && !EndedBy(cfg, n, s.logins[i]))
    && (forall i :: i in t.logins ==>
          t.logins[i] == if RereadBy(cfg, n, s.logins[i]) then s.logins[i].(accessExpiresAt := 0) else s.logins[i])
    && Fewer(s, t) && t.users == s.users && SameFlow(s, t)
    && (forall k :: k in t.sessions <==> k in s.sessions && !(s.sessions[k].idp in s.logins && s.sessions[k].idp !in t.logins))
    && (forall k :: k in t.codes <==> k in s.codes && !(s.codes[k].idp in s.logins && s.codes[k].idp !in t.logins))
    && (forall k :: k in t.tokens <==> k in s.tokens && !(s.tokens[k].idp in s.logins && s.tokens[k].idp !in t.logins))
  }

  /** No event is of two kinds. */
  lemma KindsApart(kind: string)
    ensures kind in EMAIL_EVENTS ==> kind !in ACCOUNT_EVENTS + USER_TOKEN_EVENTS + OIDC_SESSION_EVENTS
    ensures kind in ACCOUNT_EVENTS + USER_TOKEN_EVENTS ==> kind !in OIDC_SESSION_EVENTS
    ensures kind == "session.terminated" ==> kind !in ACCOUNT_EVENTS + USER_TOKEN_EVENTS + OIDC_SESSION_EVENTS + EMAIL_EVENTS
    ensures kind in REVOKE_GRANT_EVENTS ==> kind !in REFRESH_GRANT_EVENTS
    ensures kind in REVOKE_GRANT_EVENTS + REFRESH_GRANT_EVENTS ==> StartsWith(kind, "user.grant.")
  {
  }

  /** Grant events are told from all others by their prefix. */
  lemma GrantKinds(kind: string)
    requires StartsWith(kind, "user.grant.")
    ensures kind !in ACCOUNT_EVENTS && kind !in USER_TOKEN_EVENTS && kind !in EMAIL_EVENTS && kind !in OIDC_SESSION_EVENTS
    ensures kind != "session.terminated"
  {
    assert kind[0] == kind[..11][0] == 'u' && kind[5] == kind[..11][5] == 'g';
  }

  /** The effect the cases choose reaches exactly the logins the event speaks of. */
  lemma EffectMeaning(cfg: Config, logins: map<Id, Login>, n: Notice, i: Id)
    requires i in logins
    ensures var e := ZitadelEffect(cfg, logins, n);
            && (EndedBy(cfg, n, logins[i]) <==> e.Ends? && Matches(e.which, i, logins[i]))
            && (RereadBy(cfg, n, logins[i]) <==> e.Forces? && Matches(e.which, i, logins[i]))
  {
    KindsApart(n.kind);
    if StartsWith(n.kind, "user.grant.") {
      GrantKinds(n.kind);
    }
  }

  /** Every event does exactly this, from every state. */
  lemma EventExactly(cfg: Config, s: State, n: Notice)
    ensures Handled(cfg, s, n, Apply(s, ZitadelEffect(cfg, s.logins, n)))
  {
    var e := ZitadelEffect(cfg, s.logins, n);
    forall i | i in s.logins
      ensures EndedBy(cfg, n, s.logins[i]) <==> e.Ends? && Matches(e.which, i, s.logins[i])
      ensures RereadBy(cfg, n, s.logins[i]) <==> e.Forces? && Matches(e.which, i, s.logins[i])
    {
      EffectMeaning(cfg, s.logins, n, i);
    }
    AppliedIsHandled(cfg, s, n, e);
  }

  /** How many logins an event counts: those it ends or makes due. */
  lemma EffectCount(cfg: Config, s: State, n: Notice)
    ensures match ZitadelEffect(cfg, s.logins, n)
            case Ignored => Reached(cfg, s.logins, n) == {}
            case Ends(w) => Reached(cfg, s.logins, n) == Selected(s, w)
            case Forces(w) => Reached(cfg, s.logins, n) == Selected(s, w)
  {
    forall i | i in s.logins ensures i in Reached(cfg, s.logins, n) <==>
                                     var e := ZitadelEffect(cfg, s.logins, n); !e.Ignored? && Matches(e.which, i, s.logins[i]) {
      EffectMeaning(cfg, s.logins, n, i);
    }
  }

  ghost function Reached(cfg: Config, logins: map<Id, Login>, n: Notice): set<Id> {
    set i | i in logins && (EndedBy(cfg, n, logins[i]) || RereadBy(cfg, n, logins[i]))
  }

  lemma AppliedIsHandled(cfg: Config, s: State, n: Notice, e: Effect)
    requires forall i :: i in s.logins ==> (EndedBy(cfg, n, s.logins[i]) <==> e.Ends? && Matches(e.which, i, s.logins[i]))
    requires forall i :: i in s.logins ==> (RereadBy(cfg, n, s.logins[i]) <==> e.Forces? && Matches(e.which, i, s.logins[i]))
    ensures Handled(cfg, s, n, Apply(s, e))
  {
  }

  /** A login and all that is bound to it, untouched but perhaps due for a refresh. */
  ghost predicate Stays(s: State, t: State, i: Id)
    requires i in s.logins
  {
    && i in t.logins && t.logins[i].(accessExpiresAt := 0) == s.logins[i].(accessExpiresAt := 0)
    && (forall k :: k in s.sessions && s.sessions[k].idp == i ==> k in t.sessions && t.sessions[k] == s.sessions[k])
    && (forall k :: k in s.tokens && s.tokens[k].idp == i ==> k in t.tokens && t.tokens[k] == s.tokens[k])
    && (forall k :: k in s.codes && s.codes[k].idp == i ==> k in t.codes && t.codes[k] == s.codes[k])
  }

  /** The end of a provider session ends the logins made in it, with all that is bound to them, and leaves every other as it is. */
  lemma TerminatedIsOut(cfg: Config, s: State, n: Notice, i: Id)
    requires Inv(cfg, s) && n.kind == "session.terminated" && n.aggregate != "" && i in s.logins
    ensures var t := Apply(s, ZitadelEffect(cfg, s.logins, n));
            if s.logins[i].sid == n.aggregate then i !in t.logins && NothingBound(t, i) else Stays(s, t, i) && t.logins[i] == s.logins[i]
  {
    EventExactly(cfg, s, n);
    KindsApart(n.kind);
  }

  ghost predicate NothingBound(s: State, login: Id) {
    && (forall k :: k in s.sessions ==> s.sessions[k].idp != login)
    && (forall k :: k in s.codes ==> s.codes[k].idp != login)
    && (forall k :: k in s.tokens ==> s.tokens[k].idp != login)
  }

  /** Nothing of the user works any more. */
  ghost predicate Out(s: State, subject: string) {
    && (forall i :: i in s.logins ==> s.logins[i].subject != subject)
    && (forall k :: k in s.sessions ==> s.sessions[k].subject != subject)
    && (forall k :: k in s.codes ==> s.codes[k].subject != subject)
    && (forall k :: k in s.tokens && !s.tokens[k].revoked ==> s.tokens[k].subject != subject)
  }

  lemma EndingPutsOut(cfg: Config, s: State, subject: string)
    requires Inv(cfg, s)
    ensures Out(EndLogins(s, Selected(s, BySubject(subject))), subject)
  {
    var t := EndLogins(s, Selected(s, BySubject(subject)));
    EndingKeepsInv(cfg, s, Selected(s, BySubject(subject)));
    EndingIsExact(cfg, s, BySubject(subject));
    forall k | k in t.sessions ensures t.sessions[k].subject != subject {
      assert BoundTo(t.logins, t.sessions[k].idp, t.sessions[k].subject);
    }
    forall k | k in t.codes ensures t.codes[k].subject != subject {
      assert BoundTo(t.logins, t.codes[k].idp, t.codes[k].subject);
    }
    forall k | k in t.tokens && !t.tokens[k].revoked ensures t.tokens[k].subject != subject {
      assert BoundTo(t.logins, t.tokens[k].idp, t.tokens[k].subject);
    }
  }

  /** Which logins an event can end: those of the user or the provider session it names. */
  lemma EndsNamed(cfg: Config, logins: map<Id, Login>, n: Notice)
    ensures var e := ZitadelEffect(cfg, logins, n);
            e.Ends? ==>
              || (n.aggregate != "" && (e.which == BySubject(n.aggregate) || e.which == BySid(n.aggregate)))
              || (n.user != "" && e.which == BySubject(n.user))
  {
  }

  /** A user locked, removed or signed out at the provider, or stripped of a grant, is out here as well. */
  lemma LockedIsOut(cfg: Config, s: State, n: Notice, subject: string)
    requires Inv(cfg, s) && subject != ""
    requires (n.kind in ACCOUNT_EVENTS + USER_TOKEN_EVENTS && n.aggregate == subject)
          || (n.kind in REVOKE_GRANT_EVENTS && n.user == subject && Ours(cfg, n))
    ensures Out(Apply(s, ZitadelEffect(cfg, s.logins, n)), subject)
  {
    EndingPutsOut(cfg, s, subject);
    LockedEffect(cfg, s.logins, n, subject);
  }

  lemma LockedEffect(cfg: Config, logins: map<Id, Login>, n: Notice, subject: string)
    requires subject != ""
    requires (n.kind in ACCOUNT_EVENTS + USER_TOKEN_EVENTS && n.aggregate == subject)
          || (n.kind in REVOKE_GRANT_EVENTS && n.user == subject && Ours(cfg, n))
    ensures ZitadelEffect(cfg, logins, n) == Ends(BySubject(subject))
  {
    KindsApart(n.kind);
    if n.kind in REVOKE_GRANT_EVENTS {
      GrantKinds(n.kind);
    }
  }

  lemma UnmatchedStays(s: State, e: Effect, i: Id)
    requires i in s.logins && (e.Ends? ==> !Matches(e.which, i, s.logins[i]))
    ensures Stays(s, Apply(s, e), i)
  {
  }

  /** An event touches no login but those it names, by subject or by provider session; at most it has others refreshed. */
  lemma OthersStay(cfg: Config, s: State, n: Notice, i: Id)
    requires i in s.logins && s.logins[i].subject != n.aggregate && s.logins[i].subject != n.user && s.logins[i].sid != n.aggregate
    ensures Stays(s, Apply(s, ZitadelEffect(cfg, s.logins, n)), i)
  {
    EndsNamed(cfg, s.logins, n);
    UnmatchedStays(s, ZitadelEffect(cfg, s.logins, n), i);
  }

  /** What is not about one of our projects changes nothing. */
  lemma ForeignIsIgnored(cfg: Config, s: State, n: Notice)
    requires StartsWith(n.kind, "user.grant.") && !Ours(cfg, n)
    ensures Apply(s, ZitadelEffect(cfg, s.logins, n)) == s
  {
    GrantKinds(n.kind);
  }

  /** A logout token ends exactly the logins it speaks of; one that names a session spares the user's other sessions. */
  lemma BackchannelIsExact(cfg: Config, s: State, sub: string, sid: string, i: Id)
    requires Inv(cfg, s) && (sub != "" || sid != "")
    ensures var t := Apply(s, Ends(BackchannelWhere(sub, sid)));
            && (i in t.logins <==> i in s.logins && !((sub == "" || s.logins[i].subject == sub) && (sid == "" || s.logins[i].sid == sid)))
            && (i in t.logins ==> Stays(s, t, i))
            && (i in s.logins && i !in t.logins ==> NothingBound(t, i))
  {
    var w := BackchannelWhere(sub, sid);
    EndingIsExact(cfg, s, w);
    if i in s.logins && !Matches(w, i, s.logins[i]) {
      UnmatchedStays(s, Ends(w), i);
    }
  }

  /** After a change of roles or of the address, the next request is let in on a confirmation of the provider only, with what that says. */
  lemma ChangedIsReread(cfg: Config, s: State, n: Notice, id: Id, now: int, reply: TokenReply)
    requires Inv(cfg, s) && 0 <= now && id in s.logins && RereadBy(cfg, n, s.logins[id])
    ensures var r := FreshLogin(cfg, Apply(s, ZitadelEffect(cfg, s.logins, n)), id, now, reply).1;
            var row := s.logins[id];
            && (r.Alive? <==> row.refreshToken != "" && Confirms(cfg, reply, row.subject) && !TeamMissing(cfg, reply))
            && (r.Alive? ==> Renewing(cfg, row, r.row, now, reply))
  {
    var t := Apply(s, ZitadelEffect(cfg, s.logins, n));
    EventExactly(cfg, s, n);
    EffectMeaning(cfg, s.logins, n, id);
    ForceKeepsInv(cfg, s, ZitadelEffect(cfg, s.logins, n).which);
    FreshExactly(cfg, t, id, now, reply);
    FreshDoes(cfg, t, id, now, reply);
  }
}
