/** What one token response of the provider says about the user (oidc.go, zitadel.go, config.go). */
module Oidc {
  import opened Tables

  /** groups: None when the claim is absent. roles: project id to role keys. email: Some("") when unverified. */
  datatype Claims = Claims(sub: string, name: string, sid: string,
                           groups: Option<seq<string>>, roles: map<string, seq<string>>, email: Option<string>)

  datatype IdToken = NoIdToken | BadIdToken | IdToken(claims: Claims)
  datatype UserInfo = NoEndpoint | UserInfoRefused | UserInfoFailed | UserInfo(claims: Claims)

  /** The token endpoint: no usable answer, a refusal, or tokens (refreshToken "" when not rotated). */
  datatype TokenReply = Unreachable | Refused | Tokens(idToken: IdToken, refreshToken: string, expiresIn: int, userInfo: UserInfo)

  datatype Identity = Identity(subject: string, name: string, sid: string, refreshToken: string,
                               expiresIn: int, teams: seq<Team>, email: string)

  /** A rejection ends the session; anything transient only denies the request. */
  datatype Verdict = Accepted(identity: Identity) | Rejected | Transient

  // ----- teams -------------------------------------------------------------------

  predicate StartsWith(s: string, prefix: string) {
    |prefix| <= |s| && s[..|prefix|] == prefix
  }

  predicate EndsWith(s: string, suffix: string) {
    |suffix| <= |s| && s[|s| - |suffix|..] == suffix
  }

  function TeamFromGroup(cfg: Config, group: string): string {
    if cfg.groupPrefix != "" && StartsWith(group, cfg.groupPrefix) then group[|cfg.groupPrefix|..] else group
  }

  function SplitGroup(cfg: Config, group: string): Team {
    var slug := TeamFromGroup(cfg, group);
    if cfg.maintainerSuffix != "" && EndsWith(slug, cfg.maintainerSuffix) && |slug| > |cfg.maintainerSuffix| then
      Team(slug[..|slug| - |cfg.maintainerSuffix|], true)
    else Team(slug, false)
  }

  /** What isMember and isMaintainer read off a list of teams: the first entry for slug. */
  function Lookup(teams: seq<Team>, slug: string): Option<bool> {
    if teams == [] then None
    else if teams[0].slug == slug then Some(teams[0].maintainer)
    else Lookup(teams[1..], slug)
  }

  /** rest is what follows the prefix, which a group may lack. */
  ghost predicate AfterPrefix(cfg: Config, group: string, rest: string) {
    group == cfg.groupPrefix + rest || (!(cfg.groupPrefix <= group) && group == rest)
  }

  /** The group is the team's name followed by the suffix for maintainers. */
  ghost predicate ForMaintainers(cfg: Config, group: string, slug: string) {
    slug != "" && cfg.maintainerSuffix != "" && AfterPrefix(cfg, group, slug + cfg.maintainerSuffix)
  }

  /** Or it is the name alone, and not that of some other team's maintainers. */
  ghost predicate ForMembers(cfg: Config, group: string, slug: string) {
    ForMaintainers(cfg, group, slug) || (AfterPrefix(cfg, group, slug) && forall t :: !ForMaintainers(cfg, group, t))
  }

  ghost predicate Named(cfg: Config, groups: seq<string>, slug: string) {
    exists g :: g in groups && ForMembers(cfg, g, slug)
  }

  ghost predicate Maintained(cfg: Config, groups: seq<string>, slug: string) {
    exists g :: g in groups && ForMaintainers(cfg, g, slug)
  }

  /** splitGroup tells the two kinds of group apart. */
  lemma SplitGroupMeaning(cfg: Config, group: string, slug: string)
    ensures SplitGroup(cfg, group).slug == slug <==> ForMembers(cfg, group, slug)
    ensures SplitGroup(cfg, group) == Team(slug, true) <==> ForMaintainers(cfg, group, slug)
  {
    forall t ensures ForMaintainers(cfg, group, t) <==> SplitGroup(cfg, group) == Team(t, true) {
      SuffixMeaning(cfg, group, t);
    }
    PrefixMeaning(cfg, group, slug);
  }

  lemma PrefixMeaning(cfg: Config, group: string, rest: string)
    ensures TeamFromGroup(cfg, group) == rest <==> AfterPrefix(cfg, group, rest)
  {
    if cfg.groupPrefix <= group {
      assert group == cfg.groupPrefix + group[|cfg.groupPrefix|..];
    }
  }

  lemma SuffixMeaning(cfg: Config, group: string, slug: string)
    ensures ForMaintainers(cfg, group, slug) <==> SplitGroup(cfg, group) == Team(slug, true)
  {
    PrefixMeaning(cfg, group, slug + cfg.maintainerSuffix);
    var all := TeamFromGroup(cfg, group);
    if EndsWith(all, cfg.maintainerSuffix) {
      assert all == all[..|all| - |cfg.maintainerSuffix|] + cfg.maintainerSuffix;
    }
  }

  function Merge(teams: seq<Team>, t: Team): seq<Team> {
    if teams == [] then [t]
    else if teams[0].slug == t.slug then [teams[0].(maintainer := teams[0].maintainer || t.maintainer)] + teams[1..]
    else [teams[0]] + Merge(teams[1..], t)
  }

  function GroupTeams(cfg: Config, groups: seq<string>): seq<Team> {
    if groups == [] then []
    else
      var before := GroupTeams(cfg, groups[..|groups| - 1]);
      var t := SplitGroup(cfg, groups[|groups| - 1]);
      if t.slug == "" then before else Merge(before, t)
  }

  lemma {:induction false} MergeAt(teams: seq<Team>, t: Team, i: nat)
    requires i < |teams| && teams[i].slug == t.slug
    requires forall j :: 0 <= j < i ==> teams[j].slug != t.slug
    ensures Merge(teams, t) == teams[i := teams[i].(maintainer := teams[i].maintainer || t.maintainer)]
  {
    if i > 0 {
      MergeAt(teams[1..], t, i - 1);
    }
  }

  lemma {:induction false} MergeNew(teams: seq<Team>, t: Team)
    requires forall u :: u in teams ==> u.slug != t.slug
    ensures Merge(teams, t) == teams + [t]
  {
    if teams != [] {
      MergeNew(teams[1..], t);
    }
  }

  /** The loop of teamsFromClaims, with its index of positions. */
  method TeamsFromGroups(cfg: Config, groups: seq<string>) returns (out: seq<Team>)
    ensures out == GroupTeams(cfg, groups)
  {
    var idx: map<string, nat> := map[];
    out := [];
    for n := 0 to |groups|
      invariant out == GroupTeams(cfg, groups[..n])
      invariant forall s :: s in idx ==> idx[s] < |out| && out[idx[s]].slug == s
      invariant forall i :: 0 <= i < |out| ==> out[i].slug in idx && idx[out[i].slug] == i
    {
      assert groups[..n + 1][..n] == groups[..n];
      var t := SplitGroup(cfg, groups[n]);
      if t.slug == "" {
        continue;
      }
      if t.slug in idx {
        var i := idx[t.slug];
        MergeAt(out, t, i);
        out := out[i := out[i].(maintainer := out[i].maintainer || t.maintainer)];
        continue;
      }
      MergeNew(out, t);
      idx := idx[t.slug := |out|];
      out := out + [t];
    }
    assert groups[..|groups|] == groups;
  }

  lemma {:induction false} LookupMerge(teams: seq<Team>, t: Team, slug: string)
    ensures Lookup(Merge(teams, t), slug) ==
            if slug == t.slug then Some(t.maintainer || Lookup(teams, slug) == Some(true)) else Lookup(teams, slug)
  {
    if teams != [] {
      LookupMerge(teams[1..], t, slug);
    }
  }

  /** Every group counts, in whatever order: a member if some group names the team, a maintainer if some group says so. */
  lemma {:induction false} GroupTeamsMeaning(cfg: Config, groups: seq<string>, slug: string)
    ensures Lookup(GroupTeams(cfg, groups), slug) ==
            if slug != "" && Named(cfg, groups, slug) then Some(Maintained(cfg, groups, slug)) else None
  {
    if groups != [] {
      var n := |groups| - 1;
      var g := groups[n];
      GroupTeamsMeaning(cfg, groups[..n], slug);
      LookupMerge(GroupTeams(cfg, groups[..n]), SplitGroup(cfg, g), slug);
      assert groups == groups[..n] + [g];
      SplitGroupMeaning(cfg, g, slug);
      assert Named(cfg, groups, slug) <==> Named(cfg, groups[..n], slug) || ForMembers(cfg, g, slug);
      assert Maintained(cfg, groups, slug) <==> Maintained(cfg, groups[..n], slug) || ForMaintainers(cfg, g, slug);
    }
  }

  /** There are no teams at all exactly if no group names one. */
  lemma NoTeams(cfg: Config, groups: seq<string>)
    ensures GroupTeams(cfg, groups) == [] <==> forall slug :: slug != "" ==> !Named(cfg, groups, slug)
  {
    forall slug ensures Lookup(GroupTeams(cfg, groups), slug).Some? <==> slug != "" && Named(cfg, groups, slug) {
      GroupTeamsMeaning(cfg, groups, slug);
    }
    var teams := GroupTeams(cfg, groups);
    if teams != [] {
      assert Lookup(teams, teams[0].slug).Some?;
    } else {
      assert forall slug :: Lookup(teams, slug) == None;
    }
  }

  /** zitadelTeams over one role claim per project; None when no configured project claim is present. */
  function ProjectTeams(projects: seq<Project>, roles: map<string, seq<string>>, maintainerRole: string): seq<Team> {
    if projects == [] then []
    else
      var p := projects[|projects| - 1];
      ProjectTeams(projects[..|projects| - 1], roles, maintainerRole)
      + if p.id in roles && roles[p.id] != [] then [Team(p.slug, maintainerRole in roles[p.id])] else []
  }

  method ZitadelTeams(projects: seq<Project>, roles: map<string, seq<string>>, maintainerRole: string)
    returns (out: seq<Team>, asserted: bool)
    ensures out == ProjectTeams(projects, roles, maintainerRole)
    ensures asserted <==> exists p :: p in projects && p.id in roles
  {
    out, asserted := [], false;
    for n := 0 to |projects|
      invariant out == ProjectTeams(projects[..n], roles, maintainerRole)
      invariant asserted <==> exists p :: p in projects[..n] && p.id in roles
    {
      assert projects[..n + 1][..n] == projects[..n];
      var p := projects[n];
      if p.id !in roles {
        continue;
      }
      asserted := true;
      assert p in projects[..n + 1];
      var keys := roles[p.id];
      if keys == [] {
        continue;
      }
      var m := Team(p.slug, false);
      for i := 0 to |keys|
        invariant m == Team(p.slug, maintainerRole in keys[..i])
      {
        if keys[i] == maintainerRole {
          m := m.(maintainer := true);
        }
      }
      out := out + [m];
    }
    assert projects[..|projects|] == projects;
  }

  /** Some role in project p counts as membership of slug. */
  predicate Gives(p: Project, roles: map<string, seq<string>>, slug: string) {
    p.slug == slug && p.id in roles && roles[p.id] != []
  }

  ghost predicate FirstGiving(projects: seq<Project>, roles: map<string, seq<string>>, slug: string, i: nat) {
    && i < |projects| && Gives(projects[i], roles, slug)
    && forall j :: 0 <= j < i ==> !Gives(projects[j], roles, slug)
  }

  lemma {:induction false} LookupAppend(a: seq<Team>, b: seq<Team>, slug: string)
    ensures Lookup(a + b, slug) == if Lookup(a, slug).Some? then Lookup(a, slug) else Lookup(b, slug)
  {
    if a == [] {
      assert a + b == b;
    } else {
      assert (a + b)[1..] == a[1..] + b;
      LookupAppend(a[1..], b, slug);
    }
  }

  /**
    Any role in a configured project is membership of its team, and nothing else is. When several projects give the
    same team, the first of them alone decides who maintains it.
   */
  lemma {:induction false} ProjectTeamsMeaning(projects: seq<Project>, roles: map<string, seq<string>>, maintainerRole: string, slug: string)
    ensures Lookup(ProjectTeams(projects, roles, maintainerRole), slug).Some? <==> exists p :: p in projects && Gives(p, roles, slug)
    ensures forall i: nat :: FirstGiving(projects, roles, slug, i) ==>
              Lookup(ProjectTeams(projects, roles, maintainerRole), slug) == Some(maintainerRole in roles[projects[i].id])
  {
    if projects != [] {
      var n := |projects| - 1;
      var p := projects[n];
      ProjectTeamsMeaning(projects[..n], roles, maintainerRole, slug);
      assert projects == projects[..n] + [p];
      assert (exists q :: q in projects && Gives(q, roles, slug))
        <==> (exists q :: q in projects[..n] && Gives(q, roles, slug)) || Gives(p, roles, slug);
      LookupAppend(ProjectTeams(projects[..n], roles, maintainerRole),
                   if p.id in roles && roles[p.id] != [] then [Team(p.slug, maintainerRole in roles[p.id])] else [], slug);
      forall i: nat | FirstGiving(projects, roles, slug, i)
        ensures Lookup(ProjectTeams(projects, roles, maintainerRole), slug) == Some(maintainerRole in roles[projects[i].id])
      {
        if i < n {
          assert FirstGiving(projects[..n], roles, slug, i);
        } else {
          assert forall q :: q in projects[..n] ==> !Gives(q, roles, slug);
        }
      }
    }
  }

  /** teamsFromClaims: None when the claims say nothing about teams. */
  function TeamsFromClaims(cfg: Config, c: Claims): Option<seq<Team>> {
    if cfg.projects != [] then
      if exists p :: p in cfg.projects && p.id in c.roles then Some(ProjectTeams(cfg.projects, c.roles, cfg.maintainerRole)) else None
    else if c.groups.None? then None
    else Some(GroupTeams(cfg, c.groups.value))
  }

  // ----- identity --------------------------------------------------------------------

  function TeamsOr(teams: Option<seq<Team>>, other: Option<seq<Team>>): seq<Team> {
    if teams.Some? then teams.value else if other.Some? then other.value else []
  }

  function EmailOr(email: Option<string>, other: Option<string>): string {
    if email.Some? then email.value else if other.Some? then other.value else ""
  }

  /** identityFrom: the ID token first, the userinfo endpoint for what it leaves open. */
  function IdentityFrom(cfg: Config, c: Claims, tok: TokenReply): Verdict
    requires tok.Tokens?
  {
    var teams := TeamsFromClaims(cfg, c);
    var id := Identity(c.sub, c.name, c.sid, tok.refreshToken, tok.expiresIn, TeamsOr(teams, None), EmailOr(c.email, None));
    if teams.Some? && c.email.Some? then Accepted(id)
    else
      match tok.userInfo
      case NoEndpoint => Accepted(id)
      case UserInfoRefused => Rejected
      case UserInfoFailed => Transient
      case UserInfo(ui) =>
        if ui.sub != c.sub then Rejected
        else Accepted(id.(teams := TeamsOr(teams, TeamsFromClaims(cfg, ui)), email := EmailOr(c.email, ui.email),
                          name := if c.name == "" then ui.name else c.name))
  }

  /** oidcRefresh: the stored subject must not change; an unrotated refresh token is kept. */
  function OidcRefresh(cfg: Config, reply: TokenReply, refreshToken: string, subject: string): Verdict {
    match reply
    case Unreachable => Transient
    case Refused => Rejected
    case Tokens(idToken, rotated, _, _) =>
      if idToken.BadIdToken? then Transient
      else
        var claims := if idToken.IdToken? then idToken.claims else Claims(subject, "", "", None, map[], None);
        if claims.sub != subject then Rejected
        else
          var v := IdentityFrom(cfg, claims, reply);
          if v.Accepted? && rotated == "" then Accepted(v.identity.(refreshToken := refreshToken)) else v
  }

  // ----- what an answer says --------------------------------------------------------------

  /** The claims say something about teams: some role in a configured project or, without projects, a groups claim. */
  ghost predicate StateTeams(cfg: Config, c: Claims) {
    if cfg.projects == [] then c.groups.Some? else exists p :: p in cfg.projects && p.id in c.roles
  }

  ghost function TeamsOf(cfg: Config, c: Claims): seq<Team>
    requires StateTeams(cfg, c)
  {
    if cfg.projects == [] then GroupTeams(cfg, c.groups.value) else ProjectTeams(cfg.projects, c.roles, cfg.maintainerRole)
  }

  /** Userinfo has to be asked: there is no ID token, or it leaves the teams or the address open. */
  ghost predicate MustAsk(cfg: Config, t: IdToken) {
    t.IdToken? ==> !StateTeams(cfg, t.claims) || t.claims.email.None?
  }

  /** The provider confirms that this is still subject, with all there is to know. */
  ghost predicate Confirms(cfg: Config, r: TokenReply, subject: string) {
    && r.Tokens? && !r.idToken.BadIdToken? && (r.idToken.IdToken? ==> r.idToken.claims.sub == subject)
    && (MustAsk(cfg, r.idToken) ==> r.userInfo.NoEndpoint? || (r.userInfo.UserInfo? && r.userInfo.claims.sub == subject))
  }

  /** It turns subject away: at the token endpoint, at userinfo where that has to be asked, or by naming somebody else. */
  ghost predicate Refuses(cfg: Config, r: TokenReply, subject: string) {
    || r.Refused?
    || (r.Tokens? && r.idToken.IdToken? && r.idToken.claims.sub != subject)
    || (r.Tokens? && !r.idToken.BadIdToken? && MustAsk(cfg, r.idToken)
        && (r.userInfo.UserInfoRefused? || (r.userInfo.UserInfo? && r.userInfo.claims.sub != subject)))
  }

  /** It leaves the question open: no usable answer, an ID token that does not check out, or no answer of userinfo. */
  ghost predicate Undecided(cfg: Config, r: TokenReply, subject: string) {
    || r.Unreachable?
    || (r.Tokens? && r.idToken.BadIdToken?)
    || (r.Tokens? && (r.idToken.IdToken? ==> r.idToken.claims.sub == subject) && MustAsk(cfg, r.idToken) && r.userInfo.UserInfoFailed?)
  }

  /** The teams of the ID token where it states them, else those of userinfo, else none. */
  ghost function TeamsTold(cfg: Config, r: TokenReply): seq<Team>
    requires r.Tokens?
  {
    if r.idToken.IdToken? && StateTeams(cfg, r.idToken.claims) then TeamsOf(cfg, r.idToken.claims)
    else if r.userInfo.UserInfo? && StateTeams(cfg, r.userInfo.claims) then TeamsOf(cfg, r.userInfo.claims)
    else []
  }

  /** The same of the verified address. */
  ghost function EmailTold(r: TokenReply): string
    requires r.Tokens?
  {
    if r.idToken.IdToken? && r.idToken.claims.email.Some? then r.idToken.claims.email.value
    else if r.userInfo.UserInfo? && r.userInfo.claims.email.Some? then r.userInfo.claims.email.value
    else ""
  }

  /** The same of the name; but userinfo is not asked for a name alone. */
  ghost function NameTold(cfg: Config, r: TokenReply): string
    requires r.Tokens?
  {
    if r.idToken.IdToken? && r.idToken.claims.name != "" then r.idToken.claims.name
    else if MustAsk(cfg, r.idToken) && r.userInfo.UserInfo? then r.userInfo.claims.name
    else ""
  }

  /** The provider's id of its own session, if the ID token has it. */
  ghost function SidTold(r: TokenReply): string
    requires r.Tokens?
  {
    if r.idToken.IdToken? then r.idToken.claims.sid else ""
  }

  /** What a refresh comes to, for every answer: exactly one of the three. */
  lemma RefreshOutcome(cfg: Config, reply: TokenReply, refreshToken: string, subject: string)
    ensures var v := OidcRefresh(cfg, reply, refreshToken, subject);
            && (v.Accepted? <==> Confirms(cfg, reply, subject))
            && (v.Rejected? <==> Refuses(cfg, reply, subject))
            && (v.Transient? <==> Undecided(cfg, reply, subject))
  {
  }

  /** Whose session it is never changes, a refresh token is never lost, and the rest is what the answer says. */
  lemma RefreshTells(cfg: Config, reply: TokenReply, refreshToken: string, subject: string)
    requires OidcRefresh(cfg, reply, refreshToken, subject).Accepted?
    ensures reply.Tokens?
    ensures OidcRefresh(cfg, reply, refreshToken, subject).identity ==
            Identity(subject, NameTold(cfg, reply), SidTold(reply), if reply.refreshToken == "" then refreshToken else reply.refreshToken,
                     reply.expiresIn, TeamsTold(cfg, reply), EmailTold(reply))
  {
    if reply.idToken.IdToken? {
      if MustAsk(cfg, reply.idToken) {
      }
    }
  }

  /** oidcExchange at login: an ID token with a subject and this attempt's nonce is required. */
  function OidcExchange(cfg: Config, reply: TokenReply, nonceOk: bool): Option<Identity> {
    if reply.Tokens? && reply.idToken.IdToken? && reply.idToken.claims.sub != "" && nonceOk then
      var v := IdentityFrom(cfg, reply.idToken.claims, reply);
      if v.Accepted? then Some(v.identity) else None
    else None
  }

  /** A login needs an ID token for this very attempt, and userinfo for the same user where that has to be asked. */
  lemma ExchangeOutcome(cfg: Config, reply: TokenReply, nonceOk: bool)
    ensures OidcExchange(cfg, reply, nonceOk).Some?
       <==> && nonceOk && reply.Tokens? && reply.idToken.IdToken? && reply.idToken.claims.sub != ""
            && Confirms(cfg, reply, reply.idToken.claims.sub)
    ensures OidcExchange(cfg, reply, nonceOk).Some? ==>
              OidcExchange(cfg, reply, nonceOk).value ==
              Identity(reply.idToken.claims.sub, NameTold(cfg, reply), SidTold(reply), reply.refreshToken,
                       reply.expiresIn, TeamsTold(cfg, reply), EmailTold(reply))
  {
  }
}
