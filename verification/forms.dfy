/** Surveys: who sees them, who they are shared with, when they go (forms.go, auth.go, tools.go). */
module Forms {
  import opened Oidc
  import opened Slug
  import Submission
  import opened Tables
  import opened Text

  const MAX_SHARES: nat := 100
  const DAY_MS: int := 24 * 60 * 60 * 1000

  /** The signed-in user; email is the verified address or "". */
  datatype Viewer = Viewer(id: string, email: string, teams: seq<Team>)

  /** expiresAt, deleteAt and createdBy: 0 and "" are stored as NULL. */
  datatype Row = Row(ref: string, title: string, description: string, fields: seq<Submission.Field>, ownerTeam: string,
                     status: string, allowMultiple: bool, expiresAt: int, createdBy: string, createdAt: int, deleteAt: int)

  /** A row together with the addresses loaded from form_shares. */
  datatype Form = Form(row: Row, sharedWith: set<string>)

  // ----- access rules ------------------------------------------------------------

  predicate IsMember(c: Viewer, team: string) {
    team != "" && exists t :: t in c.teams && t.slug == team
  }

  predicate IsMaintainer(c: Viewer, team: string) {
    Lookup(c.teams, team) == Some(true)
  }

  lemma {:induction false} LookupFinds(teams: seq<Team>, slug: string)
    ensures Lookup(teams, slug).Some? <==> exists t :: t in teams && t.slug == slug
  {
    if teams != [] {
      LookupFinds(teams[1..], slug);
      assert teams == [teams[0]] + teams[1..];
    }
  }

  /** With teams from groups: a member is whom some group puts into the team, a maintainer whom some group makes one. */
  lemma GroupsDecide(cfg: Config, groups: seq<string>, c: Viewer, team: string)
    requires c.teams == GroupTeams(cfg, groups) && team != ""
    ensures IsMember(c, team) <==> Named(cfg, groups, team)
    ensures IsMaintainer(c, team) <==> Maintained(cfg, groups, team)
  {
    GroupTeamsMeaning(cfg, groups, team);
    LookupFinds(c.teams, team);
    if Maintained(cfg, groups, team) {
      var g :| g in groups && ForMaintainers(cfg, g, team);
      assert ForMembers(cfg, g, team);
    }
  }

  /** With teams from project roles: a member has any role in a project of the team, and the first such project says who maintains. */
  lemma ProjectsDecide(cfg: Config, roles: map<string, seq<string>>, c: Viewer, team: string)
    requires c.teams == ProjectTeams(cfg.projects, roles, cfg.maintainerRole) && team != ""
    ensures IsMember(c, team) <==> HasRole(cfg, roles, team)
    ensures IsMaintainer(c, team) <==> Maintains(cfg, roles, team)
  {
    ProjectTeamsMeaning(cfg.projects, roles, cfg.maintainerRole, team);
    LookupFinds(c.teams, team);
    if HasRole(cfg, roles, team) {
      var i := FirstGiver(cfg.projects, roles, team);
      assert forall j: nat :: FirstGiving(cfg.projects, roles, team, j) ==> j == i;
    }
  }

  ghost predicate HasRole(cfg: Config, roles: map<string, seq<string>>, team: string) {
    exists p :: p in cfg.projects && Gives(p, roles, team)
  }

  ghost predicate Maintains(cfg: Config, roles: map<string, seq<string>>, team: string) {
    exists i: nat :: FirstGiving(cfg.projects, roles, team, i) && cfg.maintainerRole in roles[cfg.projects[i].id]
  }

  lemma FirstGiver(projects: seq<Project>, roles: map<string, seq<string>>, team: string) returns (i: nat)
    requires exists p :: p in projects && Gives(p, roles, team)
    ensures FirstGiving(projects, roles, team, i)
  {
    i := 0;
    while !Gives(projects[i], roles, team)
      invariant i < |projects| && forall j :: 0 <= j < i ==> !Gives(projects[j], roles, team)
      decreases |projects| - i
    {
      var p :| p in projects && Gives(p, roles, team);
      assert exists k :: 0 <= k < |projects| && projects[k] == p;
      i := i + 1;
    }
  }

  predicate IsCreator(c: Viewer, f: Form) {
    f.row.createdBy != "" && f.row.createdBy == c.id
  }

  predicate SharedWithMe(c: Viewer, f: Form) {
    c.email != "" && c.email in f.sharedWith
  }

  predicate CanView(c: Option<Viewer>, f: Option<Form>) {
    if c.None? || f.None? then false
    else if f.value.row.ownerTeam == "" && IsCreator(c.value, f.value) then true
    else if f.value.row.ownerTeam != "" && IsMember(c.value, f.value.row.ownerTeam) then true
    else SharedWithMe(c.value, f.value)
  }

  predicate CanManage(c: Option<Viewer>, f: Option<Form>) {
    if c.None? || f.None? then false
    else if f.value.row.ownerTeam == "" then IsCreator(c.value, f.value)
    else if !IsMember(c.value, f.value.row.ownerTeam) then false
    else IsCreator(c.value, f.value) || IsMaintainer(c.value, f.value.row.ownerTeam)
  }

  /** Whoever may change a survey may see it. */
  lemma ManagersView(c: Option<Viewer>, f: Option<Form>)
    requires CanManage(c, f)
    ensures CanView(c, f)
  {
  }

  predicate IsDue(row: Row, now: int) {
    row.deleteAt != 0 && row.deleteAt < now
  }

  /** The SQL fragment hiding surveys past delete_at; 0 is stored as NULL. */
  predicate NotDue(row: Row, now: int) {
    row.deleteAt == 0 || row.deleteAt > now
  }

  function SharesOf(shares: set<(string, string)>, id: string): set<string> {
    set p | p in shares && p.0 == id :: p.1
  }

  function Load(forms: map<string, Row>, shares: set<(string, string)>, id: string): Option<Form> {
    if id in forms then Some(Form(forms[id], SharesOf(shares, id))) else None
  }

  /** The WHERE clause of listVisibleForms, without the access decision. */
  predicate SqlCandidate(c: Viewer, forms: map<string, Row>, shares: set<(string, string)>, id: string, now: int)
    requires id in forms
  {
    var row := forms[id];
    && ( || (row.ownerTeam == "" && row.createdBy != "" && row.createdBy == c.id)
         || (exists t :: t in c.teams && row.ownerTeam == t.slug)
         || (c.email != "" && (id, c.email) in shares))
    && NotDue(row, now)
  }

  /** What listVisibleForms promises: everything the user may see that is not yet due. */
  predicate Listed(c: Viewer, forms: map<string, Row>, shares: set<(string, string)>, id: string, now: int) {
    id in forms && CanView(Some(c), Load(forms, shares, id)) && NotDue(forms[id], now)
  }

  datatype Opened = Open(form: Form) | NotFound | Forbidden | NotManager

  /** formByIDForUser */
  function OpenForm(c: Viewer, forms: map<string, Row>, shares: set<(string, string)>, id: string, now: int): Opened {
    var f := Load(forms, shares, id);
    if f.None? || IsDue(f.value.row, now) then NotFound
    else if !CanView(Some(c), f) then Forbidden
    else Open(f.value)
  }

  /** requireManagedForm */
  function OpenManaged(c: Viewer, forms: map<string, Row>, shares: set<(string, string)>, id: string, now: int): Opened {
    var r := OpenForm(c, forms, shares, id, now);
    if r.Open? && !CanManage(Some(c), Some(r.form)) then NotManager else r
  }

  /** The SQL prefilter loses nothing canView would show. */
  lemma PrefilterLosesNothing(c: Viewer, forms: map<string, Row>, shares: set<(string, string)>, id: string, now: int)
    requires Listed(c, forms, shares, id, now)
    ensures SqlCandidate(c, forms, shares, id, now)
  {
    if SharedWithMe(c, Load(forms, shares, id).value) {
      assert c.email in SharesOf(shares, id);
    }
  }

  /** A listed survey opens by id, and the two differ only at the very millisecond of delete_at. */
  lemma ListVersusOpen(c: Viewer, forms: map<string, Row>, shares: set<(string, string)>, id: string, now: int)
    ensures Listed(c, forms, shares, id, now) ==> OpenForm(c, forms, shares, id, now).Open?
    ensures OpenForm(c, forms, shares, id, now).Open? && !Listed(c, forms, shares, id, now)
        <==> id in forms && forms[id].deleteAt == now != 0 && CanView(Some(c), Load(forms, shares, id))
  {
  }

  /** Who may see a survey: its creator if it has no team, else the team's members; and whoever it is shared with. */
  ghost predicate Sees(c: Viewer, id: string, row: Row, shares: set<(string, string)>, member: bool) {
    || (row.ownerTeam == "" && row.createdBy != "" && row.createdBy == c.id)
    || (row.ownerTeam != "" && member)
    || (c.email != "" && (id, c.email) in shares)
  }

  /** Who may change it: its creator; of a team's survey, those members who created it or maintain the team. */
  ghost predicate Rules(c: Viewer, row: Row, member: bool, maintainer: bool) {
    var creator := row.createdBy != "" && row.createdBy == c.id;
    if row.ownerTeam == "" then creator else member && (creator || maintainer)
  }

  ghost predicate PastDate(row: Row, now: int) {
    row.deleteAt != 0 && row.deleteAt < now
  }

  /** Each answer of the three ways to a survey, for a user who is or is not a member and a maintainer of its team. */
  ghost predicate AccessSays(c: Viewer, forms: map<string, Row>, shares: set<(string, string)>, id: string, now: int, member: bool, maintainer: bool) {
    var (open, managed) := (OpenForm(c, forms, shares, id, now), OpenManaged(c, forms, shares, id, now));
    if id !in forms || PastDate(forms[id], now) then
      open == managed == NotFound && !Listed(c, forms, shares, id, now)
    else
      var row := forms[id];
      && (open.Open? <==> Sees(c, id, row, shares, member)) && (!open.Open? ==> open == managed == Forbidden)
      && (managed.Open? <==> Rules(c, row, member, maintainer)) && (open.Open? && !managed.Open? ==> managed == NotManager)
      && (open.Open? ==> open.form.row == row && forall e :: e in open.form.sharedWith <==> (id, e) in shares)
      && (managed.Open? ==> managed == open)
      && (Listed(c, forms, shares, id, now) <==> (row.deleteAt == 0 || now < row.deleteAt) && Sees(c, id, row, shares, member))
  }

  lemma AccessExactly(c: Viewer, forms: map<string, Row>, shares: set<(string, string)>, id: string, now: int, member: bool, maintainer: bool)
    requires id in forms && forms[id].ownerTeam != "" ==>
               (member <==> IsMember(c, forms[id].ownerTeam)) && (maintainer <==> IsMaintainer(c, forms[id].ownerTeam))
    ensures AccessSays(c, forms, shares, id, now, member, maintainer)
  {
    if id in forms {
      forall e ensures e in SharesOf(shares, id) <==> (id, e) in shares {
      }
    }
  }

  /** With teams from groups: who opens, manages and lists a survey, by its row, its shares and the groups. */
  lemma GroupsAccess(cfg: Config, groups: seq<string>, c: Viewer, forms: map<string, Row>, shares: set<(string, string)>, id: string, now: int)
    requires c.teams == GroupTeams(cfg, groups)
    ensures id in forms ==>
              var team := forms[id].ownerTeam;
              AccessSays(c, forms, shares, id, now, Named(cfg, groups, team), Maintained(cfg, groups, team))
    ensures id !in forms ==> AccessSays(c, forms, shares, id, now, false, false)
  {
    if id in forms {
      var team := forms[id].ownerTeam;
      if team != "" {
        GroupsDecide(cfg, groups, c, team);
      }
      AccessExactly(c, forms, shares, id, now, Named(cfg, groups, team), Maintained(cfg, groups, team));
    } else {
      AccessExactly(c, forms, shares, id, now, false, false);
    }
  }

  /** The same with teams from project roles. */
  lemma ProjectsAccess(cfg: Config, roles: map<string, seq<string>>, c: Viewer, forms: map<string, Row>, shares: set<(string, string)>, id: string, now: int)
    requires c.teams == ProjectTeams(cfg.projects, roles, cfg.maintainerRole) && id in forms
    ensures AccessSays(c, forms, shares, id, now, HasRole(cfg, roles, forms[id].ownerTeam), Maintains(cfg, roles, forms[id].ownerTeam))
  {
    var team := forms[id].ownerTeam;
    if team != "" {
      ProjectsDecide(cfg, roles, c, team);
    }
    AccessExactly(c, forms, shares, id, now, HasRole(cfg, roles, team), Maintains(cfg, roles, team));
  }

  // ----- addresses ------------------------------------------------------------------

  /** E-mail normalisation and the address pattern, left uninterpreted. */
  datatype Addresses = Addresses(normalize: string -> string, plausible: string -> bool)

  predicate AllPlausible(input: seq<string>, a: Addresses) {
    forall i :: 0 <= i < |input| ==> a.normalize(input[i]) == "" || a.plausible(a.normalize(input[i]))
  }

  /** normalizeShareEmails returns addresses, not an error. */
  predicate AddressesOk(input: seq<string>, a: Addresses) {
    AllPlausible(input, a) && |Normalized(input, a)| <= MAX_SHARES
  }

  function Normalized(input: seq<string>, a: Addresses): set<string> {
    set i | 0 <= i < |input| && a.normalize(input[i]) != "" :: a.normalize(input[i])
  }

  ghost predicate Distinct(xs: seq<string>) {
    forall i, j :: 0 <= i < j < |xs| ==> xs[i] != xs[j]
  }

  function SetOf(xs: seq<string>): set<string> {
    set x | x in xs
  }

  lemma {:induction false} DistinctCount(xs: seq<string>)
    requires Distinct(xs)
    ensures |SetOf(xs)| == |xs|
  {
    if xs != [] {
      var n := |xs| - 1;
      DistinctCount(xs[..n]);
      assert SetOf(xs) == SetOf(xs[..n]) + {xs[n]};
    }
  }

  /** normalizeShareEmails: refuses on the first implausible address, or on more than 100 of them. */
  method NormalizeShareEmails(input: seq<string>, a: Addresses) returns (r: Option<seq<string>>)
    ensures r.Some? <==> AddressesOk(input, a)
    ensures r.Some? ==> Distinct(r.value) && SetOf(r.value) == Normalized(input, a)
  {
    var seen: set<string> := {};
    var out: seq<string> := [];
    for i := 0 to |input|
      invariant AllPlausible(input[..i], a)
      invariant seen == SetOf(out) == Normalized(input[..i], a) && Distinct(out)
    {
      var e := a.normalize(input[i]);
      assert Normalized(input[..i + 1], a) == Normalized(input[..i], a) + if e == "" then {} else {e};
      if e == "" {
        continue;
      }
      if !a.plausible(e) {
        return None;
      }
      if e !in seen {
        assert SetOf(out + [e]) == SetOf(out) + {e};
        seen := seen + {e};
        out := out + [e];
      } else {
        assert SetOf(out) + {e} == SetOf(out);
      }
    }
    assert input[..|input|] == input;
    DistinctCount(out);
    if |out| > MAX_SHARES {
      return None;
    }
    r := Some(out);
  }

  // ----- the store ---------------------------------------------------------------------

  function RefsOf(forms: map<string, Row>): map<string, string> {
    map id | id in forms :: forms[id].ref
  }

  function WithShares(id: string, emails: set<string>): set<(string, string)> {
    set e | e in emails :: (id, e)
  }

  lemma AddOne(a: set<string>, b: set<string>, e: string)
    requires e !in b
    ensures |a + (b + {e})| == |a + b| + if e in a then 0 else 1
  {
    assert a + (b + {e}) == a + b + {e};
    if e in a {
      assert a + b + {e} == a + b;
    }
  }

  lemma {:induction false} NewCount(existing: set<string>, emails: seq<string>)
    requires Distinct(emails)
    ensures |existing + SetOf(emails)| == |existing| + Fresh(existing, emails)
  {
    if emails == [] {
      assert existing + SetOf([]) == existing;
    } else {
      var n := |emails| - 1;
      NewCount(existing, emails[..n]);
      LastIsNew(emails);
      AddOne(existing, SetOf(emails[..n]), emails[n]);
    }
  }

  lemma LastIsNew(emails: seq<string>)
    requires Distinct(emails) && emails != []
    ensures var n := |emails| - 1;
            SetOf(emails) == SetOf(emails[..n]) + {emails[n]} && emails[n] !in SetOf(emails[..n])
  {
    assert emails == emails[..|emails| - 1] + [emails[|emails| - 1]];
  }

  function Fresh(existing: set<string>, emails: seq<string>): nat {
    if emails == [] then 0
    else Fresh(existing, emails[..|emails| - 1]) + if emails[|emails| - 1] in existing then 0 else 1
  }

  datatype ShareResult = Changed(sharedWith: set<string>) | BadAddress | TooMany | NoSuchForm

  datatype CreateInput = CreateInput(
    title: string, description: string, ref: string, fields: seq<Submission.Field>, ownerTeam: string,
    expiresAt: int, allowMultiple: bool, deleteAt: int, sharedWith: seq<string>)
  datatype CreateResult = Created(row: Row) | NoTitle | FieldsRefused(fault: Submission.DefsError) | SharesRefused | NoName

  datatype Patch = Patch(
    title: Option<string>, description: Option<string>, ref: Option<string>, status: Option<string>,
    expiresAt: Option<int>, deleteAt: Option<int>, fields: Option<seq<Submission.Field>>)
  datatype UpdateResult =
    | Updated(row: Row) | Unknown | BadStatus | RetentionApplies | BadFields(why: Submission.DefsError) | RefTaken

  /** The cap is checked on a count, which is the size of the union because the new addresses are distinct. */
  method CountAfter(existing: set<string>, emails: seq<string>) returns (n: nat)
    requires Distinct(emails)
    ensures n == |existing + SetOf(emails)|
  {
    n := |existing|;
    for i := 0 to |emails|
      invariant n == |existing| + Fresh(existing, emails[..i])
    {
      assert emails[..i + 1][..i] == emails[..i];
      if emails[i] !in existing {
        n := n + 1;
      }
    }
    NewCount(existing, emails);
    assert emails[..|emails|] == emails;
  }

  /** refs are unique, also after form id got a ref no other form holds. */
  lemma RefStaysUnique(forms: map<string, Row>, id: string, row: Row)
    requires UniqueRefs(forms) && Free(RefsOf(forms), id, row.ref)
    ensures UniqueRefs(forms[id := row])
  {
    forall k | k in forms && k != id ensures forms[k].ref != row.ref {
      assert RefsOf(forms)[k] == forms[k].ref;
    }
  }

  ghost predicate UniqueRefs(forms: map<string, Row>) {
    forall i, j :: i in forms && j in forms && i != j ==> forms[i].ref != forms[j].ref
  }

  function Or<T>(o: Option<T>, t: T): T {
    if o.Some? then o.value else t
  }

  /** The row with the patched columns; team, creator and creation never change. */
  function Patched(row: Row, p: Patch, ref: string): Row {
    row.(ref := ref, title := Or(p.title, row.title), description := Or(p.description, row.description),
         status := Or(p.status, row.status), expiresAt := Or(p.expiresAt, row.expiresAt),
         deleteAt := Or(p.deleteAt, row.deleteAt), fields := Or(p.fields, row.fields))
  }

  predicate StatusOk(p: Patch) {
    p.status.Some? ==> p.status.value == "active" || p.status.value == "disabled"
  }

  predicate KeepsRetention(p: Patch, retentionDays: nat) {
    p.deleteAt == Some(0) ==> retentionDays == 0
  }

  predicate FieldsOk(p: Patch) {
    p.fields.Some? ==> Submission.WellFormed(p.fields.value)
  }

  /** Every column of a new survey: as given, active, and with a deletion date wherever there is retention. */
  ghost predicate Stores(in_: CreateInput, createdBy: string, now: int, retentionDays: nat, row: Row) {
    && row.title == in_.title && row.description == in_.description && row.fields == in_.fields
    && row.ownerTeam == Trim(in_.ownerTeam, IsSpace) && row.status == "active" && row.allowMultiple == in_.allowMultiple
    && row.expiresAt == in_.expiresAt && row.createdBy == createdBy && row.createdAt == now
    && row.deleteAt == if in_.deleteAt == 0 && retentionDays > 0 then now + retentionDays * 86_400_000 else in_.deleteAt
  }

  /** Every column of a changed survey: the patched one if there is one, else the old one. */
  ghost predicate Amends(was: Row, p: Patch, row: Row) {
    && row.title == (if p.title.Some? then p.title.value else was.title)
    && row.description == (if p.description.Some? then p.description.value else was.description)
    && row.status == (if p.status.Some? then p.status.value else was.status)
    && row.expiresAt == (if p.expiresAt.Some? then p.expiresAt.value else was.expiresAt)
    && row.deleteAt == (if p.deleteAt.Some? then p.deleteAt.value else was.deleteAt)
    && row.fields == (if p.fields.Some? then p.fields.value else was.fields)
    && row.ownerTeam == was.ownerTeam && row.allowMultiple == was.allowMultiple
    && row.createdBy == was.createdBy && row.createdAt == was.createdAt
  }

  /** Each refusal of updateForm before the UPDATE: when it comes, and which comes first. */
  predicate PatchSays(p: Patch, retentionDays: nat, r: UpdateResult) {
    && (r.BadStatus? <==> !StatusOk(p))
    && (r.RetentionApplies? <==> StatusOk(p) && !KeepsRetention(p, retentionDays))
    && (r.BadFields? <==> StatusOk(p) && KeepsRetention(p, retentionDays) && !FieldsOk(p))
    && (r.BadFields? ==> Submission.Explains(r.why, p.fields.value))
  }

  /** Each refusal of createForm: when it comes, and which comes first. */
  predicate CreateSays(in_: CreateInput, a: Addresses, r: CreateResult) {
    && (r.NoTitle? <==> !Titled(in_))
    && (r.FieldsRefused? <==> Titled(in_) && !Submission.WellFormed(in_.fields))
    && (r.FieldsRefused? ==> Submission.Explains(r.fault, in_.fields))
    && (r.SharesRefused? <==> Titled(in_) && Submission.WellFormed(in_.fields) && !AddressesOk(in_.sharedWith, a))
  }

  predicate Titled(in_: CreateInput) {
    Trim(in_.title, IsSpace) != ""
  }

  /** Newest first. */
  ghost predicate NewestFirst(forms: map<string, Row>, ids: seq<string>) {
    && (forall i :: 0 <= i < |ids| ==> ids[i] in forms)
    && (forall i, j :: 0 <= i < j < |ids| ==> forms[ids[i]].createdAt >= forms[ids[j]].createdAt)
  }

  /** A submission: the survey and the stored values. */
  datatype Entry = Entry(form: string, values: map<string, string>)

  datatype PostResult = Stored | NoSurvey | Closed | Swallowed | AlreadySent | Complained(complaints: map<string, Submission.Complaint>)

  /** acceptsSubmissions */
  predicate Accepts(row: Row, now: int) {
    row.status == "active" && !(row.expiresAt != 0 && row.expiresAt < now)
  }

  /** A survey that takes a submission now, from a browser that did or did not send one before. */
  ghost predicate TakesAnswer(row: Row, sentBefore: bool, now: int) {
    !PastDate(row, now) && IsOpen(row, now) && (row.allowMultiple || !sentBefore)
  }

  /** Active, and its end not yet past; 0 is no end. */
  ghost predicate IsOpen(row: Row, now: int) {
    row.status == "active" && (row.expiresAt == 0 || now <= row.expiresAt)
  }

  class FormStore {
    var forms: map<string, Row>
    var shares: set<(string, string)>
    var submissions: map<string, Entry>
    const retentionDays: nat

    ghost predicate Valid()
      reads this
    {
      && (forall p :: p in shares ==> p.0 in forms)
      && (forall s :: s in submissions ==> submissions[s].form in forms)
      && UniqueRefs(forms)
      && (forall id :: id in forms ==> |SharesOf(shares, id)| <= MAX_SHARES)
      && (retentionDays > 0 ==> forall id :: id in forms ==> forms[id].deleteAt != 0)
      && "" !in forms
    }

    constructor (retentionDays: nat)
      ensures Valid() && forms == map[] && shares == {} && submissions == map[] && this.retentionDays == retentionDays
    {
      forms, shares, submissions := map[], {}, map[];
      this.retentionDays := retentionDays;
    }

    /** The newest of them. */
    method Newest(ids: set<string>) returns (newest: string)
      requires ids != {} && ids <= forms.Keys
      ensures newest in ids && forall id :: id in ids ==> forms[id].createdAt <= forms[newest].createdAt
    {
      newest :| newest in ids;
      var todo := ids - {newest};
      while todo != {}
        invariant todo <= ids && newest in ids
        invariant forall id :: id in ids && id !in todo ==> forms[id].createdAt <= forms[newest].createdAt
        decreases todo
      {
        var id :| id in todo;
        todo := todo - {id};
        if forms[id].createdAt > forms[newest].createdAt {
          newest := id;
        }
      }
    }

    /** The SELECT of listVisibleForms, ORDER BY created_at DESC. */
    method Candidates(c: Viewer, now: int) returns (out: seq<string>)
      ensures Distinct(out) && NewestFirst(forms, out)
      ensures forall id :: id in out <==> id in forms && SqlCandidate(c, forms, shares, id, now)
    {
      var all := set id | id in forms && SqlCandidate(c, forms, shares, id, now);
      var todo := all;
      out := [];
      while todo != {}
        invariant todo <= all && Distinct(out) && NewestFirst(forms, out)
        invariant forall id :: id in out <==> id in all && id !in todo
        invariant forall i, id :: 0 <= i < |out| && id in todo ==> forms[id].createdAt <= forms[out[i]].createdAt
        decreases todo
      {
        var id := Newest(todo);
        todo := todo - {id};
        out := out + [id];
      }
    }

    /** listVisibleForms: exactly the visible surveys not yet due, each once, newest first. */
    method ListVisibleForms(c: Viewer, now: int) returns (out: seq<string>)
      ensures Distinct(out) && NewestFirst(forms, out)
      ensures forall id :: id in out <==> Listed(c, forms, shares, id, now)
    {
      var candidates := Candidates(c, now);
      out := [];
      for i := 0 to |candidates|
        invariant Distinct(out) && NewestFirst(forms, out)
        invariant forall id :: id in out <==> id in candidates[..i] && CanView(Some(c), Load(forms, shares, id))
        invariant forall j, k :: 0 <= j < |out| && i <= k < |candidates| ==> forms[out[j]].createdAt >= forms[candidates[k]].createdAt
      {
        var id := candidates[i];
        assert candidates[..i + 1] == candidates[..i] + [id];
        if CanView(Some(c), Load(forms, shares, id)) {
          assert id !in candidates[..i];
          out := out + [id];
        }
      }
      assert candidates[..|candidates|] == candidates;
      forall id | Listed(c, forms, shares, id, now) ensures id in out {
        PrefilterLosesNothing(c, forms, shares, id, now);
      }
    }

    /** INSERT ... ON CONFLICT DO NOTHING, one address at a time. */
    method InsertAll(id: string, emails: seq<string>)
      modifies this`shares
      ensures shares == old(shares) + WithShares(id, SetOf(emails))
    {
      for i := 0 to |emails|
        invariant shares == old(shares) + WithShares(id, SetOf(emails[..i]))
      {
        assert SetOf(emails[..i + 1]) == SetOf(emails[..i]) + {emails[i]};
        shares := shares + {(id, emails[i])};
      }
      assert emails[..|emails|] == emails;
    }

    /** addShares, for normalised addresses: all of them, or none when the union exceeds 100. */
    method AddShares(id: string, emails: seq<string>) returns (ok: bool)
      requires Valid() && id in forms && Distinct(emails)
      modifies this`shares
      ensures Valid()
      ensures ok <==> |SharesOf(old(shares), id) + SetOf(emails)| <= MAX_SHARES
      ensures !ok ==> shares == old(shares)
      ensures ok ==> shares == old(shares) + WithShares(id, SetOf(emails))
      ensures ok ==> SharesOf(shares, id) == SharesOf(old(shares), id) + SetOf(emails)
      ensures forall k :: k != id ==> SharesOf(shares, k) == SharesOf(old(shares), k)
    {
      var n := CountAfter(SharesOf(shares, id), emails);
      if n > MAX_SHARES {
        return false;
      }
      InsertAll(id, emails);
      ghost var before := SharesOf(old(shares), id);
      assert (before - {}) + SetOf(emails) == before + SetOf(emails);
      assert shares == (old(shares) - WithShares(id, {})) + WithShares(id, SetOf(emails));
      CapKept(forms, old(shares), id, SetOf(emails), {}, shares);
      ok := true;
    }

    method RemoveShares(id: string, emails: seq<string>)
      requires Valid() && id in forms
      modifies this`shares
      ensures Valid() && SharesOf(shares, id) == SharesOf(old(shares), id) - SetOf(emails)
      ensures forall k :: k != id ==> SharesOf(shares, k) == SharesOf(old(shares), k)
    {
      for i := 0 to |emails|
        invariant shares == old(shares) - WithShares(id, SetOf(emails[..i]))
      {
        assert SetOf(emails[..i + 1]) == SetOf(emails[..i]) + {emails[i]};
        shares := shares - {(id, emails[i])};
      }
      assert emails[..|emails|] == emails;
      SmallerSet(SharesOf(old(shares), id) - SetOf(emails) + {}, SharesOf(old(shares), id));
      assert shares == old(shares) - WithShares(id, SetOf(emails)) + WithShares(id, {});
      CapKept(forms, old(shares), id, {}, SetOf(emails), shares);
    }

    /** changeShares: (old - remove) + add on success; nothing on a bad address; old - remove beyond the cap. */
    method ChangeShares(id: string, add: seq<string>, remove: seq<string>, a: Addresses) returns (r: ShareResult)
      requires Valid() && id in forms
      modifies this`shares
      ensures Valid()
      ensures r.BadAddress? <==> !(AddressesOk(add, a) && AddressesOk(remove, a))
      ensures r.BadAddress? ==> shares == old(shares)
      ensures var kept := SharesOf(old(shares), id) - Normalized(remove, a);
              var wanted := kept + Normalized(add, a);
              !r.BadAddress? ==>
                && r == (if |wanted| <= MAX_SHARES then Changed(wanted) else TooMany)
                && SharesOf(shares, id) == if |wanted| <= MAX_SHARES then wanted else kept
      ensures forall k :: k != id ==> SharesOf(shares, k) == SharesOf(old(shares), k)
    {
      var addN := NormalizeShareEmails(add, a);
      if addN.None? {
        return BadAddress;
      }
      var remN := NormalizeShareEmails(remove, a);
      if remN.None? {
        return BadAddress;
      }
      RemoveShares(id, remN.value);
      var ok := AddShares(id, addN.value);
      if !ok {
        return TooMany;
      }
      r := Changed(SharesOf(shares, id));
    }

    /** A name for form id, and whether the unique index would take it. */
    method ProbeRef(id: string, base: string, tail: string) returns (ref: string, free: bool)
      requires Valid()
      ensures free == Free(RefsOf(forms), id, ref)
      ensures |forms.Keys - {id}| < PROBES ==> free && FirstFree(RefsOf(forms), id, BaseOf(base), ref)
    {
      assert RefsOf(forms).Keys == forms.Keys;
      ref := UniqueRef(RefsOf(forms), base, id, tail);
      free := !Taken(RefsOf(forms), id, ref);
    }

    /** The row createForm wants to store, but for its name. */
    function NewRow(in_: CreateInput, createdBy: string, now: int): Row {
      Row("", in_.title, in_.description, in_.fields, Trim(in_.ownerTeam, IsSpace), "active", in_.allowMultiple, in_.expiresAt,
          createdBy, now, DeletionDate(in_.deleteAt, now))
    }

    /** The given name decides, or else the title. */
    function NameBase(in_: CreateInput): string {
      if Trim(in_.ref, IsSpace) != "" then in_.ref else in_.title
    }

    /** The checks of createForm: title, fields, shares, in this order. */
    method CheckNew(in_: CreateInput, a: Addresses) returns (refused: Option<CreateResult>, emails: seq<string>)
      ensures refused == Some(NoTitle) <==> !Titled(in_)
      ensures refused.Some? && refused.value.FieldsRefused? <==> Titled(in_) && !Submission.WellFormed(in_.fields)
      ensures refused.Some? && refused.value.FieldsRefused? ==> Submission.Explains(refused.value.fault, in_.fields)
      ensures refused == Some(SharesRefused) <==> Titled(in_) && Submission.WellFormed(in_.fields) && !AddressesOk(in_.sharedWith, a)
      ensures refused.Some? ==> refused.value.NoTitle? || refused.value.FieldsRefused? || refused.value.SharesRefused?
      ensures refused.None? ==> Distinct(emails) && SetOf(emails) == Normalized(in_.sharedWith, a) && |SetOf(emails)| <= MAX_SHARES
    {
      if !Titled(in_) {
        return Some(NoTitle), [];
      }
      var defs := Submission.ValidateFieldDefs(in_.fields);
      if defs.DefsErr? {
        return Some(FieldsRefused(defs.error)), [];
      }
      var sharesN := NormalizeShareEmails(in_.sharedWith, a);
      if sharesN.None? {
        return Some(SharesRefused), [];
      }
      refused, emails := None, sharesN.value;
    }

    /** createForm, for the base of the name. */
    method CreateNamed(id: string, in_: CreateInput, createdBy: string, a: Addresses, now: int, base: string, tails: seq<string>)
      returns (r: CreateResult)
      requires Valid() && id != "" && id !in forms && now > 0 && |tails| == 5
      modifies this`forms, this`shares
      ensures Valid()
      ensures !r.Created? ==> forms == old(forms) && shares == old(shares)
      ensures r.Created? ==>
                && r.row == NewRow(in_, createdBy, now).(ref := r.row.ref) && Free(RefsOf(old(forms)), "", r.row.ref)
                && forms == old(forms)[id := r.row] && shares == old(shares) + WithShares(id, Normalized(in_.sharedWith, a))
      ensures CreateSays(in_, a, r)
      ensures |old(forms)| < PROBES ==> !r.NoName?
      ensures r.Created? && |old(forms)| < PROBES ==> FirstFree(RefsOf(old(forms)), "", BaseOf(base), r.row.ref)
    {
      var refused, emails := CheckNew(in_, a);
      if refused.Some? {
        return refused.value;
      }
      r := StoreNew(id, base, NewRow(in_, createdBy, now), emails, tails);
    }

    /** createForm: title, fields and shares are checked in this order; then a free name is found. */
    method CreateForm(id: string, in_: CreateInput, createdBy: string, a: Addresses, now: int, lower: char -> char, tails: seq<string>)
      returns (r: CreateResult)
      requires Valid() && id != "" && id !in forms && now > 0 && |tails| == 5
      modifies this`forms, this`shares
      ensures Valid()
      ensures !r.Created? ==> forms == old(forms) && shares == old(shares)
      ensures r.Created? ==>
                && Stores(in_, createdBy, now, retentionDays, r.row) && Free(RefsOf(old(forms)), "", r.row.ref)
                && forms == old(forms)[id := r.row] && shares == old(shares) + WithShares(id, Normalized(in_.sharedWith, a))
      ensures CreateSays(in_, a, r)
      ensures |old(forms)| < PROBES ==> !r.NoName?
      ensures r.Created? && |old(forms)| < PROBES ==>
                FirstFree(RefsOf(old(forms)), "", SlugOf(if Trim(in_.ref, IsSpace) != "" then in_.ref else in_.title, lower), r.row.ref)
    {
      var base := Slugify(NameBase(in_), lower);
      r := CreateNamed(id, in_, createdBy, a, now, base, tails);
    }

    /** The attempts to store a checked survey under a free name. */
    method StoreNew(id: string, base: string, row: Row, emails: seq<string>, tails: seq<string>) returns (r: CreateResult)
      requires Valid() && id != "" && id !in forms && Distinct(emails) && |SetOf(emails)| <= MAX_SHARES && |tails| == 5
      requires retentionDays > 0 ==> row.deleteAt != 0
      modifies this`forms, this`shares
      ensures Valid() && (r.Created? || r.NoName?)
      ensures r.Created? && |old(forms)| < PROBES ==> FirstFree(RefsOf(old(forms)), "", BaseOf(base), r.row.ref)
      ensures r.NoName? ==> |old(forms)| >= PROBES && forms == old(forms) && shares == old(shares)
      ensures r.Created? ==>
                && r.row == row.(ref := r.row.ref) && Free(RefsOf(old(forms)), "", r.row.ref)
                && forms == old(forms)[id := r.row] && shares == old(shares) + WithShares(id, SetOf(emails))
    {
      for attempt := 0 to 5
        invariant forms == old(forms) && shares == old(shares) && Valid()
        invariant attempt > 0 ==> |forms| >= PROBES
      {
        var ref, done := TryCreate(id, base, row, emails, tails[attempt]);
        if done {
          return Created(row.(ref := ref));
        }
      }
      r := NoName;
    }

    /** One attempt: a name, and the INSERTs unless it is taken after all. */
    method TryCreate(id: string, base: string, row: Row, emails: seq<string>, tail: string) returns (ref: string, done: bool)
      requires Valid() && id != "" && id !in forms && Distinct(emails) && |SetOf(emails)| <= MAX_SHARES
      requires retentionDays > 0 ==> row.deleteAt != 0
      modifies this`forms, this`shares
      ensures Valid() && (|old(forms)| < PROBES ==> done)
      ensures !done ==> forms == old(forms) && shares == old(shares)
      ensures done && |old(forms)| < PROBES ==> FirstFree(RefsOf(old(forms)), "", BaseOf(base), ref)
      ensures done ==>
                && Free(RefsOf(old(forms)), "", ref) && forms == old(forms)[id := row.(ref := ref)]
                && shares == old(shares) + WithShares(id, SetOf(emails))
    {
      assert forms.Keys - {""} == forms.Keys;
      ref, done := ProbeRef("", base, tail);
      if done {
        InsertShared(id, row.(ref := ref), emails);
      }
    }

    /** INSERT INTO forms; the name index accepts it. */
    method Insert(id: string, row: Row)
      requires Valid() && id !in forms && id != ""
      requires Free(RefsOf(forms), "", row.ref) && (retentionDays > 0 ==> row.deleteAt != 0)
      modifies this`forms
      ensures Valid() && forms == old(forms)[id := row] && SharesOf(shares, id) == {}
    {
      assert Free(RefsOf(forms), id, row.ref);
      RefStaysUnique(forms, id, row);
      forms := forms[id := row];
    }

    /** A new survey has no shares yet, so adding at most 100 cannot fail. */
    method InsertShared(id: string, row: Row, emails: seq<string>)
      requires Valid() && id !in forms && id != "" && Distinct(emails) && |SetOf(emails)| <= MAX_SHARES
      requires Free(RefsOf(forms), "", row.ref) && (retentionDays > 0 ==> row.deleteAt != 0)
      modifies this`forms, this`shares
      ensures Valid() && forms == old(forms)[id := row] && shares == old(shares) + WithShares(id, SetOf(emails))
    {
      Insert(id, row);
      assert SharesOf(shares, id) + SetOf(emails) == SetOf(emails);
      var ok := AddShares(id, emails);
    }

    function DeletionDate(deleteAt: int, now: int): int {
      if deleteAt == 0 && retentionDays > 0 then now + retentionDays * DAY_MS else deleteAt
    }

    /** The row updateForm is about to write, and whether the name index takes it; or the first error. */
    method Prepare(id: string, p: Patch, tail: string, base: string) returns (r: UpdateResult, free: bool)
      requires Valid() && id in forms
      ensures PatchSays(p, retentionDays, r) && !r.Unknown? && !r.RefTaken?
      ensures r.Updated? ==> r.row == Patched(forms[id], p, r.row.ref) && (p.ref.None? ==> r.row.ref == forms[id].ref)
      ensures r.Updated? ==> free == Free(RefsOf(forms), id, r.row.ref)
      ensures r.Updated? && |forms.Keys - {id}| < PROBES ==>
                free && (p.ref.Some? ==> FirstFree(RefsOf(forms), id, BaseOf(base), r.row.ref))
    {
      var f := forms[id];
      var ref;
      ref, free := PrepareRef(id, p, tail, base);
      r := PatchRow(f.(title := Or(p.title, f.title), description := Or(p.description, f.description), ref := ref), p);
    }

    /** Status, dates and fields, each checked before it is taken over. */
    method PatchRow(row: Row, p: Patch) returns (r: UpdateResult)
      ensures PatchSays(p, retentionDays, r) && !r.Unknown? && !r.RefTaken?
      ensures r.Updated? ==> r.row == Patched(row, p.(title := None, description := None), row.ref)
    {
      var f := row;
      if p.status.Some? {
        if p.status.value != "active" && p.status.value != "disabled" {
          return BadStatus;
        }
        f := f.(status := p.status.value);
      }
      if p.expiresAt.Some? {
        f := f.(expiresAt := p.expiresAt.value);
      }
      if p.deleteAt.Some? {
        if p.deleteAt.value == 0 && retentionDays > 0 {
          return RetentionApplies;
        }
        f := f.(deleteAt := p.deleteAt.value);
      }
      var fields, fault := CheckFields(f.fields, p.fields);
      if fault.Some? {
        return BadFields(fault.value);
      }
      r := Updated(f.(fields := fields));
    }

    /** The fields to store, or why the patched ones will not do. */
    method CheckFields(current: seq<Submission.Field>, patched: Option<seq<Submission.Field>>)
      returns (fields: seq<Submission.Field>, fault: Option<Submission.DefsError>)
      ensures fault.None? <==> (patched.Some? ==> Submission.WellFormed(patched.value))
      ensures fault.Some? ==> patched.Some? && Submission.Explains(fault.value, patched.value)
      ensures fault.None? ==> fields == Or(patched, current)
    {
      fields, fault := current, None;
      if patched.Some? {
        var defs := Submission.ValidateFieldDefs(patched.value);
        if defs.DefsErr? {
          return fields, Some(defs.error);
        }
        fields := patched.value;
      }
    }

    method PrepareRef(id: string, p: Patch, tail: string, base: string) returns (ref: string, free: bool)
      requires Valid() && id in forms
      ensures free == Free(RefsOf(forms), id, ref) && (p.ref.None? ==> ref == forms[id].ref)
      ensures |forms.Keys - {id}| < PROBES ==> free && (p.ref.Some? ==> FirstFree(RefsOf(forms), id, BaseOf(base), ref))
    {
      ref, free := forms[id].ref, true;
      CurrentRefIsFree(id);
      if p.ref.Some? {
        ref, free := ProbeRef(id, base, tail);
      }
    }

    /** updateForm, for the base of the new name. */
    method UpdateNamed(id: string, p: Patch, tail: string, base: string) returns (r: UpdateResult)
      requires Valid()
      modifies this`forms
      ensures Valid() && (!r.Updated? ==> forms == old(forms)) && (r.Unknown? <==> id !in old(forms))
      ensures r.Updated? ==>
                && id in old(forms) && forms == old(forms)[id := r.row]
                && r.row == Patched(old(forms)[id], p, r.row.ref)
                && (p.ref.None? ==> r.row.ref == old(forms)[id].ref)
      ensures id in old(forms) ==> PatchSays(p, retentionDays, r)
      ensures |old(forms).Keys - {id}| < PROBES ==>
                !r.RefTaken? && (r.Updated? && p.ref.Some? ==> FirstFree(RefsOf(old(forms)), id, BaseOf(base), r.row.ref))
    {
      if id !in forms {
        return Unknown;
      }
      var free;
      r, free := Prepare(id, p, tail, base);
      if r.Updated? {
        if !free {
          return RefTaken;
        }
        RefStaysUnique(forms, id, r.row);
        forms := forms[id := r.row];
      }
    }

    /** updateForm: all of the patch, or the first error and no change. */
    method UpdateForm(id: string, p: Patch, tail: string, lower: char -> char) returns (r: UpdateResult)
      requires Valid()
      modifies this`forms
      ensures Valid() && (!r.Updated? ==> forms == old(forms)) && (r.Unknown? <==> id !in old(forms))
      ensures r.Updated? ==>
                && id in old(forms) && forms == old(forms)[id := r.row]
                && Amends(old(forms)[id], p, r.row)
                && (p.ref.None? ==> r.row.ref == old(forms)[id].ref)
      ensures id in old(forms) ==> PatchSays(p, retentionDays, r)
      ensures |old(forms).Keys - {id}| < PROBES ==>
                !r.RefTaken? && (r.Updated? && p.ref.Some? ==> FirstFree(RefsOf(old(forms)), id, SlugOf(p.ref.value, lower), r.row.ref))
    {
      var base := "";
      if p.ref.Some? {
        base := Slugify(p.ref.value, lower);
      }
      r := UpdateNamed(id, p, tail, base);
    }

    lemma CurrentRefIsFree(id: string)
      requires Valid() && id in forms
      ensures Free(RefsOf(forms), id, forms[id].ref)
    {
    }

    /** deleteForm, with its shares and submissions (ON DELETE CASCADE). */
    method DeleteForm(id: string) returns (found: bool)
      requires Valid()
      modifies this`forms, this`shares, this`submissions
      ensures Valid() && found == (id in old(forms))
      ensures forms == old(forms) - {id} && shares == set p | p in old(shares) && p.0 != id
      ensures submissions == map s | s in old(submissions) && old(submissions)[s].form != id :: old(submissions)[s]
    {
      found := id in forms;
      DropForms({id});
    }

    method DropForms(ids: set<string>)
      requires Valid()
      modifies this`forms, this`shares, this`submissions
      ensures Valid()
      ensures forms == old(forms) - ids && shares == set p | p in old(shares) && p.0 !in ids
      ensures submissions == map s | s in old(submissions) && old(submissions)[s].form !in ids :: old(submissions)[s]
    {
      forms := forms - ids;
      shares := set p | p in shares && p.0 !in ids;
      submissions := map s | s in submissions && submissions[s].form !in ids :: submissions[s];
      forall k | k in forms ensures |SharesOf(shares, k)| <= MAX_SHARES {
        assert SharesOf(shares, k) <= SharesOf(old(shares), k);
        SmallerSet(SharesOf(shares, k), SharesOf(old(shares), k));
      }
    }

    /**
      handleFormPost past the rate limiter. bot: the hidden field was filled in, or the page was sent back too soon;
      such answers are thanked for and not stored.
     */
    method PostForm(sid: string, id: string, raw: map<string, string>, bot: bool, sentBefore: bool,
                    checks: Submission.Checks, now: int) returns (r: PostResult)
      requires Valid() && sid !in submissions
      modifies this`submissions
      ensures Valid()
      ensures r.Stored? <==>
                id in forms && TakesAnswer(forms[id], sentBefore, now) && !bot && Submission.Complaints(forms[id].fields, raw, checks) == map[]
      ensures r.Stored? ==> submissions == old(submissions)[sid := Entry(id, Submission.Values(forms[id].fields, raw, checks))]
      ensures !r.Stored? ==> submissions == old(submissions)
      ensures r.NoSurvey? <==> id !in forms || PastDate(forms[id], now)
      ensures r.Closed? <==> id in forms && !PastDate(forms[id], now) && !IsOpen(forms[id], now)
      ensures r.Swallowed? <==> id in forms && !PastDate(forms[id], now) && IsOpen(forms[id], now) && bot
      ensures r.AlreadySent? <==>
                id in forms && !PastDate(forms[id], now) && IsOpen(forms[id], now) && !bot && !forms[id].allowMultiple && sentBefore
      ensures r.Complained? ==> id in forms && r.complaints == Submission.Complaints(forms[id].fields, raw, checks) != map[]
    {
      if id !in forms || IsDue(forms[id], now) {
        return NoSurvey;
      }
      var form := forms[id];
      if !Accepts(form, now) {
        return Closed;
      }
      if bot {
        return Swallowed;
      }
      if !form.allowMultiple && sentBefore {
        return AlreadySent;
      }
      var clean, errs := Submission.ValidateSubmission(form.fields, raw, checks);
      if |errs| > 0 {
        return Complained(errs);
      }
      submissions := submissions[sid := Entry(id, clean)];
      r := Stored;
    }

    /** delete_submission: for whoever may manage the survey it belongs to. */
    method DeleteSubmission(sid: string, c: Viewer, now: int) returns (done: bool)
      requires Valid()
      modifies this`submissions
      ensures Valid()
      ensures done <==> sid in old(submissions) && OpenManaged(c, forms, shares, old(submissions)[sid].form, now).Open?
      ensures submissions == if done then old(submissions) - {sid} else old(submissions)
    {
      if sid !in submissions || !OpenManaged(c, forms, shares, submissions[sid].form, now).Open? {
        return false;
      }
      submissions := submissions - {sid};
      done := true;
    }

    /** purgeDueForms deletes exactly the due surveys with a positive date; a date before 1970 hides but never deletes. */
    method PurgeDueForms(now: int) returns (gone: nat)
      requires Valid()
      modifies this`forms, this`shares, this`submissions
      ensures Valid()
      ensures forms.Keys == set id | id in old(forms) && !(0 < old(forms)[id].deleteAt < now)
      ensures forall id :: id in forms ==> forms[id] == old(forms)[id] && SharesOf(shares, id) == SharesOf(old(shares), id)
      ensures submissions.Keys == set s | s in old(submissions) && old(submissions)[s].form in forms
      ensures forall s :: s in submissions ==> submissions[s] == old(submissions)[s]
      ensures gone == |old(forms)| - |forms|
    {
      var due := set id | id in forms && forms[id].deleteAt > 0 && forms[id].deleteAt < now;
      gone := |due|;
      assert due <= forms.Keys;
      var rest := forms.Keys - due;
      assert |rest| == |forms.Keys| - |due|;
      DropForms(due);
      assert forms.Keys == rest;
    }
  }

  /** One survey's change keeps every survey under the cap, if its own new set is. */
  lemma CapKept(forms: map<string, Row>, shares: set<(string, string)>, id: string, add: set<string>, remove: set<string>,
                after: set<(string, string)>)
    requires after == (shares - WithShares(id, remove)) + WithShares(id, add)
    requires forall k :: k in forms ==> |SharesOf(shares, k)| <= MAX_SHARES
    requires |(SharesOf(shares, id) - remove) + add| <= MAX_SHARES
    ensures SharesOf(after, id) == (SharesOf(shares, id) - remove) + add
    ensures forall k :: k != id ==> SharesOf(after, k) == SharesOf(shares, k)
    ensures forall k :: k in forms ==> |SharesOf(after, k)| <= MAX_SHARES
  {
    SharesAfter(shares, id, add, remove);
  }

  /** Once the sweeper ran, opening any survey gives the answer it gave before: due surveys were already gone. */
  lemma SweepIsUnseen(c: Viewer, forms: map<string, Row>, shares: set<(string, string)>,
                      swept: map<string, Row>, left: set<(string, string)>, id: string, now: int, later: int)
    requires now <= later
    requires swept.Keys == set k | k in forms && !(0 < forms[k].deleteAt < now)
    requires forall k :: k in swept ==> swept[k] == forms[k] && SharesOf(left, k) == SharesOf(shares, k)
    ensures OpenForm(c, swept, left, id, later) == OpenForm(c, forms, shares, id, later)
    ensures Listed(c, swept, left, id, later) == Listed(c, forms, shares, id, later)
  {
    if id in forms && id !in swept {
      assert IsDue(forms[id], later);
    }
  }

  lemma SharesAfter(shares: set<(string, string)>, id: string, add: set<string>, remove: set<string>)
    ensures var after := (shares - WithShares(id, remove)) + WithShares(id, add);
            && SharesOf(after, id) == (SharesOf(shares, id) - remove) + add
            && forall k :: k != id ==> SharesOf(after, k) == SharesOf(shares, k)
    ensures WithShares(id, {}) == {}
  {
    var after := (shares - WithShares(id, remove)) + WithShares(id, add);
    forall e ensures e in SharesOf(after, id) <==> e in (SharesOf(shares, id) - remove) + add {
      assert (id, e) in after <==> ((id, e) in shares && e !in remove) || e in add;
    }
    forall k | k != id ensures SharesOf(after, k) == SharesOf(shares, k) {
      forall e ensures e in SharesOf(after, k) <==> e in SharesOf(shares, k) {
        assert (k, e) in after <==> (k, e) in shares;
      }
    }
  }

  lemma SmallerSet(a: set<string>, b: set<string>)
    requires a <= b
    ensures |a| <= |b|
  {
    SubsetCount(a, b);
  }
}
