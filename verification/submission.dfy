/** Field definitions and public submissions (forms.go): the two validators. */
module Submission {
  import opened Text

  const HARD_MAX: int := 10_000

  datatype Kind = Plain | TextArea | Email | Select | Radio | Number | Checkbox | UnknownKind(name: string)

  datatype Field = Field(key: string, caption: string, kind: Kind, required: bool, maxLength: int, options: seq<string>)

  datatype DefsError = NoFields | BadKey(at: nat) | DuplicateKey(at: nat) | NoLabel(at: nat) | BadKind(at: nat) | NoOptions(at: nat)
  datatype DefsResult = DefsOk | DefsErr(error: DefsError)

  /** Go's regular expression for addresses and its number parser, left uninterpreted. */
  datatype Checks = Checks(email: string -> bool, number: string -> bool)

  // ----- field definitions -------------------------------------------------------

  /** [a-z0-9_]+ */
  predicate KeyOk(key: string) {
    key != "" && forall i :: 0 <= i < |key| ==> 'a' <= key[i] <= 'z' || '0' <= key[i] <= '9' || key[i] == '_'
  }

  predicate NeedsOptions(f: Field) {
    f.kind == Select || f.kind == Radio
  }

  predicate FieldOk(f: Field) {
    KeyOk(f.key) && Trim(f.caption, IsSpace) != "" && !f.kind.UnknownKind? && (NeedsOptions(f) ==> f.options != [])
  }

  predicate DistinctKeys(fields: seq<Field>) {
    forall i, j :: 0 <= i < j < |fields| ==> fields[i].key != fields[j].key
  }

  predicate WellFormed(fields: seq<Field>) {
    fields != [] && (forall i :: 0 <= i < |fields| ==> FieldOk(fields[i])) && DistinctKeys(fields)
  }

  predicate Repeats(fields: seq<Field>, at: nat)
    requires at < |fields|
  {
    exists j :: 0 <= j < at && fields[j].key == fields[at].key
  }

  function KeysOf(fields: seq<Field>): set<string> {
    set f | f in fields :: f.key
  }

  /** e is what is wrong with the first bad field: the first of the checks that fails there. */
  predicate Explains(e: DefsError, fields: seq<Field>) {
    if e.NoFields? then fields == []
    else
      e.at < |fields| &&
      var f := fields[e.at];
      && (e.at > 0 ==> WellFormed(fields[..e.at]))
      && (e.BadKey? <==> !KeyOk(f.key))
      && (e.DuplicateKey? <==> KeyOk(f.key) && Repeats(fields, e.at))
      && (e.NoLabel? <==> KeyOk(f.key) && !Repeats(fields, e.at) && Trim(f.caption, IsSpace) == "")
      && (e.BadKind? ==> f.kind.UnknownKind?)
      && (e.NoOptions? ==> NeedsOptions(f) && f.options == [])
  }

  lemma KeysStep(fields: seq<Field>, i: nat)
    requires i < |fields|
    ensures KeysOf(fields[..i + 1]) == KeysOf(fields[..i]) + {fields[i].key}
    ensures fields[i].key in KeysOf(fields[..i]) <==> Repeats(fields, i)
  {
    assert fields[..i + 1] == fields[..i] + [fields[i]];
    if Repeats(fields, i) {
      var j :| 0 <= j < i && fields[j].key == fields[i].key;
      assert fields[..i][j] in fields[..i];
    }
  }

  lemma WellFormedStep(fields: seq<Field>, i: nat)
    requires i < |fields| && (i > 0 ==> WellFormed(fields[..i])) && FieldOk(fields[i]) && !Repeats(fields, i)
    ensures WellFormed(fields[..i + 1])
  {
    assert fields[..i + 1] == fields[..i] + [fields[i]];
  }

  lemma IllFormed(fields: seq<Field>, i: nat)
    requires i < |fields| && (!FieldOk(fields[i]) || Repeats(fields, i))
    ensures !WellFormed(fields)
  {
  }

  method ValidateFieldDefs(fields: seq<Field>) returns (r: DefsResult)
    ensures r.DefsOk? <==> WellFormed(fields)
    ensures r.DefsErr? ==> Explains(r.error, fields)
  {
    if |fields| == 0 {
      return DefsErr(NoFields);
    }
    var seen: set<string> := {};
    for i := 0 to |fields|
      invariant i > 0 ==> WellFormed(fields[..i])
      invariant seen == KeysOf(fields[..i])
    {
      var f := fields[i];
      KeysStep(fields, i);
      if !FieldOk(f) || Repeats(fields, i) {
        IllFormed(fields, i);
      } else {
        WellFormedStep(fields, i);
      }
      if !KeyOk(f.key) {
        return DefsErr(BadKey(i));
      }
      if f.key in seen {
        return DefsErr(DuplicateKey(i));
      }
      seen := seen + {f.key};
      if Trim(f.caption, IsSpace) == "" {
        return DefsErr(NoLabel(i));
      }
      if f.kind.UnknownKind? {
        return DefsErr(BadKind(i));
      }
      if (f.kind == Select || f.kind == Radio) && |f.options| == 0 {
        return DefsErr(NoOptions(i));
      }
    }
    assert fields[..|fields|] == fields;
    r := DefsOk;
  }

  // ----- submissions ----------------------------------------------------------------

  datatype Complaint = Missing | TooLong(max: int) | NotAnEmail | NotANumber | NotAnOption

  /** What one field contributes: a stored value, a complaint, both (an unticked required box), or nothing. */
  datatype Judgement = Judgement(stored: seq<string>, complaint: seq<Complaint>)

  function Get(m: map<string, string>, key: string): string {
    if key in m then m[key] else ""
  }

  function LengthLimit(f: Field): int {
    if f.maxLength <= 0 || f.maxLength > HARD_MAX then HARD_MAX else f.maxLength
  }

  /** A nonempty value the field accepts. */
  predicate Acceptable(f: Field, v: string, checks: Checks) {
    && |v| <= LengthLimit(f)
    && (f.kind == Email ==> checks.email(v))
    && (f.kind == Number ==> checks.number(v))
    && (NeedsOptions(f) ==> v in f.options)
  }

  predicate Ticked(v: string) {
    v == "on" || v == "true" || v == "1" || v == "yes"
  }

  function Judge(f: Field, raw: string, checks: Checks): Judgement {
    var v := Trim(raw, IsSpace);
    if f.kind == Checkbox then
      Judgement([if Ticked(v) then "true" else "false"], if f.required && !Ticked(v) then [Missing] else [])
    else if v == "" then Judgement([], if f.required then [Missing] else [])
    else if |v| > LengthLimit(f) then Judgement([], [TooLong(LengthLimit(f))])
    else if f.kind == Email && !checks.email(v) then Judgement([], [NotAnEmail])
    else if f.kind == Number && !checks.number(v) then Judgement([], [NotANumber])
    else if NeedsOptions(f) && v !in f.options then Judgement([], [NotAnOption])
    else Judgement([v], [])
  }

  function Put<V>(m: map<string, V>, key: string, vs: seq<V>): map<string, V> {
    if vs == [] then m else m[key := vs[0]]
  }

  function Values(fields: seq<Field>, raw: map<string, string>, checks: Checks): map<string, string> {
    if fields == [] then map[]
    else
      var n := |fields| - 1;
      Put(Values(fields[..n], raw, checks), fields[n].key, Judge(fields[n], Get(raw, fields[n].key), checks).stored)
  }

  function Complaints(fields: seq<Field>, raw: map<string, string>, checks: Checks): map<string, Complaint> {
    if fields == [] then map[]
    else
      var n := |fields| - 1;
      Put(Complaints(fields[..n], raw, checks), fields[n].key, Judge(fields[n], Get(raw, fields[n].key), checks).complaint)
  }

  /** The body of the loop for one field: what it puts into the two maps. */
  method ValidateField(f: Field, raw: string, checks: Checks, out: map<string, string>, errs: map<string, Complaint>)
    returns (out': map<string, string>, errs': map<string, Complaint>)
    ensures out' == Put(out, f.key, Judge(f, raw, checks).stored)
    ensures errs' == Put(errs, f.key, Judge(f, raw, checks).complaint)
  {
    out', errs' := out, errs;
    var v := Trim(raw, IsSpace);
    if f.kind == Checkbox {
      if v == "on" || v == "true" || v == "1" || v == "yes" {
        out' := out'[f.key := "true"];
      } else {
        out' := out'[f.key := "false"];
      }
      if f.required && out'[f.key] != "true" {
        errs' := errs'[f.key := Missing];
      }
      return;
    }
    if v == "" {
      if f.required {
        errs' := errs'[f.key := Missing];
      }
      return;
    }
    var max := f.maxLength;
    if max <= 0 || max > HARD_MAX {
      max := HARD_MAX;
    }
    if |v| > max {
      errs' := errs'[f.key := TooLong(max)];
      return;
    }
    if f.kind == Email {
      if !checks.email(v) {
        errs' := errs'[f.key := NotAnEmail];
        return;
      }
    } else if f.kind == Number {
      if !checks.number(v) {
        errs' := errs'[f.key := NotANumber];
        return;
      }
    } else if f.kind == Select || f.kind == Radio {
      if v !in f.options {
        errs' := errs'[f.key := NotAnOption];
        return;
      }
    }
    out' := out'[f.key := v];
  }

  method ValidateSubmission(fields: seq<Field>, raw: map<string, string>, checks: Checks)
    returns (out: map<string, string>, errs: map<string, Complaint>)
    ensures out == Values(fields, raw, checks) && errs == Complaints(fields, raw, checks)
  {
    out := map[];
    errs := map[];
    for i := 0 to |fields|
      invariant out == Values(fields[..i], raw, checks) && errs == Complaints(fields[..i], raw, checks)
    {
      assert fields[..i + 1][..i] == fields[..i];
      out, errs := ValidateField(fields[i], Get(raw, fields[i].key), checks, out, errs);
    }
    assert fields[..|fields|] == fields;
  }

  /** With distinct keys each field alone decides its entry, in both maps. */
  lemma {:induction false} FieldDecides(fields: seq<Field>, raw: map<string, string>, checks: Checks, i: nat)
    requires DistinctKeys(fields) && i < |fields|
    ensures var v := Judge(fields[i], Get(raw, fields[i].key), checks);
            && (fields[i].key in Values(fields, raw, checks) <==> v.stored != [])
            && (v.stored != [] ==> Values(fields, raw, checks)[fields[i].key] == v.stored[0])
            && (fields[i].key in Complaints(fields, raw, checks) <==> v.complaint != [])
            && (v.complaint != [] ==> Complaints(fields, raw, checks)[fields[i].key] == v.complaint[0])
  {
    var n := |fields| - 1;
    if i < n {
      FieldDecides(fields[..n], raw, checks, i);
    } else {
      KeysOnly(fields[..n], raw, checks);
      assert forall f :: f in fields[..n] ==> f.key != fields[n].key;
    }
  }

  /** What is to be said against answer v, which is not empty, to a field other than a box. */
  ghost predicate Objection(f: Field, v: string, checks: Checks, c: Complaint) {
    var max := if 0 < f.maxLength <= 10_000 then f.maxLength else 10_000;
    if |v| > max then c == TooLong(max)
    else if f.kind == Email && !checks.email(v) then c == NotAnEmail
    else if f.kind == Number && !checks.number(v) then c == NotANumber
    else (f.kind == Select || f.kind == Radio) && v !in f.options && c == NotAnOption
  }

  /**
    With distinct keys, what becomes of one field: an acceptable answer is stored, trimmed; any other is refused for the first
    thing that is wrong with it; no answer is an error only where one is required; a box is always stored, ticked or not.
   */
  lemma AnswerDecides(fields: seq<Field>, raw: map<string, string>, checks: Checks, i: nat)
    requires DistinctKeys(fields) && i < |fields|
    ensures var (f, out, errs) := (fields[i], Values(fields, raw, checks), Complaints(fields, raw, checks));
            var v := Trim(if f.key in raw then raw[f.key] else "", IsSpace);
            if f.kind == Checkbox then
              var ticked := v in {"on", "true", "1", "yes"};
              && f.key in out && out[f.key] == (if ticked then "true" else "false")
              && (f.key in errs <==> f.required && !ticked) && (f.key in errs ==> errs[f.key] == Missing)
            else if v == "" then
              f.key !in out && (f.key in errs <==> f.required) && (f.key in errs ==> errs[f.key] == Missing)
            else
              && (f.key in out <==> forall c :: !Objection(f, v, checks, c)) && (f.key in out ==> out[f.key] == v)
              && (f.key in errs <==> f.key !in out) && (f.key in errs ==> Objection(f, v, checks, errs[f.key]))
  {
    FieldDecides(fields, raw, checks, i);
    var f := fields[i];
    var v := Trim(Get(raw, f.key), IsSpace);
    var j := Judge(f, Get(raw, f.key), checks);
    if f.kind != Checkbox && v != "" && j.complaint != [] {
      assert Objection(f, v, checks, j.complaint[0]);
    }
  }

  /** Nothing is stored or complained about under a key no field has. */
  lemma {:induction false} KeysOnly(fields: seq<Field>, raw: map<string, string>, checks: Checks)
    ensures Values(fields, raw, checks).Keys <= KeysOf(fields)
    ensures Complaints(fields, raw, checks).Keys <= KeysOf(fields)
  {
    if fields != [] {
      var n := |fields| - 1;
      KeysOnly(fields[..n], raw, checks);
      assert KeysOf(fields) == KeysOf(fields[..n]) + {fields[n].key};
    }
  }

  /** Every required field is answered in the output or complained about; nothing else is stored but acceptable values. */
  lemma SubmissionSound(fields: seq<Field>, raw: map<string, string>, checks: Checks, i: nat)
    requires WellFormed(fields) && i < |fields|
    ensures var f := fields[i];
            var out, errs := Values(fields, raw, checks), Complaints(fields, raw, checks);
            && (f.required ==> f.key in out || f.key in errs)
            && (f.key in out && f.kind != Checkbox ==> out[f.key] != "" && Acceptable(f, out[f.key], checks))
            && (f.key in out && f.kind == Checkbox ==> out[f.key] in ["true", "false"])
            && (f.key in out && f.key !in errs && f.kind == Checkbox && f.required ==> out[f.key] == "true")
            && (f.key !in out && f.key !in errs ==> Trim(Get(raw, f.key), IsSpace) == "")
  {
    FieldDecides(fields, raw, checks, i);
  }

  /** An answer that was stored without complaint is stored again, unchanged, without complaint. */
  lemma JudgeTwice(f: Field, raw: string, checks: Checks)
    requires Judge(f, raw, checks).complaint == []
    ensures var first := Judge(f, raw, checks);
            Judge(f, if first.stored == [] then "" else first.stored[0], checks) == first
  {
    TrimIdempotent(raw, IsSpace);
    TightIsFixed("true", IsSpace);
    TightIsFixed("false", IsSpace);
  }

  lemma {:induction false} SameJudgements(fields: seq<Field>, raw: map<string, string>, again: map<string, string>, checks: Checks)
    requires forall f :: f in fields ==> Judge(f, Get(again, f.key), checks) == Judge(f, Get(raw, f.key), checks)
    ensures Values(fields, again, checks) == Values(fields, raw, checks)
    ensures Complaints(fields, again, checks) == Complaints(fields, raw, checks)
  {
    if fields != [] {
      SameJudgements(fields[..|fields| - 1], raw, again, checks);
    }
  }

  /** Validating a clean result again returns the same values and no errors. */
  lemma RevalidationIsStable(fields: seq<Field>, raw: map<string, string>, checks: Checks)
    requires WellFormed(fields) && Complaints(fields, raw, checks) == map[]
    ensures var out := Values(fields, raw, checks);
            Values(fields, out, checks) == out && Complaints(fields, out, checks) == map[]
  {
    var out := Values(fields, raw, checks);
    forall f | f in fields ensures Judge(f, Get(out, f.key), checks) == Judge(f, Get(raw, f.key), checks) {
      var i :| 0 <= i < |fields| && fields[i] == f;
      FieldDecides(fields, raw, checks, i);
      JudgeTwice(f, Get(raw, f.key), checks);
    }
    SameJudgements(fields, raw, out, checks);
  }
}
