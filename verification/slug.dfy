/** Readable survey names: slugify and the bounded search for a free name (db.go). */
module Slug {
  import opened Text

  const MAX_LENGTH: nat := 60
  const FALLBACK := "umfrage"
  const PROBES: nat := 9998

  predicate Alnum(c: char) {
    'a' <= c <= 'z' || '0' <= c <= '9'
  }

  predicate SlugChar(c: char) {
    Alnum(c) || c == '-'
  }

  /** Letters, digits and single dashes, not starting with a dash. */
  predicate Squeezed(s: string) {
    && (forall i :: 0 <= i < |s| ==> SlugChar(s[i]))
    && (s != [] ==> s[0] != '-')
    && (forall i :: 0 < i < |s| ==> s[i - 1] != '-' || s[i] != '-')
  }

  /** What slugify promises of every result. */
  predicate IsSlug(s: string) {
    0 < |s| <= MAX_LENGTH && Squeezed(s) && s[|s| - 1] != '-'
  }

  /** Unicode lower-casing, character by character; all that matters here is that it keeps slugs. */
  ghost predicate KeepsSlugChars(lower: char -> char) {
    forall c :: SlugChar(c) ==> lower(c) == c
  }

  function Lower(s: string, lower: char -> char): (r: string)
    ensures |r| == |s| && forall i :: 0 <= i < |s| ==> r[i] == lower(s[i])
  {
    seq(|s|, i requires 0 <= i < |s| => lower(s[i]))
  }

  /** The replacer's table of German and French letters. */
  const SPELLED := map[
    '\U{00E4}' := "ae", '\U{00F6}' := "oe", '\U{00FC}' := "ue", '\U{00DF}' := "ss",
    '\U{00E1}' := "a", '\U{00E0}' := "a", '\U{00E2}' := "a", '\U{00E9}' := "e", '\U{00E8}' := "e", '\U{00EA}' := "e"]

  function Transliterate(c: char): string {
    if c in SPELLED then SPELLED[c] else [c]
  }

  function Replace(s: string): string {
    if s == [] then [] else Replace(s[..|s| - 1]) + Transliterate(s[|s| - 1])
  }

  /** The text the loop of slugify scans. */
  function Folded(s: string, lower: char -> char): string {
    Replace(Lower(Trim(s, IsSpace), lower))
  }

  /** Runs of other characters become one dash; none in front. */
  function Squeeze(s: string): string {
    if s == [] then []
    else
      var before := Squeeze(s[..|s| - 1]);
      var c := s[|s| - 1];
      if Alnum(c) then before + [c]
      else if before != [] && before[|before| - 1] != '-' then before + ['-']
      else before
  }

  /** The letters and digits of s, in order. */
  function Letters(s: string): string {
    if s == [] then []
    else Letters(s[..|s| - 1]) + if Alnum(s[|s| - 1]) then [s[|s| - 1]] else []
  }

  function Shorten(b: string): string {
    var out := Trim(b, IsDash);
    if |out| > MAX_LENGTH then Trim(out[..MAX_LENGTH], IsDash) else out
  }

  function SlugOf(s: string, lower: char -> char): string {
    var out := Shorten(Squeeze(Folded(s, lower)));
    if out == "" then FALLBACK else out
  }

  /** The builder loop of slugify with its dash flag. */
  method Build(t: string) returns (b: string)
    ensures b == Squeeze(t)
  {
    b := [];
    var dash := false;
    for i := 0 to |t|
      invariant b == Squeeze(t[..i])
      invariant dash <==> b != [] && b[|b| - 1] == '-'
    {
      assert t[..i + 1][..i] == t[..i];
      var r := t[i];
      if Alnum(r) {
        b := b + [r];
        dash := false;
      } else if |b| > 0 && !dash {
        b := b + ['-'];
        dash := true;
      }
    }
    assert t[..|t|] == t;
  }

  /** slugify: fold, build, trim, cut at 60, trim again; never empty. */
  method Slugify(s: string, lower: char -> char) returns (out: string)
    ensures out == SlugOf(s, lower)
    ensures IsSlug(out)
  {
    SlugShape(s, lower);
    var b := Build(Folded(s, lower));
    out := Trim(b, IsDash);
    if |out| > MAX_LENGTH {
      out := Trim(out[..MAX_LENGTH], IsDash);
    }
    if out == "" {
      out := FALLBACK;
    }
  }

  lemma {:induction false} SqueezeSqueezes(s: string)
    ensures Squeezed(Squeeze(s))
  {
    if s != [] {
      SqueezeSqueezes(s[..|s| - 1]);
    }
  }

  lemma TrimKeepsSqueezed(s: string)
    requires Squeezed(s)
    ensures Squeezed(Trim(s, IsDash)) && Tight(Trim(s, IsDash), IsDash)
  {
    var lo, hi := TrimIsSlice(s, IsDash);
  }

  /** Every result of slugify: 1 to 60 characters a-z, 0-9 and dash; no outer or doubled dash. */
  lemma SlugShape(s: string, lower: char -> char)
    ensures IsSlug(SlugOf(s, lower))
  {
    var b := Squeeze(Folded(s, lower));
    SqueezeSqueezes(Folded(s, lower));
    TrimKeepsSqueezed(b);
    var out := Trim(b, IsDash);
    if |out| > MAX_LENGTH {
      TrimKeepsSqueezed(out[..MAX_LENGTH]);
      var lo, hi := TrimIsSlice(out[..MAX_LENGTH], IsDash);
    }
  }

  lemma {:induction false} SqueezedIsFixed(s: string)
    requires Squeezed(s)
    ensures Squeeze(s) == s
  {
    if s != [] {
      SqueezedIsFixed(s[..|s| - 1]);
    }
  }

  lemma {:induction false} ReplaceKeepsSlugs(s: string)
    requires forall i :: 0 <= i < |s| ==> SlugChar(s[i])
    ensures Replace(s) == s
  {
    if s != [] {
      ReplaceKeepsSlugs(s[..|s| - 1]);
    }
  }

  /** A slug is its own slug. */
  lemma SlugIsFixed(s: string, lower: char -> char)
    requires IsSlug(s) && KeepsSlugChars(lower)
    ensures SlugOf(s, lower) == s
  {
    TightIsFixed(s, IsSpace);
    assert Lower(s, lower) == s;
    ReplaceKeepsSlugs(s);
    SqueezedIsFixed(s);
    TightIsFixed(s, IsDash);
  }

  /** slugify is idempotent, through folding, trimming and truncation. */
  lemma SlugifyIdempotent(s: string, lower: char -> char)
    requires KeepsSlugChars(lower)
    ensures SlugOf(SlugOf(s, lower), lower) == SlugOf(s, lower)
  {
    SlugShape(s, lower);
    SlugIsFixed(SlugOf(s, lower), lower);
  }

  lemma {:induction false} SqueezeKeepsLetters(s: string)
    ensures Letters(Squeeze(s)) == Letters(s)
  {
    if s != [] {
      SqueezeKeepsLetters(s[..|s| - 1]);
      var before := Squeeze(s[..|s| - 1]);
      if Squeeze(s) != before {
        assert Squeeze(s)[..|before|] == before;
      }
    }
  }

  lemma {:induction false} LettersSplit(a: string, b: string)
    ensures Letters(a + b) == Letters(a) + Letters(b)
  {
    if b == [] {
      assert a + b == a;
    } else {
      LettersSplit(a, b[..|b| - 1]);
      assert (a + b)[..|a + b| - 1] == a + b[..|b| - 1];
    }
  }

  lemma {:induction false} DashesHaveNoLetters(s: string)
    requires forall i :: 0 <= i < |s| ==> s[i] == '-'
    ensures Letters(s) == []
  {
    if s != [] {
      DashesHaveNoLetters(s[..|s| - 1]);
    }
  }

  lemma TrimKeepsLetters(s: string)
    ensures Letters(Trim(s, IsDash)) == Letters(s)
  {
    var lo, hi := TrimIsSlice(s, IsDash);
    assert s == s[..lo] + s[lo..hi] + s[hi..];
    LettersSplit(s[..lo] + s[lo..hi], s[hi..]);
    LettersSplit(s[..lo], s[lo..hi]);
    DashesHaveNoLetters(s[..lo]);
    DashesHaveNoLetters(s[hi..]);
  }

  /** No letter or digit is lost, invented or moved, unless the text is cut at 60 characters. */
  lemma SlugKeepsLetters(s: string, lower: char -> char)
    ensures var letters := Letters(Folded(s, lower));
            if letters == [] then SlugOf(s, lower) == FALLBACK
            else Letters(SlugOf(s, lower)) <= letters
                 && (|Trim(Squeeze(Folded(s, lower)), IsDash)| <= MAX_LENGTH ==> Letters(SlugOf(s, lower)) == letters)
  {
    var t := Folded(s, lower);
    var b := Squeeze(t);
    SqueezeKeepsLetters(t);
    SqueezeSqueezes(t);
    TrimKeepsLetters(b);
    TrimKeepsSqueezed(b);
    var out := Trim(b, IsDash);
    if out != [] {
      assert Alnum(out[0]);
      HasLetter(out);
      if |out| > MAX_LENGTH {
        TrimKeepsLetters(out[..MAX_LENGTH]);
        HasLetter(out[..MAX_LENGTH]);
        LettersSplit(out[..MAX_LENGTH], out[MAX_LENGTH..]);
        assert out == out[..MAX_LENGTH] + out[MAX_LENGTH..];
      }
    }
  }

  lemma {:induction false} HasLetter(s: string)
    requires s != [] && Alnum(s[0])
    ensures Letters(s) != []
  {
    if |s| > 1 {
      HasLetter(s[..|s| - 1]);
    }
  }

  // ----- folding -------------------------------------------------------------------

  lemma {:induction false} ReplaceSplits(a: string, b: string)
    ensures Replace(a + b) == Replace(a) + Replace(b)
  {
    if b == [] {
      assert a + b == a;
    } else {
      var p, c := b[..|b| - 1], b[|b| - 1];
      assert b == p + [c] && a + b == (a + p) + [c];
      calc {
        Replace(a + b);
        { Appended(a + p, c); }
        Replace(a + p) + Transliterate(c);
        { ReplaceSplits(a, p); Grouped(Replace(a), Replace(p), Transliterate(c)); }
        Replace(a) + (Replace(p) + Transliterate(c));
        { Appended(p, c); }
        Replace(a) + Replace(b);
      }
    }
  }

  lemma Grouped(a: string, b: string, c: string)
    ensures (a + b) + c == a + (b + c)
  {
  }

  lemma Appended(p: string, c: char)
    ensures Replace(p + [c]) == Replace(p) + Transliterate(c)
  {
    assert (p + [c])[..|p|] == p;
  }

  /** White space around the text is dropped, and each character is lowered and spelled out by itself. */
  lemma FoldedLetterwise(before: string, c: char, s: string, after: string, lower: char -> char)
    requires Tight([c] + s, IsSpace) && (forall x :: x in before + after ==> IsSpace(x))
    ensures Folded(before + [c] + s + after, lower) == Transliterate(lower(c)) + Replace(Lower(s, lower))
  {
    OuterSpace(before, [c] + s, after);
    assert before + [c] + s + after == before + ([c] + s) + after;
    assert Lower([c] + s, lower) == [lower(c)] + Lower(s, lower);
    ReplaceSplits([lower(c)], Lower(s, lower));
    assert Replace([lower(c)]) == Replace([]) + Transliterate(lower(c));
  }

  lemma OuterSpace(before: string, s: string, after: string)
    requires s != [] && Tight(s, IsSpace) && (forall x :: x in before + after ==> IsSpace(x))
    ensures Trim(before + s + after, IsSpace) == s
  {
    var t := before + s + after;
    var lo, hi := TrimIsSlice(t, IsSpace);
    assert t[|before|] == s[0] && t[|before| + |s| - 1] == s[|s| - 1];
    assert forall i :: 0 <= i < |before| ==> t[i] == before[i] && before[i] in before + after;
    assert forall i :: 0 <= i < |after| ==> t[|before| + |s| + i] == after[i] && after[i] in before + after;
    assert lo == |before| && hi == |before| + |s|;
    assert t[|before|..|before| + |s|] == s;
  }

  // ----- words ---------------------------------------------------------------------

  /** The unbroken runs of letters and digits. */
  function Words(s: string): seq<string> {
    if s == [] then []
    else
      var n := |s| - 1;
      var before := Words(s[..n]);
      if !Alnum(s[n]) then before
      else if n > 0 && Alnum(s[n - 1]) && before != [] then before[..|before| - 1] + [before[|before| - 1] + [s[n]]]
      else before + [[s[n]]]
  }

  function Joined(words: seq<string>): string {
    if words == [] then []
    else if |words| == 1 then words[0]
    else Joined(words[..|words| - 1]) + "-" + words[|words| - 1]
  }

  ghost predicate AllWords(words: seq<string>) {
    forall w :: w in words ==> w != [] && forall i :: 0 <= i < |w| ==> Alnum(w[i])
  }

  lemma {:induction false} WordsAreWords(s: string)
    ensures AllWords(Words(s))
    ensures s != [] && Alnum(s[|s| - 1]) ==> Words(s) != []
  {
    if s != [] {
      WordsAreWords(s[..|s| - 1]);
    }
  }

  /** Adding to the last word adds to the whole. */
  lemma JoinedGrows(words: seq<string>, c: char)
    requires words != []
    ensures Joined(words[..|words| - 1] + [words[|words| - 1] + [c]]) == Joined(words) + [c]
  {
    var n := |words| - 1;
    var longer := words[..n] + [words[n] + [c]];
    assert longer[..n] == words[..n];
    if n > 0 {
      assert Joined(words[..n]) + "-" + (words[n] + [c]) == Joined(words[..n]) + "-" + words[n] + [c];
    }
  }

  lemma {:induction false} JoinedEnds(words: seq<string>)
    requires AllWords(words) && words != []
    ensures var j := Joined(words); j != [] && Alnum(j[0]) && Alnum(j[|j| - 1])
  {
    if |words| > 1 {
      JoinedEnds(words[..|words| - 1]);
      assert words[|words| - 1] in words;
    }
  }

  /** The builder joins the words with single dashes, and leaves one behind if something else follows the last word. */
  lemma {:induction false} SqueezeJoins(s: string)
    ensures Squeeze(s) == Joined(Words(s)) + if Words(s) != [] && !Alnum(s[|s| - 1]) then "-" else ""
  {
    if s != [] {
      var n := |s| - 1;
      SqueezeJoins(s[..n]);
      WordsAreWords(s[..n]);
      var before := Words(s[..n]);
      if before != [] {
        JoinedEnds(before);
        JoinedGrows(before, s[n]);
        assert (before + [[s[n]]])[..|before|] == before;
      }
    }
  }

  /** The name is the words of the folded text with single dashes in between, cut at 60 characters. */
  lemma SlugIsWords(s: string, lower: char -> char)
    ensures var joined := Joined(Words(Folded(s, lower)));
            SlugOf(s, lower) ==
            if joined == "" then "umfrage" else if |joined| <= 60 then joined else Trim(joined[..60], IsDash)
  {
    var t := Folded(s, lower);
    SqueezeJoins(t);
    WordsAreWords(t);
    if Words(t) != [] {
      JoinedEnds(Words(t));
      ShortenJoined(Joined(Words(t)));
    }
  }

  lemma ShortenJoined(j: string)
    requires j != [] && Alnum(j[0]) && Alnum(j[|j| - 1])
    ensures Shorten(j + "-") == Shorten(j + "") == (if |j| <= 60 then j else Trim(j[..60], IsDash)) != ""
  {
    DashIsTrimmed(j);
    assert j + "" == j;
    if |j| > MAX_LENGTH {
      CutKeepsStart(j[..MAX_LENGTH]);
    }
  }

  lemma DashIsTrimmed(j: string)
    requires j != [] && Alnum(j[0]) && Alnum(j[|j| - 1])
    ensures Trim(j + "-", IsDash) == j == Trim(j, IsDash)
  {
    TightIsFixed(j, IsDash);
    var d := j + "-";
    assert d[0] == j[0] && d[|d| - 1] == '-' && d[..|d| - 1] == j;
    assert TrimLeft(d, IsDash) == d && TrimLeft(j, IsDash) == j;
  }

  lemma CutKeepsStart(s: string)
    requires s != [] && Alnum(s[0])
    ensures Trim(s, IsDash) != []
  {
    var lo, hi := TrimIsSlice(s, IsDash);
  }

  // ----- the search for a free name ---------------------------------------------

  function Decimal(n: nat): string {
    if n < 10 then [Digit(n)] else Decimal(n / 10) + [Digit(n % 10)]
  }

  function Digit(n: nat): char
    requires n < 10
  {
    '0' + n as char
  }

  /** The number a numeral stands for. */
  function Value(s: string): int {
    if s == [] then 0 else 10 * Value(s[..|s| - 1]) + (s[|s| - 1] as int - '0' as int)
  }

  /** A numeral stands for its number, in digits without a leading zero. */
  lemma {:induction false} DecimalReads(n: nat)
    ensures Value(Decimal(n)) == n
    ensures Decimal(n) != [] && (n > 0 ==> Decimal(n)[0] != '0') && forall i :: 0 <= i < |Decimal(n)| ==> '0' <= Decimal(n)[i] <= '9'
  {
    if n >= 10 {
      DecimalReads(n / 10);
      assert Decimal(n)[..|Decimal(n)| - 1] == Decimal(n / 10);
    } else {
      assert Value([]) == 0 && [Digit(n)][..0] == [];
    }
  }

  lemma DecimalInjective(m: nat, n: nat)
    requires Decimal(m) == Decimal(n)
    ensures m == n
  {
    DecimalReads(m);
    DecimalReads(n);
  }

  /** The names probed, in order: base, base-2, base-3, ... */
  function Candidate(base: string, n: nat): string {
    if n == 0 then base else base + "-" + Decimal(n + 1)
  }

  lemma CandidateInjective(base: string, m: nat, n: nat)
    requires Candidate(base, m) == Candidate(base, n)
    ensures m == n
  {
    if m > 0 && n > 0 {
      var k := |base| + 1;
      assert Candidate(base, m)[k..] == Decimal(m + 1);
      assert Candidate(base, n)[k..] == Decimal(n + 1);
      DecimalInjective(m + 1, n + 1);
    }
  }

  /** No form other than exceptId holds ref. */
  ghost predicate Free(refs: map<string, string>, exceptId: string, ref: string) {
    forall id :: id in refs && id != exceptId ==> refs[id] != ref
  }

  function BaseOf(base: string): string {
    if base == "" then FALLBACK else base
  }

  /** SELECT 1 FROM forms WHERE ref = ? AND id != ? */
  predicate Taken(refs: map<string, string>, exceptId: string, ref: string)
    ensures Taken(refs, exceptId, ref) <==> !Free(refs, exceptId, ref)
  {
    exists id :: id in refs && id != exceptId && refs[id] == ref
  }

  /** ref is the first candidate for base that no other row holds. */
  ghost predicate FirstFree(refs: map<string, string>, exceptId: string, base: string, ref: string) {
    exists n: nat :: n < PROBES && ref == Candidate(base, n) && Free(refs, exceptId, ref)
      && forall m: nat :: m < n ==> !Free(refs, exceptId, Candidate(base, m))
  }

  /** uniqueRef: the first free candidate; the random tail only when all 9998 are taken. */
  method UniqueRef(refs: map<string, string>, base: string, exceptId: string, tail: string) returns (ref: string)
    ensures (exists n: nat :: n < PROBES && Free(refs, exceptId, Candidate(BaseOf(base), n))) ==>
              FirstFree(refs, exceptId, BaseOf(base), ref)
    ensures !(exists n: nat :: n < PROBES && Free(refs, exceptId, Candidate(BaseOf(base), n))) ==>
              ref == BaseOf(base) + "-" + tail
    ensures |refs.Keys - {exceptId}| < PROBES ==> FirstFree(refs, exceptId, BaseOf(base), ref)
  {
    var b := BaseOf(base);
    if |refs.Keys - {exceptId}| < PROBES {
      SomeCandidateFree(refs, exceptId, b);
    }
    ref := b;
    for i := 2 to 10000
      invariant ref == Candidate(b, i - 2)
      invariant forall m: nat :: m < i - 2 ==> !Free(refs, exceptId, Candidate(b, m))
    {
      if !Taken(refs, exceptId, ref) {
        return;
      }
      ref := b + "-" + Decimal(i);
    }
    ref := b + "-" + tail;
  }

  ghost function Candidates(base: string, n: nat): (r: set<string>)
    ensures forall s :: s in r <==> exists m: nat :: m < n && s == Candidate(base, m)
  {
    if n == 0 then {} else Candidates(base, n - 1) + {Candidate(base, n - 1)}
  }

  lemma {:induction false} CandidatesCount(base: string, n: nat)
    ensures |Candidates(base, n)| == n
  {
    if n > 0 {
      CandidatesCount(base, n - 1);
      if Candidate(base, n - 1) in Candidates(base, n - 1) {
        var m: nat :| m < n - 1 && Candidate(base, n - 1) == Candidate(base, m);
        CandidateInjective(base, n - 1, m);
      }
    }
  }

  lemma {:induction false} ValuesAtMostKeys(m: map<string, string>)
    ensures |m.Values| <= |m.Keys|
    decreases |m.Keys|
  {
    if m.Keys == {} {
      assert m.Values == {};
    } else {
      var k :| k in m.Keys;
      var rest := m - {k};
      ValuesAtMostKeys(rest);
      forall v | v in m.Values ensures v in rest.Values + {m[k]} {
        var l :| l in m && m[l] == v;
        assert l != k ==> l in rest && rest[l] == v;
      }
      SubsetCount(m.Values, rest.Values + {m[k]});
      assert rest.Keys == m.Keys - {k};
    }
  }

  lemma {:induction false} SubsetCount<T>(a: set<T>, b: set<T>)
    requires a <= b
    ensures |a| <= |b|
  {
    if a != {} {
      var x :| x in a;
      SubsetCount(a - {x}, b - {x});
    }
  }

  /** Pigeonhole: fewer than 9998 other forms leave one of 9998 distinct candidates free. */
  lemma SomeCandidateFree(refs: map<string, string>, exceptId: string, base: string)
    requires |refs.Keys - {exceptId}| < PROBES
    ensures exists n: nat :: n < PROBES && Free(refs, exceptId, Candidate(base, n))
  {
    var others := refs - {exceptId};
    assert others.Keys == refs.Keys - {exceptId};
    if forall n: nat :: n < PROBES ==> !Free(refs, exceptId, Candidate(base, n)) {
      forall s | s in Candidates(base, PROBES) ensures s in others.Values {
        var m: nat :| m < PROBES && s == Candidate(base, m);
        assert !Free(refs, exceptId, s);
        var id :| id in refs && id != exceptId && refs[id] == s;
        assert id in others;
      }
      SubsetCount(Candidates(base, PROBES), others.Values);
      CandidatesCount(base, PROBES);
      ValuesAtMostKeys(others);
    }
  }
}
