/** Trimming, as Go's strings.TrimSpace and strings.Trim do it. */
module Text {

  /** Go's unicode.IsSpace. */
  predicate IsSpace(c: char) {
    || c == '\t' || c == '\n' || c == '\U{000B}' || c == '\U{000C}' || c == '\r' || c == ' '
    || c == '\U{0085}' || c == '\U{00A0}' || c == '\U{1680}'
    || '\U{2000}' <= c <= '\U{200A}'
    || c == '\U{2028}' || c == '\U{2029}' || c == '\U{202F}' || c == '\U{205F}' || c == '\U{3000}'
  }

  predicate IsDash(c: char) {
    c == '-'
  }

  function TrimLeft(s: string, cut: char -> bool): string {
    if s != [] && cut(s[0]) then TrimLeft(s[1..], cut) else s
  }

  function TrimRight(s: string, cut: char -> bool): string {
    if s != [] && cut(s[|s| - 1]) then TrimRight(s[..|s| - 1], cut) else s
  }

  function Trim(s: string, cut: char -> bool): string {
    TrimRight(TrimLeft(s, cut), cut)
  }

  /** Nothing is left to cut at either end. */
  predicate Tight(s: string, cut: char -> bool) {
    s != [] ==> !cut(s[0]) && !cut(s[|s| - 1])
  }

  lemma TrimLeftIsSuffix(s: string, cut: char -> bool) returns (k: nat)
    ensures k <= |s| && TrimLeft(s, cut) == s[k..]
    ensures forall i :: 0 <= i < k ==> cut(s[i])
    ensures k < |s| ==> !cut(s[k])
  {
    if s != [] && cut(s[0]) {
      var j := TrimLeftIsSuffix(s[1..], cut);
      k := j + 1;
      assert forall i :: 1 <= i < k ==> s[i] == s[1..][i - 1];
    } else {
      k := 0;
    }
  }

  lemma TrimRightIsPrefix(s: string, cut: char -> bool) returns (k: nat)
    ensures k <= |s| && TrimRight(s, cut) == s[..k]
    ensures forall i :: k <= i < |s| ==> cut(s[i])
    ensures 0 < k ==> !cut(s[k - 1])
  {
    if s != [] && cut(s[|s| - 1]) {
      k := TrimRightIsPrefix(s[..|s| - 1], cut);
    } else {
      k := |s|;
    }
  }

  /** Trim returns the one slice of s that is tight and loses only cut characters. */
  lemma TrimIsSlice(s: string, cut: char -> bool) returns (lo: nat, hi: nat)
    ensures lo <= hi <= |s| && Trim(s, cut) == s[lo..hi]
    ensures Tight(Trim(s, cut), cut)
    ensures forall i :: 0 <= i < lo || hi <= i < |s| ==> cut(s[i])
  {
    lo := TrimLeftIsSuffix(s, cut);
    var t := s[lo..];
    var k := TrimRightIsPrefix(t, cut);
    hi := lo + k;
    assert t[..k] == s[lo..hi];
    assert forall i :: hi <= i < |s| ==> s[i] == t[i - lo];
  }

  lemma TightIsFixed(s: string, cut: char -> bool)
    requires Tight(s, cut)
    ensures Trim(s, cut) == s
  {
  }

  lemma TrimIdempotent(s: string, cut: char -> bool)
    ensures Trim(Trim(s, cut), cut) == Trim(s, cut)
  {
    var lo, hi := TrimIsSlice(s, cut);
    TightIsFixed(Trim(s, cut), cut);
  }
}
