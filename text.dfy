/**
 * Trimming white space from both ends of a string, as Go's
 * `strings.TrimSpace` does, over the white-space set of `unicode.IsSpace`.
 */
module Text {
  /** Go's `unicode.IsSpace`: the Latin-1 spaces and the Unicode White_Space characters above them. */
  predicate IsSpace(c: char) {
    c == '\t' || c == '\n' || c == '\U{000B}' || c == '\U{000C}' || c == '\r' || c == ' ' ||
    c == '\U{0085}' || c == '\U{00A0}' || c == '\U{1680}' ||
    (0x2000 <= c as int <= 0x200A) ||
    c == '\U{2028}' || c == '\U{2029}' || c == '\U{202F}' || c == '\U{205F}' || c == '\U{3000}'
  }

  predicate AllSpace(s: string) {
    forall i :: 0 <= i < |s| ==> IsSpace(s[i])
  }

  /** Drops the leading white space: what is dropped is all space, and what is left does not start with it. */
  function TrimLeft(s: string): (r: string)
    ensures |r| <= |s| && r == s[|s| - |r|..]
    ensures AllSpace(s[..|s| - |r|])
    ensures r == [] || !IsSpace(r[0])
  {
    if s != [] && IsSpace(s[0]) then TrimLeft(s[1..]) else s
  }

  /** Drops the trailing white space: what is dropped is all space, and what is left does not end with it. */
  function TrimRight(s: string): (r: string)
    ensures |r| <= |s| && r == s[..|r|]
    ensures AllSpace(s[|r|..])
    ensures r == [] || !IsSpace(r[|r| - 1])
  {
    if s != [] && IsSpace(s[|s| - 1]) then TrimRight(s[..|s| - 1]) else s
  }

  /** `r` is the slice of `s` starting at `k`, and everything outside it is white space. */
  predicate StripsTo(s: string, r: string, k: int) {
    0 <= k && k + |r| <= |s| && r == s[k..k + |r|] &&
    AllSpace(s[..k]) && AllSpace(s[k + |r|..])
  }

  /**
   * `strings.TrimSpace`: the slice of `s` left after dropping white space at
   * both ends. It is empty exactly when `s` is all white space, and otherwise
   * neither starts nor ends with white space.
   */
  function TrimSpace(s: string): (r: string)
    ensures exists k :: StripsTo(s, r, k)
    ensures r == [] <==> AllSpace(s)
    ensures r != [] ==> !IsSpace(r[0]) && !IsSpace(r[|r| - 1])
  {
    TrimBothEnds(s);
    TrimSlice(s);
    TrimRight(TrimLeft(s))
  }

  lemma TrimSlice(s: string)
    ensures StripsTo(s, TrimRight(TrimLeft(s)), |s| - |TrimLeft(s)|)
  {
    var l := TrimLeft(s);
    var r := TrimRight(l);
    var k := |s| - |l|;
    assert r == s[k..k + |r|];
    assert s[k + |r|..] == l[|r|..];
  }

  lemma TrimBothEnds(s: string)
    ensures TrimRight(TrimLeft(s)) == [] <==> AllSpace(s)
    ensures TrimRight(TrimLeft(s)) != [] ==> !IsSpace(TrimRight(TrimLeft(s))[0])
  {
    var left := TrimLeft(s);
    var r := TrimRight(left);
    var k := |s| - |left|;
    if r == [] {
      assert AllSpace(left) by {
        assert left[|r|..] == left;
      }
      assert k == |s| && s[..k] == s;
    } else {
      assert r[0] == left[0] == s[k];
    }
  }
}
