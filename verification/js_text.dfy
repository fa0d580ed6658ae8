/**
 * Character classes and string operations of ECMAScript that the sign-in
 * front-end relies on. A `char` is a Unicode scalar value, where a
 * JavaScript string holds UTF-16 code units: the two agree on every
 * character of the Basic Multilingual Plane other than a lone surrogate.
 */
module JsText {

  /** LineTerminator (section 12.3 of ECMA-262): the characters `.` does not match. */
  predicate IsLineTerminator(c: char) {
    c == '\n' || c == '\r' || c == '\U{2028}' || c == '\U{2029}'
  }

  /**
   * WhiteSpace or LineTerminator (sections 12.2 and 12.3 of ECMA-262): the
   * characters matched by the regular-expression class `\s` and removed by
   * `String.prototype.trim`. The WhiteSpace part is TAB, VT, FF, ZWNBSP and
   * the Unicode category Zs.
   */
  predicate IsJsSpace(c: char) {
    || IsLineTerminator(c)
    || c == '\t' || c == '\U{000B}' || c == '\U{000C}' || c == '\U{FEFF}'
    || c == ' ' || c == '\U{00A0}' || c == '\U{1680}'
    || ('\U{2000}' <= c <= '\U{200A}')
    || c == '\U{202F}' || c == '\U{205F}' || c == '\U{3000}'
  }

  predicate IsAsciiLower(c: char) { 'a' <= c <= 'z' }

  predicate IsAsciiUpper(c: char) { 'A' <= c <= 'Z' }

  /** The class `\d`. */
  predicate IsAsciiDigit(c: char) { '0' <= c <= '9' }

  /** Every character of `s` is whitespace. */
  predicate AllSpace(s: string) {
    forall k | 0 <= k < |s| :: IsJsSpace(s[k])
  }

  /** `r` neither starts nor ends with whitespace. */
  predicate Unpadded(r: string) {
    r == [] || (!IsJsSpace(r[0]) && !IsJsSpace(r[|r| - 1]))
  }

  /** `r` sits at offset `a` of `s` and everything of `s` around it is whitespace. */
  predicate Surrounds(s: string, r: string, a: nat) {
    && a + |r| <= |s|
    && (forall k | 0 <= k < |r| :: s[a + k] == r[k])
    && (forall k | 0 <= k < a :: IsJsSpace(s[k]))
    && (forall k | a + |r| <= k < |s| :: IsJsSpace(s[k]))
  }

  /** The first index at or after `i` that does not hold whitespace (or `|s|`). */
  function SkipSpace(s: string, i: nat): (j: nat)
    requires i <= |s|
    ensures i <= j <= |s|
    ensures forall k | i <= k < j :: IsJsSpace(s[k])
    ensures j < |s| ==> !IsJsSpace(s[j])
    decreases |s| - i
  {
    if i < |s| && IsJsSpace(s[i]) then SkipSpace(s, i + 1) else i
  }

  /** The end of `s[lo..hi]` once its trailing whitespace is dropped. */
  function SkipSpaceBack(s: string, lo: nat, hi: nat): (j: nat)
    requires lo <= hi <= |s|
    ensures lo <= j <= hi
    ensures forall k | j <= k < hi :: IsJsSpace(s[k])
    ensures lo < j ==> !IsJsSpace(s[j - 1])
  {
    if lo < hi && IsJsSpace(s[hi - 1]) then SkipSpaceBack(s, lo, hi - 1) else hi
  }

  /**
   * `String.prototype.trim`: the unique unpadded infix of `s` whose
   * surroundings are all whitespace.
   */
  function Trim(s: string): (r: string)
    ensures Unpadded(r)
    ensures exists a: nat :: Surrounds(s, r, a)
    ensures r == [] <==> AllSpace(s)
  {
    var a := SkipSpace(s, 0);
    var b := SkipSpaceBack(s, a, |s|);
    var r := s[a..b];
    assert Surrounds(s, r, a);
    r
  }

  /** Two unpadded, non-empty surrounded infixes of `s` start at the same offset. */
  lemma SameStart(s: string, r: string, a: nat, t: string, b: nat)
    requires Surrounds(s, r, a) && Surrounds(s, t, b)
    requires r != [] && t != [] && Unpadded(r) && Unpadded(t)
    ensures a == b
  {
    assert s[a + 0] == r[0] && s[b + 0] == t[0];
  }

  /** Two unpadded, non-empty surrounded infixes of `s` end at the same offset. */
  lemma SameEnd(s: string, r: string, a: nat, t: string, b: nat)
    requires Surrounds(s, r, a) && Surrounds(s, t, b)
    requires r != [] && t != [] && Unpadded(r) && Unpadded(t)
    ensures a + |r| == b + |t|
  {
    assert s[a + (|r| - 1)] == r[|r| - 1] && s[b + (|t| - 1)] == t[|t| - 1];
  }

  /** Trimming is determined by its characterisation: any unpadded surrounded infix is the trim. */
  lemma TrimUnique(s: string, r: string, a: nat)
    requires Unpadded(r) && Surrounds(s, r, a)
    ensures Trim(s) == r
  {
    var t := Trim(s);
    var b: nat :| Surrounds(s, t, b);
    if r == [] {
      assert AllSpace(s);
    } else if t != [] {
      SameStart(s, r, a, t, b);
      SameEnd(s, r, a, t, b);
      assert forall k | 0 <= k < |r| :: r[k] == s[a + k] == t[k];
    }
  }

  /** Whitespace padding on either side does not change the trimmed value. */
  lemma TrimIgnoresPadding(pre: string, s: string, post: string)
    requires AllSpace(pre) && AllSpace(post)
    ensures Trim(pre + s + post) == Trim(s)
  {
    var t := Trim(s);
    var a: nat :| Surrounds(s, t, a);
    PaddedSurrounds(pre, s, post, t, a);
    TrimUnique(pre + s + post, t, |pre| + a);
  }

  lemma PaddedSurrounds(pre: string, s: string, post: string, t: string, a: nat)
    requires AllSpace(pre) && AllSpace(post) && Surrounds(s, t, a)
    ensures Surrounds(pre + s + post, t, |pre| + a)
  {
    var w := pre + s + post;
    forall k | 0 <= k < |w| ensures w[k] == (if k < |pre| then pre[k] else if k < |pre| + |s| then s[k - |pre|] else post[k - |pre| - |s|]) {
    }
  }
}
