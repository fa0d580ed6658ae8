/**
 * The two input validators of `src/main.ts`. Each regular expression is
 * first read literally (a split of the input into the pieces the pattern
 * names) and then characterised declaratively; a lemma proves the two agree.
 */
module Validation {
  import opened JsText

  /** The class `[^\s@]`. */
  predicate EmailClassChar(c: char) {
    !IsJsSpace(c) && c != '@'
  }

  /** `[^\s@]+`: one or more characters of that class. */
  predicate EmailClassRun(t: string) {
    |t| > 0 && forall k | 0 <= k < |t| :: EmailClassChar(t[k])
  }

  /**
   * `validateEmail`: the whole input matches `^[^\s@]+@[^\s@]+\.[^\s@]+$`,
   * that is, it splits at an '@' (index i) and a later '.' (index j) into
   * three non-empty runs of `[^\s@]`.
   */
  predicate ValidateEmail(s: string) {
    exists i, j | 0 <= i < j < |s| ::
      && s[i] == '@' && s[j] == '.'
      && EmailClassRun(s[..i]) && EmailClassRun(s[i + 1..j]) && EmailClassRun(s[j + 1..])
  }

  /** `d` has a '.' that is neither its first nor its last character. */
  predicate HasInnerDot(d: string) {
    exists j | 0 < j < |d| - 1 :: d[j] == '.'
  }

  /**
   * The shape of an accepted address: no whitespace, exactly one '@', a
   * non-empty part before it, and an inner '.' in the part after it.
   */
  predicate WellFormedEmail(s: string) {
    && (forall k | 0 <= k < |s| :: !IsJsSpace(s[k]))
    && multiset(s)['@'] == 1
    && exists i | 0 < i < |s| :: s[i] == '@' && HasInnerDot(s[i + 1..])
  }

  /** With an '@' at index i, it is the only one exactly when the '@' count is one. */
  lemma SingleAt(s: string, i: int)
    requires 0 <= i < |s| && s[i] == '@'
    ensures multiset(s)['@'] == 1 <==> forall k | 0 <= k < |s| && k != i :: s[k] != '@'
  {
    var pre, post := s[..i], s[i + 1..];
    assert s == pre + [s[i]] + post;
    assert multiset(s)['@'] == multiset(pre)['@'] + 1 + multiset(post)['@'];
    if forall k | 0 <= k < |s| && k != i :: s[k] != '@' {
      assert '@' !in pre by {
        forall k | 0 <= k < |pre| ensures pre[k] != '@' { assert pre[k] == s[k]; }
      }
      assert '@' !in post by {
        forall k | 0 <= k < |post| ensures post[k] != '@' { assert post[k] == s[i + 1 + k]; }
      }
    }
    if multiset(s)['@'] == 1 {
      assert '@' !in multiset(pre) && '@' !in multiset(post);
      forall k | 0 <= k < |s| && k != i ensures s[k] != '@' {
        if k < i { assert s[k] == pre[k]; assert s[k] in pre; }
        else { assert s[k] == post[k - i - 1]; assert s[k] in post; }
      }
    }
  }

  lemma ValidateEmailIsWellFormed(s: string, i: int, j: int)
    requires 0 <= i < j < |s| && s[i] == '@' && s[j] == '.'
    requires EmailClassRun(s[..i]) && EmailClassRun(s[i + 1..j]) && EmailClassRun(s[j + 1..])
    ensures WellFormedEmail(s)
  {
    forall k | 0 <= k < |s| ensures !IsJsSpace(s[k]) && (k != i ==> s[k] != '@') {
      if k < i { assert s[k] == s[..i][k]; }
      else if i < k < j { assert s[k] == s[i + 1..j][k - i - 1]; }
      else if j < k { assert s[k] == s[j + 1..][k - j - 1]; }
    }
    SingleAt(s, i);
    var d := s[i + 1..];
    assert d[j - i - 1] == s[j];
    assert HasInnerDot(d);
  }

  lemma WellFormedIsValidateEmail(s: string, i: int)
    requires WellFormedEmail(s) && 0 < i < |s| && s[i] == '@' && HasInnerDot(s[i + 1..])
    ensures ValidateEmail(s)
  {
    SingleAt(s, i);
    var d := s[i + 1..];
    var jj :| 0 < jj < |d| - 1 && d[jj] == '.';
    var j := i + 1 + jj;
    assert s[j] == d[jj];
    forall k | 0 <= k < |s| && k != i ensures EmailClassChar(s[k]) { }
    assert EmailClassRun(s[..i]) by {
      forall k | 0 <= k < i ensures EmailClassChar(s[..i][k]) { assert s[..i][k] == s[k]; }
    }
    var mid, tld := s[i + 1..j], s[j + 1..];
    assert EmailClassRun(mid) by {
      forall k | 0 <= k < |mid| ensures EmailClassChar(mid[k]) { assert mid[k] == s[i + 1 + k]; }
    }
    assert EmailClassRun(tld) by {
      forall k | 0 <= k < |tld| ensures EmailClassChar(tld[k]) { assert tld[k] == s[j + 1 + k]; }
    }
  }

  /** The email regular expression accepts exactly the well-formed addresses. */
  lemma ValidateEmailCharacterisation(s: string)
    ensures ValidateEmail(s) <==> WellFormedEmail(s)
  {
    if ValidateEmail(s) {
      var i, j :| 0 <= i < j < |s| && s[i] == '@' && s[j] == '.'
        && EmailClassRun(s[..i]) && EmailClassRun(s[i + 1..j]) && EmailClassRun(s[j + 1..]);
      ValidateEmailIsWellFormed(s, i, j);
    }
    if WellFormedEmail(s) {
      var i :| 0 < i < |s| && s[i] == '@' && HasInnerDot(s[i + 1..]);
      WellFormedIsValidateEmail(s, i);
    }
  }

  /** `(?=.*X)`: some character of class X is preceded only by non-line-terminators. */
  predicate LookaheadFinds(p: string, cls: char -> bool) {
    exists j | 0 <= j < |p| :: cls(p[j]) && forall k | 0 <= k < j :: !IsLineTerminator(p[k])
  }

  /**
   * `validatePassword`: the whole input matches
   * `^(?=.*[a-z])(?=.*[A-Z])(?=.*\d).{8,}$`, read as three lookaheads at the
   * start followed by at least eight `.` characters up to the end.
   */
  predicate ValidatePassword(p: string) {
    && LookaheadFinds(p, IsAsciiLower)
    && LookaheadFinds(p, IsAsciiUpper)
    && LookaheadFinds(p, IsAsciiDigit)
    && |p| >= 8
    && forall k | 0 <= k < |p| :: !IsLineTerminator(p[k])
  }

  predicate Contains(p: string, cls: char -> bool) {
    exists k | 0 <= k < |p| :: cls(p[k])
  }

  /** Password strength as the comment on `validatePassword` states it, plus the `.` restriction. */
  predicate StrongPassword(p: string) {
    && |p| >= 8
    && Contains(p, IsAsciiLower) && Contains(p, IsAsciiUpper) && Contains(p, IsAsciiDigit)
    && forall k | 0 <= k < |p| :: !IsLineTerminator(p[k])
  }

  /** The password regular expression accepts exactly the strong passwords. */
  lemma ValidatePasswordCharacterisation(p: string)
    ensures ValidatePassword(p) <==> StrongPassword(p)
  {
  }

  /**
   * A character outside the Basic Multilingual Plane is one `char` here but
   * two UTF-16 code units in JavaScript: this 6-character password is too
   * short for the model, while the source's non-`u` pattern counts 8 units.
   */
  lemma AstralCharactersCountOnce()
    ensures |"Abc1\U{1F600}\U{1F600}"| == 6
    ensures !StrongPassword("Abc1\U{1F600}\U{1F600}")
  {
  }
}
