/**
 * The user-parameter validator (validation/user.go): a blank-name check, a
 * blank-email check, then a match of the untrimmed email against the pattern
 * `^[a-zA-Z0-9._%+-]+@[a-zA-Z0-9.-]+\.[a-zA-Z]{2,}$`.
 */
module UserValidation {
  import opened Wrappers
  import opened Text

  datatype UserParamError = NameEmpty | EmailEmpty | InvalidEmailFormat

  predicate IsAsciiLetter(c: char) { 'a' <= c <= 'z' || 'A' <= c <= 'Z' }
  predicate IsAsciiDigit(c: char) { '0' <= c <= '9' }

  /** The class `[a-zA-Z0-9._%+-]` of the local part. */
  predicate IsLocalChar(c: char) {
    IsAsciiLetter(c) || IsAsciiDigit(c) || c == '.' || c == '_' || c == '%' || c == '+' || c == '-'
  }

  /** The class `[a-zA-Z0-9.-]` of the domain. */
  predicate IsDomainChar(c: char) {
    IsAsciiLetter(c) || IsAsciiDigit(c) || c == '.' || c == '-'
  }

  predicate AllLocal(s: string) { forall i :: 0 <= i < |s| ==> IsLocalChar(s[i]) }
  predicate AllDomain(s: string) { forall i :: 0 <= i < |s| ==> IsDomainChar(s[i]) }
  predicate AllLetters(s: string) { forall i :: 0 <= i < |s| ==> IsAsciiLetter(s[i]) }

  /**
   * `s` splits as local part `s[..at]`, the `@` at `at`, domain
   * `s[at+1..dot]`, the `.` at `dot` and top-level part `s[dot+1..]`, each
   * part non-empty over its class and the top-level part at least two letters.
   */
  predicate EmailSplit(s: string, at: int, dot: int) {
    0 < at && at + 1 < dot && dot + 2 < |s| &&
    s[at] == '@' && s[dot] == '.' &&
    AllLocal(s[..at]) && AllDomain(s[at + 1..dot]) && AllLetters(s[dot + 1..])
  }

  /** The pattern, read directly: the whole string matches when some split exists. */
  ghost predicate EmailPattern(s: string) {
    exists at, dot :: EmailSplit(s, at, dot)
  }

  /** The first index of `c` in `s`, or `|s|` when there is none. */
  function FirstIndex(s: string, c: char): (i: nat)
    ensures i <= |s|
    ensures i < |s| ==> s[i] == c
    ensures forall k :: 0 <= k < i ==> s[k] != c
  {
    if s == [] then 0
    else if s[0] == c then 0
    else 1 + FirstIndex(s[1..], c)
  }

  /** The last index of `c` in `s`, or -1 when there is none. */
  function LastIndex(s: string, c: char): (i: int)
    ensures -1 <= i < |s|
    ensures i >= 0 ==> s[i] == c
    ensures forall k :: i < k < |s| ==> s[k] != c
  {
    if s == [] then -1
    else if s[|s| - 1] == c then |s| - 1
    else LastIndex(s[..|s| - 1], c)
  }

  /**
   * The matcher: since `@` belongs to no class of the pattern, only the first
   * `@` can separate the local part; since the top-level part is letters
   * only, only the last `.` can precede it. So one candidate split decides.
   */
  predicate MatchesEmail(s: string) {
    EmailSplit(s, FirstIndex(s, '@'), LastIndex(s, '.'))
  }

  /** The matcher accepts exactly the strings the pattern describes. */
  lemma MatchesEmailIff(s: string)
    ensures MatchesEmail(s) <==> EmailPattern(s)
  {
    if EmailPattern(s) {
      var at, dot :| EmailSplit(s, at, dot);
      var first := FirstIndex(s, '@');
      var last := LastIndex(s, '.');
      forall k | 0 <= k < at ensures s[k] != '@' {
        assert s[..at][k] == s[k];
      }
      forall k | dot < k < |s| ensures s[k] != '.' {
        assert s[dot + 1..][k - dot - 1] == s[k];
      }
      assert first == at && last == dot;
    }
  }

  /**
   * `ValidateUserParams`: a blank name is reported first, then a blank
   * email, then an email (untrimmed) that does not match the pattern.
   */
  function ValidateUserParams(name: string, email: string): (r: Option<UserParamError>)
    ensures r.None? <==> !AllSpace(name) && EmailPattern(email)
    ensures AllSpace(name) ==> r == Some(NameEmpty)
    ensures !AllSpace(name) && AllSpace(email) ==> r == Some(EmailEmpty)
    ensures !AllSpace(name) && !AllSpace(email) ==>
      (r == Some(InvalidEmailFormat) <==> !EmailPattern(email))
  {
    MatchesEmailIff(email);
    if TrimSpace(name) == "" then Some(NameEmpty)
    else if TrimSpace(email) == "" then Some(EmailEmpty)
    else if !MatchesEmail(email) then Some(InvalidEmailFormat)
    else None
  }

  /** A string the pattern accepts neither starts nor ends with white space. */
  lemma PatternEndsNotSpace(s: string)
    ensures EmailPattern(s) ==> |s| > 0 && !IsSpace(s[0]) && !IsSpace(s[|s| - 1])
  {
    if EmailPattern(s) {
      var at, dot :| EmailSplit(s, at, dot);
      assert s[..at][0] == s[0];
      assert s[dot + 1..][|s| - dot - 2] == s[|s| - 1];
    }
  }

  /**
   * The pattern is matched against the untrimmed email: white space at
   * either end makes an otherwise well-formed address invalid.
   */
  lemma SurroundingSpaceRejected(name: string, email: string)
    requires !AllSpace(name) && !AllSpace(email)
    requires IsSpace(email[0]) || IsSpace(email[|email| - 1])
    ensures ValidateUserParams(name, email) == Some(InvalidEmailFormat)
  {
    PatternEndsNotSpace(email);
  }

  /**
   * A string the pattern accepts holds exactly one `@`, preceded by a
   * non-empty local part over `[a-zA-Z0-9._%+-]`, and ends in a `.` followed
   * by at least two ASCII letters.
   */
  lemma PatternShape(email: string)
    requires EmailPattern(email)
    ensures multiset(email)['@'] == 1
    ensures var at := FirstIndex(email, '@'); 0 < at < |email| && AllLocal(email[..at])
    ensures var dot := LastIndex(email, '.');
      0 <= dot && dot + 2 < |email| && AllLetters(email[dot + 1..])
  {
    MatchesEmailIff(email);
    SplitHasOneAt(email, FirstIndex(email, '@'), LastIndex(email, '.'));
  }

  /** Every email `ValidateUserParams` accepts has the shape the pattern promises. */
  lemma AcceptedEmailShape(name: string, email: string)
    ensures ValidateUserParams(name, email).None? ==> EmailPattern(email) && multiset(email)['@'] == 1
  {
    if ValidateUserParams(name, email).None? {
      PatternShape(email);
    }
  }

  /** `@` belongs to none of the pattern's classes, so a split string holds only the `@` at the split. */
  lemma SplitHasOneAt(s: string, at: int, dot: int)
    requires EmailSplit(s, at, dot)
    ensures multiset(s)['@'] == 1
  {
    var local, rest := s[..at], s[at + 1..];
    forall k | 0 <= k < |local| ensures local[k] != '@' {
      assert IsLocalChar(local[k]);
    }
    forall k | 0 <= k < |rest| ensures rest[k] != '@' {
      var j := at + 1 + k;
      assert rest[k] == s[j];
      if j < dot {
        assert s[at + 1..dot][j - at - 1] == s[j];
      } else if j > dot {
        assert s[dot + 1..][j - dot - 1] == s[j];
      }
    }
    assert s == local + [s[at]] + rest;
    assert multiset(local)['@'] == 0 && multiset(rest)['@'] == 0;
  }

  /** A plain address is accepted; the same address with a leading space is rejected. */
  lemma UserParamsExamples()
    ensures ValidateUserParams("A", "a@b.com").None?
    ensures ValidateUserParams("A", " a@b.com") == Some(InvalidEmailFormat)
  {
    assert !AllSpace("A") by { assert !IsSpace("A"[0]); }
    assert EmailSplit("a@b.com", 1, 3);
    assert !AllSpace(" a@b.com") by { assert !IsSpace(" a@b.com"[1]); }
    SurroundingSpaceRejected("A", " a@b.com");
  }
}
