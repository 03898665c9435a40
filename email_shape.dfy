/**
 * The email shape check of the waitlist form: the regular expression
 *   ^[a-zA-Z0-9._%+-]+@[a-zA-Z0-9.-]+\.[a-zA-Z]{2,}$
 * (JavaScript, no flags, so `$` means end of input and every class is ASCII).
 *
 * `MatchesPattern` is what the expression accepts, written as the split of the
 * string into its four pieces. `IsValidEmail` is a computable test that looks
 * only at the first '@' and at the last '.' after it; `ValidEmailIffPattern`
 * shows that the two agree on every string.
 */
module EmailShape {
  import opened Wrappers

  predicate IsAsciiLetter(c: char) { 'a' <= c <= 'z' || 'A' <= c <= 'Z' }

  predicate IsDigit(c: char) { '0' <= c <= '9' }

  /** `[a-zA-Z0-9._%+-]` */
  predicate IsLocalChar(c: char) {
    IsAsciiLetter(c) || IsDigit(c) || c == '.' || c == '_' || c == '%' || c == '+' || c == '-'
  }

  /** `[a-zA-Z0-9.-]` */
  predicate IsDomainChar(c: char) {
    IsAsciiLetter(c) || IsDigit(c) || c == '.' || c == '-'
  }

  predicate AllLocal(s: string) { forall k :: 0 <= k < |s| ==> IsLocalChar(s[k]) }

  predicate AllDomain(s: string) { forall k :: 0 <= k < |s| ==> IsDomainChar(s[k]) }

  predicate AllLetters(s: string) { forall k :: 0 <= k < |s| ==> IsAsciiLetter(s[k]) }

  /**
   * The expression matches `s` with the '@' at index `at` and the escaped
   * '.' at index `dot`: a non-empty local part, a non-empty domain part,
   * and a top-level part of at least two letters running to the end.
   */
  ghost predicate PatternSplit(s: string, at: int, dot: int) {
    1 <= at && at + 2 <= dot && dot + 3 <= |s| &&
    s[at] == '@' && s[dot] == '.' &&
    AllLocal(s[..at]) && AllDomain(s[at + 1..dot]) && AllLetters(s[dot + 1..])
  }

  /** The language of the regular expression. */
  ghost predicate MatchesPattern(s: string) {
    exists at, dot :: PatternSplit(s, at, dot)
  }

  /** Index of the first occurrence of `c` in `s`. */
  function IndexOf(s: string, c: char): (r: Option<nat>)
    ensures r.None? <==> c !in s
    ensures r.Some? ==> r.value < |s| && s[r.value] == c && c !in s[..r.value]
  {
    if |s| == 0 then None
    else if s[0] == c then Some(0)
    else match IndexOf(s[1..], c)
      case None => None
      case Some(k) => assert s[1..][..k] == s[1..k + 1]; Some(k + 1)
  }

  /** Index of the last occurrence of `c` in `s`. */
  function LastIndexOf(s: string, c: char): (r: Option<nat>)
    ensures r.None? <==> c !in s
    ensures r.Some? ==> r.value < |s| && s[r.value] == c && c !in s[r.value + 1..]
  {
    if |s| == 0 then None
    else if s[|s| - 1] == c then Some(|s| - 1)
    else
      var r := LastIndexOf(s[..|s| - 1], c);
      assert r.Some? ==> s[..|s| - 1][r.value + 1..] + [s[|s| - 1]] == s[r.value + 1..];
      r
  }

  /**
   * The shape check as the component needs it at run time: cut at the first
   * '@'; the local part must be non-empty local characters, the rest domain
   * characters with a last '.' that is not its first character and is
   * followed by at least two letters.
   */
  function IsValidEmail(s: string): bool {
    match IndexOf(s, '@')
    case None => false
    case Some(at) =>
      var local, domain := s[..at], s[at + 1..];
      |local| > 0 && AllLocal(local) && AllDomain(domain) &&
      match LastIndexOf(domain, '.')
      case None => false
      case Some(dot) => 0 < dot && dot + 3 <= |domain| && AllLetters(domain[dot + 1..])
  }

  /** The run-time test accepts exactly the strings the regular expression matches. */
  lemma ValidEmailIffPattern(s: string)
    ensures IsValidEmail(s) <==> MatchesPattern(s)
  {
    if IsValidEmail(s) {
      var at := IndexOf(s, '@').value;
      var domain := s[at + 1..];
      var d := LastIndexOf(domain, '.').value;
      assert s[at + 1..at + 1 + d] == domain[..d];
      assert s[at + 1 + d + 1..] == domain[d + 1..];
      assert PatternSplit(s, at, at + 1 + d);
    }
    if MatchesPattern(s) {
      var at, dot :| PatternSplit(s, at, dot);
      PatternForcesShape(s, at, dot);
    }
  }

  /** A match of the expression fixes the '@' at the first '@' and the '.' at the last '.'. */
  lemma PatternForcesShape(s: string, at: int, dot: int)
    requires PatternSplit(s, at, dot)
    ensures IndexOf(s, '@') == Some(at)
    ensures LastIndexOf(s[at + 1..], '.') == Some(dot - at - 1)
    ensures IsValidEmail(s)
  {
    assert '@' !in s[..at] by {
      forall k | 0 <= k < at ensures s[..at][k] != '@' { assert IsLocalChar(s[..at][k]); }
    }
    var domain := s[at + 1..];
    var d := dot - at - 1;
    var tld := s[dot + 1..];
    assert domain[d + 1..] == tld;
    assert '.' !in tld by {
      forall k | 0 <= k < |tld| ensures tld[k] != '.' { assert IsAsciiLetter(tld[k]); }
    }
    forall k | 0 <= k < |domain| ensures IsDomainChar(domain[k]) {
      if k < d { assert domain[k] == s[at + 1..dot][k]; }
      else if k > d { assert domain[k] == s[dot + 1..][k - d - 1]; }
    }
  }

  /** A string the check accepts holds exactly one '@'. */
  lemma ValidEmailHasOneAt(s: string)
    requires IsValidEmail(s)
    ensures multiset(s)['@'] == 1
  {
    var at := IndexOf(s, '@').value;
    var domain := s[at + 1..];
    assert '@' !in domain by {
      forall k | 0 <= k < |domain| ensures domain[k] != '@' { assert IsDomainChar(domain[k]); }
    }
    assert s == s[..at] + [s[at]] + domain;
    assert multiset(s) == multiset(s[..at]) + multiset([s[at]]) + multiset(domain);
  }

  /** An empty input never passes the check, so the empty-field test only changes the message. */
  lemma EmptyIsNotValid()
    ensures !IsValidEmail("")
    ensures !MatchesPattern("")
  {
    ValidEmailIffPattern("");
  }

  /** A string without '@' is rejected. */
  lemma NoAtIsNotValid(s: string)
    requires '@' !in s
    ensures !MatchesPattern(s)
  {
    ValidEmailIffPattern(s);
  }

  /**
   * Two sample inputs, one accepted and one rejected, and one that
   * shows the domain part may be made of dots and hyphens only.
   */
  lemma Examples()
    ensures MatchesPattern("student@college.edu")
    ensures !MatchesPattern("not-an-email")
    ensures MatchesPattern("a@-.co")
  {
    var s := "student@college.edu";
    assert s[..7] == "student" && s[8..15] == "college" && s[16..] == "edu";
    assert PatternSplit(s, 7, 15);
    NoAtIsNotValid("not-an-email");
    var t := "a@-.co";
    assert t[..1] == "a" && t[2..3] == "-" && t[4..] == "co";
    assert PatternSplit(t, 1, 3);
  }
}
