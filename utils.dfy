/**
 * src/utils/utils.ts: the e-mail syntax check and the six-digit one-time code.
 */
module Utils {
  import opened Wrappers
  import Tables

  // ---------------------------------------------------------------------------
  // isEmailValid: /^[^\s@]+@[^\s@]+\.[^\s@]+$/
  // ---------------------------------------------------------------------------

  /** JavaScript's `\s`: the ECMAScript white-space and line-terminator code points. */
  predicate IsWhitespace(c: char) {
    || c == ' ' || c == '\t' || c == '\n' || c == '\r' || c == '\U{000B}' || c == '\U{000C}'
    || c == '\U{00A0}' || c == '\U{1680}' || ('\U{2000}' <= c <= '\U{200A}')
    || c == '\U{2028}' || c == '\U{2029}' || c == '\U{202F}' || c == '\U{205F}'
    || c == '\U{3000}' || c == '\U{FEFF}'
  }

  /** Every character belongs to the class `[^\s@]`. */
  predicate IsPlain(s: string) {
    forall i :: 0 <= i < |s| ==> !IsWhitespace(s[i]) && s[i] != '@'
  }

  /** `s` has a `.` that is neither its first nor its last character. */
  predicate HasInnerDot(s: string) {
    exists i :: 0 < i < |s| - 1 && s[i] == '.'
  }

  predicate IsAt(c: char) { c == '@' }

  /** `isEmailValid(email)`, decided by splitting at the first `@`. */
  predicate IsEmailValid(email: string) {
    match Tables.FirstIndex(email, IsAt)
    case None => false
    case Some(at) =>
      && 0 < at
      && IsPlain(email[..at])
      && IsPlain(email[at + 1..])
      && HasInnerDot(email[at + 1..])
  }

  /**
   * The regular expression read as a pattern: a non-empty `[^\s@]` run, `@`,
   * a non-empty run, `.`, a non-empty run, and nothing else.
   */
  ghost predicate MatchesEmailPattern(s: string) {
    exists at, dot :: 0 < at && at + 1 < dot < |s| - 1 && s[at] == '@' && s[dot] == '.'
      && IsPlain(s[..at]) && IsPlain(s[at + 1..dot]) && IsPlain(s[dot + 1..])
  }

  lemma IsEmailValidMatchesPattern(s: string)
    ensures IsEmailValid(s) <==> MatchesEmailPattern(s)
  {
    if IsEmailValid(s) {
      ValidEmailMatchesPattern(s);
    }
    if MatchesEmailPattern(s) {
      PatternIsValidEmail(s);
    }
  }

  lemma ValidEmailMatchesPattern(s: string)
    requires IsEmailValid(s)
    ensures MatchesEmailPattern(s)
  {
    var at := Tables.FirstIndex(s, IsAt).value;
    var r := s[at + 1..];
    var i :| 0 < i < |r| - 1 && r[i] == '.';
    var dot := at + 1 + i;
    assert s[at + 1..dot] == r[..i];
    assert s[dot + 1..] == r[i + 1..];
    assert s[dot] == '.';
  }

  lemma PatternIsValidEmail(s: string)
    requires MatchesEmailPattern(s)
    ensures IsEmailValid(s)
  {
    var at, dot :| 0 < at && at + 1 < dot < |s| - 1 && s[at] == '@' && s[dot] == '.'
      && IsPlain(s[..at]) && IsPlain(s[at + 1..dot]) && IsPlain(s[dot + 1..]);
    SplitIsValidEmail(s, at, dot);
  }

  lemma SplitIsValidEmail(s: string, at: nat, dot: nat)
    requires 0 < at && at + 1 < dot < |s| - 1 && s[at] == '@' && s[dot] == '.'
    requires IsPlain(s[..at]) && IsPlain(s[at + 1..dot]) && IsPlain(s[dot + 1..])
    ensures IsEmailValid(s)
  {
    FirstAtIsAt(s, at);
    var r := s[at + 1..];
    assert r == s[at + 1..dot] + "." + s[dot + 1..];
    PlainAroundDot(r, s[at + 1..dot], s[dot + 1..]);
    assert r[dot - at - 1] == '.';
    assert HasInnerDot(r);
  }

  /** An `@` preceded by a `[^\\s@]` run is the first `@`. */
  lemma FirstAtIsAt(s: string, at: nat)
    requires at < |s| && s[at] == '@' && IsPlain(s[..at])
    ensures Tables.FirstIndex(s, IsAt) == Some(at)
  {
    var first := Tables.FirstIndex(s, IsAt);
    assert IsAt(s[at]);
  }

  /** Two `[^\s@]` runs joined by a `.` form one run. */
  lemma PlainAroundDot(r: string, a: string, b: string)
    requires r == a + "." + b && IsPlain(a) && IsPlain(b)
    ensures IsPlain(r)
  {
    forall k | 0 <= k < |r|
      ensures !IsWhitespace(r[k]) && r[k] != '@'
    {
      if k < |a| {
        assert r[k] == a[k];
      } else if k > |a| {
        assert r[k] == b[k - |a| - 1];
      }
    }
  }

  /** Every accepted address contains exactly one `@`. */
  lemma ValidEmailHasOneAt(s: string)
    requires IsEmailValid(s)
    ensures multiset(s)['@'] == 1
  {
    var at := Tables.FirstIndex(s, IsAt).value;
    assert s == s[..at] + [s[at]] + s[at + 1..];
    assert '@' !in s[..at];
    assert '@' !in s[at + 1..];
    assert multiset(s) == multiset(s[..at]) + multiset{'@'} + multiset(s[at + 1..]);
  }

  /** A white-space character anywhere makes the address invalid. */
  lemma WhitespaceRejected(s: string, i: nat)
    requires i < |s| && IsWhitespace(s[i])
    ensures !IsEmailValid(s)
  {
  }

  // ---------------------------------------------------------------------------
  // generateOTP: crypto.randomInt(100000, 999999).toString()
  // ---------------------------------------------------------------------------

  /** The bounds handed to `crypto.randomInt`; the upper one is exclusive. */
  const OtpMin := 100000
  const OtpMaxExclusive := 999999

  predicate IsDigits(s: string) {
    forall i :: 0 <= i < |s| ==> '0' <= s[i] <= '9'
  }

  function DigitChar(d: nat): (c: char)
    requires d < 10
    ensures '0' <= c <= '9'
  {
    ('0' as int + d) as char
  }

  function DigitValue(c: char): (d: nat)
    requires '0' <= c <= '9'
    ensures d < 10 && DigitChar(d) == c
  {
    c as int - '0' as int
  }

  /** `Number.prototype.toString()` of a non-negative integer: its decimal digits, no leading zero. */
  function DecimalString(n: nat): (r: string)
    ensures 1 <= |r| && IsDigits(r)
    ensures r[0] == '0' <==> n == 0
  {
    if n < 10 then [DigitChar(n)] else DecimalString(n / 10) + [DigitChar(n % 10)]
  }

  /** Reads decimal digits back as a number: the inverse of `DecimalString`. */
  function ParseDecimal(s: string): nat
    requires IsDigits(s)
  {
    if s == [] then 0 else 10 * ParseDecimal(s[..|s| - 1]) + DigitValue(s[|s| - 1])
  }

  function Pow10(k: nat): (p: nat)
    ensures p >= 1
  {
    if k == 0 then 1 else 10 * Pow10(k - 1)
  }

  lemma {:induction false} DecimalRoundTrip(n: nat)
    ensures ParseDecimal(DecimalString(n)) == n
  {
    var r := DecimalString(n);
    if n >= 10 {
      DecimalRoundTrip(n / 10);
      assert r[..|r| - 1] == DecimalString(n / 10);
    }
  }

  /** A number with `k + 1` decimal digits renders as exactly `k + 1` characters. */
  lemma {:induction false} DecimalLength(n: nat, k: nat)
    requires Pow10(k) <= n < Pow10(k + 1)
    ensures |DecimalString(n)| == k + 1
  {
    if k > 0 {
      assert Pow10(k) == 10 * Pow10(k - 1);
      assert Pow10(k + 1) == 10 * Pow10(k);
      assert Pow10(k - 1) <= n / 10 < Pow10(k);
      DecimalLength(n / 10, k - 1);
    }
  }

  /**
   * `generateOTP()`; `draw` is the value `crypto.randomInt(100000, 999999)`
   * returned, so 999999 itself is never drawn.
   */
  function GenerateOtp(draw: int): (otp: string)
    requires OtpMin <= draw < OtpMaxExclusive
    ensures |otp| == 6 && IsDigits(otp) && otp[0] != '0'
    ensures ParseDecimal(otp) == draw
  {
    assert Pow10(5) == 100000 && Pow10(6) == 1000000;
    DecimalLength(draw, 5);
    DecimalRoundTrip(draw);
    DecimalString(draw)
  }
}
