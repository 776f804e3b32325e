/**
 * Classification of the login identifier (server/index.js, the login
 * handler): an email address when it matches `^[^\s@]+@[^\s@]+\.[^\s@]+$`,
 * otherwise a mobile number when it matches `^[0-9]{10}$`, otherwise invalid.
 */
module Identifier {
  import opened Wrappers

  /** The characters of the ECMAScript `\s` class: WhiteSpace and LineTerminator. */
  predicate IsWhitespace(c: char) {
    || c == '\t' || c == '\n' || c == '\U{000B}' || c == '\U{000C}' || c == '\r'
    || c == ' ' || c == '\U{00A0}' || c == '\U{1680}'
    || ('\U{2000}' <= c <= '\U{200A}')
    || c == '\U{2028}' || c == '\U{2029}' || c == '\U{202F}' || c == '\U{205F}'
    || c == '\U{3000}' || c == '\U{FEFF}'
  }

  /** The class `[^\s@]` of the email pattern. */
  predicate IsAddressChar(c: char) {
    !IsWhitespace(c) && c != '@'
  }

  /**
   * The email pattern, read off the regular expression: the string is
   * `local '@' host '.' tld` with all three parts non-empty runs of
   * `[^\s@]`. Since `.` is itself in `[^\s@]`, this says: exactly one `@`,
   * not first, no whitespace, and a `.` somewhere after the `@` with at least
   * one character between them and at least one character after it.
   */
  predicate IsEmail(s: string) {
    exists at, dot | 0 < at < |s| && 0 < dot < |s| && at + 1 < dot && dot + 1 < |s| ::
      s[at] == '@' && s[dot] == '.' && AddressCharsExcept(s, at)
  }

  /** Every character of `s` except the one at `skip` is in `[^\s@]`. */
  predicate AddressCharsExcept(s: string, skip: int) {
    forall k | 0 <= k < |s| && k != skip :: IsAddressChar(s[k])
  }

  /** The mobile pattern `^[0-9]{10}$`: exactly ten ASCII digits. */
  predicate IsMobile(s: string) {
    |s| == 10 && forall k | 0 <= k < |s| :: '0' <= s[k] <= '9'
  }

  /** The field a login identifier is looked up by. */
  datatype IdField = EmailField | MobileField

  /** No string matches both patterns: a mobile number has no `@`. */
  lemma EmailAndMobileDisjoint(s: string)
    ensures !(IsEmail(s) && IsMobile(s))
  {
  }

  /**
   * The login handler's classification: email first, then mobile, else
   * rejected (`None`, answered with 400 "Invalid identifier format").
   */
  function Classify(s: string): (r: Option<IdField>)
    ensures r == Some(EmailField) <==> IsEmail(s)
    ensures r == Some(MobileField) <==> IsMobile(s)
    ensures r == None <==> !IsEmail(s) && !IsMobile(s)
  {
    EmailAndMobileDisjoint(s);
    if IsEmail(s) then Some(EmailField)
    else if IsMobile(s) then Some(MobileField)
    else None
  }

  /**
   * A single left-to-right pass deciding the email pattern, as a regular
   * expression engine would: it remembers where the `@` was and the first
   * `.` that has at least one character between it and the `@`.
   */
  method MatchEmail(s: string) returns (b: bool)
    ensures b <==> IsEmail(s)
  {
    var at := -1;
    var dot := -1;
    var i := 0;
    while i < |s|
      invariant 0 <= i <= |s|
      invariant at == -1 ==> AddressCharsExcept(s[..i], -1)
      invariant at != -1 ==> 0 < at < i && s[at] == '@' && AddressCharsExcept(s[..i], at)
      invariant dot != -1 ==> at != -1 && at + 1 < dot < i && s[dot] == '.'
      invariant at != -1 ==> forall k | at + 1 < k < (if dot == -1 then i else dot) :: s[k] != '.'
      invariant at == -1 ==> dot == -1
    {
      var c := s[i];
      if c == '@' {
        if at != -1 || i == 0 {
          return false;
        }
        at := i;
      } else if IsWhitespace(c) {
        return false;
      } else if c == '.' && at != -1 && dot == -1 && at + 1 < i {
        dot := i;
      }
      i := i + 1;
    }
    assert s[..i] == s;
    b := at != -1 && dot != -1 && dot + 1 < |s|;
    if b {
      assert s[at] == '@' && s[dot] == '.' && AddressCharsExcept(s, at);
    }
  }
}
