/** Input validators for user data: password strength, name sanitising and
    the e-mail address shape. Character classes are those of ASCII; the
    regular expressions are written out as the languages they accept. */
module Validation {
  import opened Common

  // ---------------------------------------------------------------------
  // Password strength
  // ---------------------------------------------------------------------

  datatype CharClass = Upper | Lower | Digit | Special | Other

  /** Printable ASCII that is neither a letter, a digit nor a space: the
      ASCII punctuation and symbol characters. */
  predicate IsAsciiPunctOrSymbol(c: char)
  {
    ('!' <= c <= '/') || (':' <= c <= '@') || ('[' <= c <= '`') || ('{' <= c <= '~')
  }

  /** The first class of the password switch that a character falls in. */
  function PasswordClass(c: char): (k: CharClass)
    ensures k == Upper <==> IsAsciiUpper(c)
    ensures k == Lower <==> IsAsciiLower(c)
    ensures k == Digit <==> IsAsciiDigit(c)
    ensures k == Special <==> IsAsciiPunctOrSymbol(c)
  {
    if IsAsciiUpper(c) then Upper
    else if IsAsciiLower(c) then Lower
    else if IsAsciiDigit(c) then Digit
    else if IsAsciiPunctOrSymbol(c) then Special
    else Other
  }

  predicate HasPasswordClass(s: string, k: CharClass)
  {
    exists i :: 0 <= i < |s| && PasswordClass(s[i]) == k
  }

  /** At least 8 bytes, with an upper-case letter, a lower-case letter, a
      digit and a punctuation or symbol character. */
  predicate StrongPassword(password: string)
  {
    Utf8Len(password) >= 8
    && HasPasswordClass(password, Upper) && HasPasswordClass(password, Lower)
    && HasPasswordClass(password, Digit) && HasPasswordClass(password, Special)
  }

  method IsStrongPassword(password: string) returns (ok: bool)
    ensures ok <==> StrongPassword(password)
  {
    if Utf8Len(password) < 8 {
      return false;
    }
    var hasUpper, hasLower, hasDigit, hasSpecial := false, false, false, false;
    var i := 0;
    while i < |password|
      invariant 0 <= i <= |password|
      invariant hasUpper <==> HasPasswordClass(password[..i], Upper)
      invariant hasLower <==> HasPasswordClass(password[..i], Lower)
      invariant hasDigit <==> HasPasswordClass(password[..i], Digit)
      invariant hasSpecial <==> HasPasswordClass(password[..i], Special)
    {
      var c := password[i];
      assert password[..i + 1] == password[..i] + [c];
      if IsAsciiUpper(c) {
        hasUpper := true;
      } else if IsAsciiLower(c) {
        hasLower := true;
      } else if IsAsciiDigit(c) {
        hasDigit := true;
      } else if IsAsciiPunctOrSymbol(c) {
        hasSpecial := true;
      }
      i := i + 1;
    }
    assert password[..|password|] == password;
    return hasUpper && hasLower && hasDigit && hasSpecial;
  }

  /** A password shorter than 8 bytes is never strong. */
  lemma ShortPasswordIsWeak(password: string)
    requires Utf8Len(password) < 8
    ensures !StrongPassword(password)
  {
  }

  // ---------------------------------------------------------------------
  // Name sanitising
  // ---------------------------------------------------------------------

  /** The characters a sanitised name keeps: ASCII letters and digits, '_'
      and the regular-expression spaces \t \n \f \r and ' '. */
  predicate NameChar(c: char)
  {
    IsAsciiAlnum(c) || c == '_' || c == '\t' || c == '\n' || c as int == 0x0C || c == '\r' || c == ' '
  }

  /** The name with every other character removed. */
  function SanitizeName(name: string): (r: string)
    ensures |r| <= |name|
    ensures forall i :: 0 <= i < |r| ==> NameChar(r[i])
    ensures (forall i :: 0 <= i < |name| ==> NameChar(name[i])) ==> r == name
  {
    if name == [] then []
    else if NameChar(name[0]) then [name[0]] + SanitizeName(name[1..])
    else SanitizeName(name[1..])
  }

  /** Sanitising a sanitised name changes nothing. */
  lemma SanitizeIdempotent(name: string)
    ensures SanitizeName(SanitizeName(name)) == SanitizeName(name)
  {
  }

  /** Sanitising works character by character: it distributes over
      concatenation. */
  lemma {:induction false} SanitizeAppend(a: string, b: string)
    ensures SanitizeName(a + b) == SanitizeName(a) + SanitizeName(b)
  {
    if a == [] {
      assert a + b == b;
    } else {
      assert (a + b)[1..] == a[1..] + b;
      SanitizeAppend(a[1..], b);
    }
  }

  // ---------------------------------------------------------------------
  // E-mail shape
  // ---------------------------------------------------------------------

  predicate LocalChar(c: char)
  {
    IsAsciiAlnum(c) || c == '.' || c == '_' || c == '%' || c == '+' || c == '-'
  }

  predicate DomainChar(c: char)
  {
    IsAsciiAlnum(c) || c == '.' || c == '-'
  }

  predicate AllOf(s: string, p: char -> bool)
  {
    forall i :: 0 <= i < |s| ==> p(s[i])
  }

  /** The pattern [local]+ @ [domain]+ . [letters]{2,} matched with the '@'
      at position at and the final dot at position dot. */
  predicate EmailShape(email: string, at: int, dot: int)
  {
    0 < at && at + 1 < dot && dot + 3 <= |email|
    && email[at] == '@' && email[dot] == '.'
    && AllOf(email[..at], LocalChar)
    && AllOf(email[at + 1..dot], DomainChar)
    && AllOf(email[dot + 1..], IsAsciiLetter)
  }

  /** The language of the e-mail pattern. */
  ghost predicate MatchesEmailPattern(email: string)
  {
    exists at, dot :: EmailShape(email, at, dot)
  }

  /** The pattern decided directly: the part before the only '@' is a local
      part, and the part after it ends in a dot and two or more letters,
      with domain characters before that dot. */
  function IsValidEmail(email: string): (ok: bool)
    ensures ok ==> MatchesEmailPattern(email)
  {
    var at := IndexChar(email, '@');
    if at < 1 then false
    else
      var domain := email[at + 1..];
      var d := LastIndexChar(domain, '.');
      var ok := d >= 1 && |domain| - d - 1 >= 2
        && AllOf(email[..at], LocalChar)
        && AllOf(domain[..d], DomainChar)
        && AllOf(domain[d + 1..], IsAsciiLetter);
      assert ok ==> EmailShape(email, at, at + 1 + d) by {
        if ok {
          assert email[at + 1..at + 1 + d] == domain[..d];
          assert email[at + 1 + d + 1..] == domain[d + 1..];
        }
      }
      ok
  }

  /** The direct decision accepts exactly the pattern's language. */
  lemma IsValidEmailMatchesPattern(email: string)
    ensures IsValidEmail(email) <==> MatchesEmailPattern(email)
  {
    var at := IndexChar(email, '@');
    if IsValidEmail(email) {
      var domain := email[at + 1..];
      var d := LastIndexChar(domain, '.');
      var dot := at + 1 + d;
      assert email[at + 1..dot] == domain[..d];
      assert email[dot + 1..] == domain[d + 1..];
      assert EmailShape(email, at, dot);
    }
    if MatchesEmailPattern(email) {
      var a, t :| EmailShape(email, a, t);
      EmailShapeDecided(email, a, t);
    }
  }

  lemma EmailShapeDecided(email: string, at: int, dot: int)
    requires EmailShape(email, at, dot)
    ensures IsValidEmail(email)
  {
    FirstAtIs(email, at);
    var domain := email[at + 1..];
    var d := dot - at - 1;
    assert domain[d] == '.';
    assert domain[d + 1..] == email[dot + 1..];
    assert domain[..d] == email[at + 1..dot];
    LastDotIs(domain, d);
  }

  /** A local part has no '@', so the '@' after it is the first one. */
  lemma FirstAtIs(email: string, at: int)
    requires 0 < at < |email| && email[at] == '@' && AllOf(email[..at], LocalChar)
    ensures IndexChar(email, '@') == at
  {
    assert forall i :: 0 <= i < at ==> email[..at][i] == email[i];
    assert '@' !in email[..at];
  }

  /** Letters hold no dot, so the dot before them is the last one. */
  lemma LastDotIs(domain: string, d: int)
    requires 0 <= d < |domain| && domain[d] == '.' && AllOf(domain[d + 1..], IsAsciiLetter)
    ensures LastIndexChar(domain, '.') == d
  {
    assert '.' !in domain[d + 1..];
    LastIndexIs(domain, '.', d);
  }

  lemma LastIndexIs(s: string, c: char, d: int)
    requires 0 <= d < |s| && s[d] == c && c !in s[d + 1..]
    ensures LastIndexChar(s, c) == d
  {
  }
}
