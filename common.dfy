/** Shared vocabulary of the model: optional values and error returns, the
    time units of Go's time package, 64-bit integer limits, and the string
    primitives of Go's strings/strconv packages and Python's str that the
    core relies on. Strings are sequences of Unicode scalar values; where Go
    counts bytes, Utf8Len gives the UTF-8 length. */
module Common {

  datatype Option<T> = None | Some(value: T)

  /** An operation that either produces a value or fails with a message. */
  datatype Result<T> = Ok(value: T) | Err(error: string)

  // ---------------------------------------------------------------------
  // Time. Instants are nanoseconds since the Unix epoch; durations are
  // nanoseconds, as in Go's time.Duration.
  // ---------------------------------------------------------------------

  const Millisecond: int := 1_000_000
  const Second: int := 1_000_000_000
  const Minute: int := 60 * Second
  const Hour: int := 60 * Minute

  /** Go's zero time.Time (January 1, year 1, UTC) as an instant. */
  const ZeroTime: int := -62_135_596_800 * Second

  // ---------------------------------------------------------------------
  // 64-bit integers
  // ---------------------------------------------------------------------

  const MaxInt64: int := 0x7FFF_FFFF_FFFF_FFFF
  const MinInt64: int := -0x8000_0000_0000_0000
  const TwoTo64: int := 0x1_0000_0000_0000_0000

  predicate IsInt64(x: int) { MinInt64 <= x <= MaxInt64 }

  /** Two's-complement wrap-around of Go's int64 arithmetic. */
  function WrapInt64(x: int): (r: int)
    ensures IsInt64(r)
    ensures (x - r) % TwoTo64 == 0
    ensures IsInt64(x) ==> r == x
  {
    var m := (x - MinInt64) % TwoTo64;
    m + MinInt64
  }

  // ---------------------------------------------------------------------
  // Prefixes, suffixes, substrings
  // ---------------------------------------------------------------------

  predicate HasPrefix(s: string, p: string) { |p| <= |s| && s[..|p|] == p }

  predicate HasSuffix(s: string, p: string) { |p| <= |s| && s[|s| - |p|..] == p }

  /** `sub` occurs in `s` starting at index i. */
  predicate OccursAt(s: string, sub: string, i: int)
  {
    0 <= i && i + |sub| <= |s| && s[i..i + |sub|] == sub
  }

  /** Case-sensitive substring test (Go's strings.Contains, Python's `in`). */
  predicate Contains(s: string, sub: string)
  {
    exists i :: 0 <= i <= |s| - |sub| && OccursAt(s, sub, i)
  }

  lemma ContainsEmpty(s: string)
    ensures Contains(s, "")
  {
    assert OccursAt(s, "", 0);
  }

  lemma ContainsSelf(s: string)
    ensures Contains(s, s)
  {
    assert OccursAt(s, s, 0);
  }

  // ---------------------------------------------------------------------
  // Characters
  // ---------------------------------------------------------------------

  predicate IsAsciiUpper(c: char) { 'A' <= c <= 'Z' }
  predicate IsAsciiLower(c: char) { 'a' <= c <= 'z' }
  predicate IsAsciiDigit(c: char) { '0' <= c <= '9' }
  predicate IsAsciiLetter(c: char) { IsAsciiUpper(c) || IsAsciiLower(c) }
  predicate IsAsciiAlnum(c: char) { IsAsciiLetter(c) || IsAsciiDigit(c) }

  /** The upper-case letters of the Latin script whose lower-case form is
      the next code point: the paired letters of Latin Extended-A and
      Latin Extended Additional, and the Vietnamese horned O and U of
      Latin Extended-B. */
  predicate IsPairedLatinUpper(n: int)
  {
    ((0x100 <= n <= 0x12F || 0x132 <= n <= 0x137 || 0x14A <= n <= 0x177) && n % 2 == 0)
    || ((0x139 <= n <= 0x148 || 0x179 <= n <= 0x17E) && n % 2 == 1)
    || n == 0x1A0 || n == 0x1AF
    || ((0x1E00 <= n <= 0x1E95 || 0x1EA0 <= n <= 0x1EFF) && n % 2 == 0)
  }

  /** Unicode's simple lower-case mapping (Go's unicode.ToLower, applied
      rune by rune by strings.ToLower) on the Latin script: ASCII and
      Latin-1 capitals move by 32, paired letters to the next code point,
      and the three irregular ones: capital I with dot above becomes 'i',
      Y with diaeresis becomes U+00FF and capital sharp s becomes U+00DF.
      Every other character is left as it is. */
  function LowerChar(c: char): (l: char)
    ensures IsAsciiUpper(c) ==> l as int == c as int + 32
    ensures c as int < 0x80 && !IsAsciiUpper(c) ==> l == c
  {
    var n := c as int;
    if IsAsciiUpper(c) || 0xC0 <= n <= 0xD6 || 0xD8 <= n <= 0xDE then (n + 32) as char
    else if IsPairedLatinUpper(n) then (n + 1) as char
    else if n == 0x130 then 'i'
    else if n == 0x178 then 0xFF as char
    else if n == 0x1E9E then 0xDF as char
    else c
  }

  function Lower(s: string): (r: string)
    ensures |r| == |s|
    ensures forall i :: 0 <= i < |s| ==> r[i] == LowerChar(s[i])
  {
    if s == [] then [] else [LowerChar(s[0])] + Lower(s[1..])
  }

  /** Lower-casing neither makes nor unmakes white space. */
  lemma LowerKeepsSpace(c: char)
    ensures IsGoSpace(LowerChar(c)) == IsGoSpace(c)
  {
  }

  lemma LowerIdempotent(s: string)
    ensures Lower(Lower(s)) == Lower(s)
  {
  }

  lemma LowerAppend(a: string, b: string)
    ensures Lower(a + b) == Lower(a) + Lower(b)
  {
  }

  /** A representative of the character's case-folding orbit: its lower
      case, except that capital I with dot above folds only with itself,
      and the long s and the Kelvin and Angstrom signs fold with s, k and
      U+00E5. */
  function FoldChar(c: char): char
  {
    var n := c as int;
    if n == 0x130 then c
    else if n == 0x17F then 's'
    else if n == 0x212A then 'k'
    else if n == 0x212B then 0xE5 as char
    else LowerChar(c)
  }

  function Fold(s: string): (r: string)
    ensures |r| == |s|
    ensures forall i :: 0 <= i < |s| ==> r[i] == FoldChar(s[i])
  {
    if s == [] then [] else [FoldChar(s[0])] + Fold(s[1..])
  }

  /** Case-insensitive equality (Go's strings.EqualFold): the two strings
      agree character by character up to case folding. */
  predicate EqualFold(a: string, b: string) { Fold(a) == Fold(b) }

  /** Go's unicode.IsSpace: the Latin-1 spaces and the Unicode White_Space set. */
  predicate IsGoSpace(c: char)
  {
    var n := c as int;
    (9 <= n <= 13) || n == 0x20 || n == 0x85 || n == 0xA0 || n == 0x1680
    || (0x2000 <= n <= 0x200A) || n == 0x2028 || n == 0x2029 || n == 0x202F
    || n == 0x205F || n == 0x3000
  }

  /** Python's str.isspace: Go's set plus the four information separators. */
  predicate IsPySpace(c: char)
  {
    IsGoSpace(c) || (0x1C <= c as int <= 0x1F)
  }

  /** Number of bytes of the UTF-8 encoding of s (Go's len on a string). */
  function Utf8Len(s: string): (n: nat)
    ensures |s| <= n <= 4 * |s|
  {
    if s == [] then 0
    else
      var c := s[0] as int;
      (if c < 0x80 then 1 else if c < 0x800 then 2 else if c < 0x10000 then 3 else 4)
      + Utf8Len(s[1..])
  }

  // ---------------------------------------------------------------------
  // Trimming
  // ---------------------------------------------------------------------

  /** Removes leading and trailing characters satisfying `space`. */
  function Trim(s: string, space: char -> bool): (r: string)
    ensures |r| <= |s|
    ensures r != [] ==> !space(r[0]) && !space(r[|r| - 1])
    ensures (forall i :: 0 <= i < |s| ==> !space(s[i])) ==> r == s
    decreases |s|
  {
    if s != [] && space(s[0]) then Trim(s[1..], space)
    else if s != [] && space(s[|s| - 1]) then Trim(s[..|s| - 1], space)
    else s
  }

  /** Go's strings.TrimSpace. */
  function TrimSpace(s: string): string { Trim(s, IsGoSpace) }

  /** Python's str.strip() without arguments. */
  function PyStrip(s: string): string { Trim(s, IsPySpace) }

  /** Number of maximal runs of non-space characters (the length of Go's
      strings.Fields). */
  function FieldCount(s: string): (n: nat)
    ensures n <= |s|
    decreases |s|
  {
    if s == [] then 0
    else
      var starts := !IsGoSpace(s[|s| - 1]) && (|s| == 1 || IsGoSpace(s[|s| - 2]));
      FieldCount(s[..|s| - 1]) + (if starts then 1 else 0)
  }

  /** Go's strings.IndexByte for a character: the first position, or -1. */
  function IndexChar(s: string, c: char): (i: int)
    ensures -1 <= i < |s|
    ensures i == -1 <==> c !in s
    ensures i >= 0 ==> s[i] == c && c !in s[..i]
  {
    if s == [] then -1
    else if s[0] == c then 0
    else
      var j := IndexChar(s[1..], c);
      if j == -1 then -1
      else
        assert s[..j + 1] == [s[0]] + s[1..][..j];
        j + 1
  }

  /** Go's strings.LastIndexByte for a character: the last position, or -1. */
  function LastIndexChar(s: string, c: char): (i: int)
    ensures -1 <= i < |s|
    ensures i == -1 <==> c !in s
    ensures i >= 0 ==> s[i] == c && c !in s[i + 1..]
    decreases |s|
  {
    if s == [] then -1
    else if s[|s| - 1] == c then |s| - 1
    else
      assert s == s[..|s| - 1] + [s[|s| - 1]];
      LastIndexChar(s[..|s| - 1], c)
  }

  // ---------------------------------------------------------------------
  // Splitting and joining on a one-character separator
  // ---------------------------------------------------------------------

  function CountChar(s: string, c: char): (n: nat)
    ensures n <= |s|
  {
    if s == [] then 0 else (if s[0] == c then 1 else 0) + CountChar(s[1..], c)
  }

  /** Go's strings.Split(s, sep) and Python's s.split(sep) for a one-character
      separator: n separators give n + 1 pieces, none holding the separator. */
  function Split(s: string, sep: char): (r: seq<string>)
    ensures |r| == CountChar(s, sep) + 1
    ensures forall k :: 0 <= k < |r| ==> sep !in r[k]
    ensures Join(r, sep) == s
  {
    if s == [] then [""]
    else
      var rest := Split(s[1..], sep);
      if s[0] == sep then [""] + rest
      else
        var r := [[s[0]] + rest[0]] + rest[1..];
        assert r[1..] == rest[1..];
        r
  }

  function Join(parts: seq<string>, sep: char): string
  {
    if parts == [] then ""
    else if |parts| == 1 then parts[0]
    else parts[0] + [sep] + Join(parts[1..], sep)
  }

  /** Splitting undoes joining when no piece holds the separator. */
  lemma {:induction false} SplitJoin(parts: seq<string>, sep: char)
    requires parts != []
    requires forall k :: 0 <= k < |parts| ==> sep !in parts[k]
    ensures Split(Join(parts, sep), sep) == parts
    decreases parts
  {
    if |parts| == 1 {
      SplitNoSep(parts[0], sep);
    } else {
      SplitJoin(parts[1..], sep);
      SplitPrefix(parts[0], Join(parts[1..], sep), sep);
    }
  }

  lemma {:induction false} SplitNoSep(s: string, sep: char)
    requires sep !in s
    ensures Split(s, sep) == [s]
  {
    if s != [] {
      SplitNoSep(s[1..], sep);
    }
  }

  lemma {:induction false} SplitPrefix(a: string, b: string, sep: char)
    requires sep !in a
    ensures Split(a + [sep] + b, sep) == [a] + Split(b, sep)
  {
    if a == [] {
      assert a + [sep] + b == [sep] + b;
      assert ([sep] + b)[1..] == b;
    } else {
      var s := a + [sep] + b;
      assert s[0] == a[0] && s[1..] == a[1..] + [sep] + b;
      SplitPrefix(a[1..], b, sep);
      assert Split(s[1..], sep) == [a[1..]] + Split(b, sep);
      assert [a[0]] + a[1..] == a;
    }
  }

  // ---------------------------------------------------------------------
  // Python's str.replace (non-overlapping, left to right)
  // ---------------------------------------------------------------------

  function Replace(s: string, pat: string, rep: string): string
    requires pat != []
    decreases |s|
  {
    if |s| < |pat| then s
    else if s[..|pat|] == pat then rep + Replace(s[|pat|..], pat, rep)
    else [s[0]] + Replace(s[1..], pat, rep)
  }

  /** Replacing a single character substitutes it everywhere. */
  lemma {:induction false} ReplaceCharAppend(a: string, b: string, c: char, rep: string)
    ensures Replace(a + b, [c], rep) == Replace(a, [c], rep) + Replace(b, [c], rep)
    decreases |a|
  {
    if a == [] {
      assert a + b == b;
    } else {
      assert (a + b)[1..] == a[1..] + b;
      assert (a + b)[..1] == a[..1];
      ReplaceCharAppend(a[1..], b, c, rep);
    }
  }

  // ---------------------------------------------------------------------
  // Lexicographic order on strings (Go's and Python's < on strings; the
  // UTF-8 byte order and the code point order agree)
  // ---------------------------------------------------------------------

  predicate StrLt(a: string, b: string)
    decreases |a|
  {
    if a == [] then b != []
    else if b == [] then false
    else if a[0] != b[0] then a[0] < b[0]
    else StrLt(a[1..], b[1..])
  }

  predicate StrLe(a: string, b: string) { a == b || StrLt(a, b) }

  lemma {:induction false} StrLtIrreflexive(a: string)
    ensures !StrLt(a, a)
  {
    if a != [] { StrLtIrreflexive(a[1..]); }
  }

  lemma {:induction false} StrLtTotal(a: string, b: string)
    ensures StrLt(a, b) || a == b || StrLt(b, a)
  {
    if a != [] && b != [] && a[0] == b[0] {
      StrLtTotal(a[1..], b[1..]);
      if a[1..] == b[1..] {
        assert a == [a[0]] + a[1..] && b == [b[0]] + b[1..];
      }
    }
  }

  lemma {:induction false} StrLtAsymmetric(a: string, b: string)
    ensures !(StrLt(a, b) && StrLt(b, a))
  {
    if a != [] && b != [] && a[0] == b[0] { StrLtAsymmetric(a[1..], b[1..]); }
  }

  lemma {:induction false} StrLtTransitive(a: string, b: string, c: string)
    requires StrLt(a, b) && StrLt(b, c)
    ensures StrLt(a, c)
  {
    if a != [] && a[0] == b[0] && b[0] == c[0] {
      StrLtTransitive(a[1..], b[1..], c[1..]);
    }
  }

  // ---------------------------------------------------------------------
  // Number parsing (Go's strconv)
  // ---------------------------------------------------------------------

  function DigitsValue(ds: string): (v: nat)
    requires forall i :: 0 <= i < |ds| ==> IsAsciiDigit(ds[i])
    decreases |ds|
  {
    if ds == [] then 0
    else
      assert IsAsciiDigit(ds[|ds| - 1]);
      10 * DigitsValue(ds[..|ds| - 1]) + (ds[|ds| - 1] as int - '0' as int)
  }

  predicate AllDigits(s: string) { forall i :: 0 <= i < |s| ==> IsAsciiDigit(s[i]) }

  /** strconv.ParseInt(s, 10, 64), which is also strconv.Atoi on a 64-bit
      platform: an optional sign, at least one decimal digit, and a value
      that fits in int64. */
  function ParseInt(s: string): (r: Option<int>)
    ensures r.Some? ==> IsInt64(r.value)
    ensures r.Some? ==> s != [] && (AllDigits(s) || AllDigits(s[1..]))
  {
    if s == [] then None
    else
      var neg := s[0] == '-';
      var body := if s[0] == '+' || s[0] == '-' then s[1..] else s;
      if body == [] || !AllDigits(body) then None
      else
        var mag: int := DigitsValue(body);
        var v := if neg then 0 - mag else mag;
        if IsInt64(v) then Some(v) else None
  }

  /** strconv.ParseBool. */
  function ParseBool(s: string): (r: Option<bool>)
    ensures r.Some? ==> 1 <= |s| <= 5
  {
    if s in {"1", "t", "T", "TRUE", "true", "True"} then Some(true)
    else if s in {"0", "f", "F", "FALSE", "false", "False"} then Some(false)
    else None
  }

  function DigitChar(d: int): (c: char)
    requires 0 <= d < 10
    ensures IsAsciiDigit(c) && c as int - '0' as int == d
  {
    ('0' as int + d) as char
  }

  /** Decimal digits of a natural number, most significant first. */
  function NatDecimal(n: nat): (s: string)
    ensures |s| >= 1 && AllDigits(s)
  {
    if n < 10 then [DigitChar(n)] else NatDecimal(n / 10) + [DigitChar(n % 10)]
  }

  /** The `%d` rendering of an integer. */
  function Decimal(n: int): (s: string)
    ensures ':' !in s
  {
    var s := if n < 0 then "-" + NatDecimal(-n) else NatDecimal(n);
    assert forall i :: 0 <= i < |s| ==> s[i] == '-' || IsAsciiDigit(s[i]);
    s
  }

  /** Reading the digits back gives the number. */
  lemma {:induction false} NatDecimalValue(n: nat)
    ensures DigitsValue(NatDecimal(n)) == n
  {
    if n >= 10 {
      var s := NatDecimal(n);
      assert s[..|s| - 1] == NatDecimal(n / 10);
      NatDecimalValue(n / 10);
    }
  }

  /** strconv.ParseInt inverts the decimal rendering of an int64. */
  lemma DecimalParses(n: int)
    requires IsInt64(n)
    ensures ParseInt(Decimal(n)) == Some(n)
  {
    if n < 0 {
      NegativeDecimalParses(n);
    } else {
      var s := NatDecimal(n);
      assert IsAsciiDigit(s[0]);
      NatDecimalValue(n);
    }
  }

  lemma NegativeDecimalParses(n: int)
    requires IsInt64(n) && n < 0
    ensures ParseInt(Decimal(n)) == Some(n)
  {
    var s := Decimal(n);
    assert s == "-" + NatDecimal(-n);
    assert s[0] == '-' && s[1..] == NatDecimal(-n);
    NatDecimalValue(-n);
  }

  function MinInt(a: int, b: int): int { if a <= b then a else b }
  function MaxInt(a: int, b: int): int { if a >= b then a else b }
}
