/**
  The pieces of the C library that the relay tool's argument checks and
  responses rely on, in the "C" locale: `isspace`, `toupper`/`tolower`,
  `strcasecmp`, `strtol` as the GNU C library implements it, and the `%d`
  and `%02X` conversions of `printf`.

  A C string is modelled by its characters up to, not including, the
  terminating NUL.
*/
module CLib {

  /** The range of `long` on the LP64 targets the tool is built for. */
  const LongMin: int := -0x8000_0000_0000_0000
  const LongMax: int := 0x7FFF_FFFF_FFFF_FFFF

  predicate IsSpace(c: char) {
    c == ' ' || c == '\t' || c == '\n' || c == '\U{000B}' || c == '\U{000C}' || c == '\r'
  }

  function ToUpper(c: char): char {
    if 'a' <= c <= 'z' then (c as int - 32) as char else c
  }

  function ToLower(c: char): char {
    if 'A' <= c <= 'Z' then (c as int + 32) as char else c
  }

  function Lower(s: string): string {
    seq(|s|, i requires 0 <= i < |s| => ToLower(s[i]))
  }

  predicate NoNul(s: string) {
    forall i :: 0 <= i < |s| ==> s[i] != '\0'
  }

  // ---------------------------------------------------------------------
  // strcasecmp

  /** The byte `strcasecmp` compares at the head of `s`; the terminator reads as 0. */
  function HeadLower(s: string): int {
    if |s| == 0 then 0 else ToLower(s[0]) as int
  }

  /** `strcasecmp(a, b)`: compares lower-cased characters up to the first difference or terminator. */
  function StrCaseCmp(a: string, b: string): int
    decreases |a|
  {
    var ca := HeadLower(a);
    var cb := HeadLower(b);
    if ca != cb || ca == 0 then ca - cb else StrCaseCmp(a[1..], b[1..])
  }

  /** On NUL-free strings, `strcasecmp` reports equality exactly when the strings agree ignoring ASCII case. */
  lemma {:induction false} StrCaseCmpZeroIff(a: string, b: string)
    requires NoNul(a) && NoNul(b)
    ensures StrCaseCmp(a, b) == 0 <==> Lower(a) == Lower(b)
    decreases |a|
  {
    if |a| > 0 && |b| > 0 && HeadLower(a) == HeadLower(b) {
      assert ToLower(a[0]) != '\0';
      StrCaseCmpZeroIff(a[1..], b[1..]);
      assert ToLower(a[0]) == ToLower(b[0]);
      assert Lower(a) == [ToLower(a[0])] + Lower(a[1..]);
      assert Lower(b) == [ToLower(b[0])] + Lower(b[1..]);
      if Lower(a) == Lower(b) {
        assert Lower(a[1..]) == Lower(a)[1..] == Lower(b)[1..] == Lower(b[1..]);
      }
    } else if |a| > 0 && |b| > 0 {
      assert Lower(a)[0] != Lower(b)[0];
    } else if |a| > 0 {
      assert ToLower(a[0]) != '\0';
    } else if |b| > 0 {
      assert ToLower(b[0]) != '\0';
    }
  }

  /** `strcasecmp` cannot tell apart two strings that differ only in ASCII case. */
  lemma {:induction false} StrCaseCmpIgnoresCase(a: string, a': string, b: string)
    requires Lower(a) == Lower(a')
    ensures StrCaseCmp(a, b) == StrCaseCmp(a', b)
    decreases |a|
  {
    assert |a| == |Lower(a)| == |a'|;
    if |a| > 0 {
      assert ToLower(a[0]) == Lower(a)[0] == ToLower(a'[0]);
    }
    if |a| > 0 && |b| > 0 {
      assert Lower(a[1..]) == Lower(a)[1..] == Lower(a'[1..]);
      StrCaseCmpIgnoresCase(a[1..], a'[1..], b[1..]);
    }
  }

  // ---------------------------------------------------------------------
  // Numerals

  /** The value `strtol` gives a character: digits, then letters of either case from 10; 36 marks a non-digit. */
  function DigitValue(c: char): nat {
    if '0' <= c <= '9' then c as int - '0' as int
    else if 'a' <= c <= 'z' then c as int - 'a' as int + 10
    else if 'A' <= c <= 'Z' then c as int - 'A' as int + 10
    else 36
  }

  predicate IsDigitIn(c: char, base: nat) {
    DigitValue(c) < base
  }

  predicate AllDigitsIn(s: string, base: nat) {
    forall i :: 0 <= i < |s| ==> IsDigitIn(s[i], base)
  }

  /** Positional value of a digit string, most significant digit first. */
  function NumeralValue(d: string, base: nat): nat {
    if |d| == 0 then 0 else NumeralValue(d[..|d| - 1], base) * base + DigitValue(d[|d| - 1])
  }

  /** Length of the longest prefix of `s` made of digits of `base`. */
  function DigitRun(s: string, base: nat): (n: nat)
    ensures n <= |s|
    ensures AllDigitsIn(s[..n], base)
    ensures n < |s| ==> !IsDigitIn(s[n], base)
  {
    if |s| == 0 || !IsDigitIn(s[0], base) then 0 else 1 + DigitRun(s[1..], base)
  }

  /** The run covers the whole string exactly when every character is a digit. */
  lemma DigitRunWhole(s: string, base: nat)
    ensures DigitRun(s, base) == |s| <==> AllDigitsIn(s, base)
  {
    var n := DigitRun(s, base);
    if n == |s| {
      assert s[..n] == s;
    }
  }

  /** Length of the run of leading white space. */
  function SpaceRun(s: string): (n: nat)
    ensures n <= |s|
    ensures forall i :: 0 <= i < n ==> IsSpace(s[i])
    ensures n < |s| ==> !IsSpace(s[n])
  {
    if |s| == 0 || !IsSpace(s[0]) then 0 else 1 + SpaceRun(s[1..])
  }

  // ---------------------------------------------------------------------
  // strtol

  /** Saturation to `long` on overflow (`ERANGE`). */
  function Clamp(x: int): (r: int)
    ensures LongMin <= r <= LongMax
    ensures LongMin <= x <= LongMax ==> r == x
    ensures x < LongMin ==> r == LongMin
    ensures x > LongMax ==> r == LongMax
  {
    if x < LongMin then LongMin else if x > LongMax then LongMax else x
  }

  /** The `base` argument of the two calls the tool makes: 0 (prefix decides) and 10. */
  datatype Radix = Auto | Decimal

  /** What `strtol` returns and where it leaves `*endptr`, as an index into the string. */
  datatype Conversion = Conversion(value: int, end: nat)

  /** Index just past the leading white space and an optional sign. */
  function SignEnd(s: string): (j: nat)
    ensures j <= |s|
  {
    var i := SpaceRun(s);
    if i < |s| && (s[i] == '+' || s[i] == '-') then i + 1 else i
  }

  predicate Negative(s: string) {
    var i := SpaceRun(s);
    i < |s| && s[i] == '-'
  }

  /**
    The base and the index of the first digit once the sign is read. With
    base 0 a leading "0x" or "0X" selects 16 and is skipped, a leading "0"
    selects 8 (the 0 itself is read as a digit), and anything else 10.
  */
  function BaseAndStart(s: string, j: nat, radix: Radix): (p: (nat, nat))
    requires j <= |s|
    ensures p.0 in {8, 10, 16}
    ensures j <= p.1 <= |s|
  {
    if radix == Auto && j < |s| && s[j] == '0' then
      if j + 1 < |s| && ToUpper(s[j + 1]) == 'X' then (16, j + 2) else (8, j)
    else
      (10, j)
  }

  /**
    `strtol(s, &end, base)`. When no digit follows the prefix nothing is
    converted: the value is 0 and `end` is the start of the string, except
    after a "0x" with no hexadecimal digit, where `end` points at the `x`.
  */
  function Strtol(s: string, radix: Radix): (r: Conversion)
    ensures r.end <= |s|
    ensures LongMin <= r.value <= LongMax
    ensures r.end == 0 ==> r.value == 0
  {
    var (base, k) := BaseAndStart(s, SignEnd(s), radix);
    var n := DigitRun(s[k..], base);
    if n == 0 then
      Conversion(0, if k >= 2 && ToUpper(s[k - 1]) == 'X' && s[k - 2] == '0' then k - 1 else 0)
    else
      Conversion(Clamp(Signed(s, NumeralValue(s[k..k + n], base))), k + n)
  }

  /** A magnitude with the sign read from the head of `s`. */
  function Signed(s: string, magnitude: nat): int {
    if Negative(s) then -(magnitude as int) else magnitude
  }

  /**
    `strtol` consumes a whole non-empty string exactly when everything after
    the sign and base prefix is a non-empty run of digits, and then the value
    is that numeral, signed and saturated.
  */
  lemma StrtolConsumesAll(s: string, radix: Radix)
    requires |s| > 0
    ensures var (base, k) := BaseAndStart(s, SignEnd(s), radix);
      && (Strtol(s, radix).end == |s| <==> k < |s| && AllDigitsIn(s[k..], base))
      && (Strtol(s, radix).end == |s| ==> Strtol(s, radix).value == Clamp(Signed(s, NumeralValue(s[k..], base))))
  {
    var (base, k) := BaseAndStart(s, SignEnd(s), radix);
    var n := DigitRun(s[k..], base);
    DigitRunWhole(s[k..], base);
    if n == 0 {
      assert Strtol(s, radix).end < |s|;
      assert k < |s| ==> !IsDigitIn(s[k..][0], base);
    } else {
      assert Strtol(s, radix).end == k + n;
      if n == |s| - k {
        assert s[k..k + n] == s[k..];
      }
    }
  }

  // ---------------------------------------------------------------------
  // printf conversions

  function DecimalDigit(d: nat): (c: char)
    requires d < 10
    ensures DigitValue(c) == d
  {
    ['0', '1', '2', '3', '4', '5', '6', '7', '8', '9'][d]
  }

  function UpperHexDigit(d: nat): (c: char)
    requires d < 16
    ensures DigitValue(c) == d
  {
    ['0', '1', '2', '3', '4', '5', '6', '7', '8', '9', 'A', 'B', 'C', 'D', 'E', 'F'][d]
  }

  /** `%d` of a non-negative number. */
  function FormatDecimal(n: nat): string
    decreases n
  {
    if n < 10 then [DecimalDigit(n)] else FormatDecimal(n / 10) + [DecimalDigit(n % 10)]
  }

  /** `%02X` of a byte: two upper-case hexadecimal digits. */
  function FormatHex2(b: bv8): string {
    [UpperHexDigit(b as int / 16), UpperHexDigit(b as int % 16)]
  }

  /** `%d` output is a non-empty decimal numeral that reads back as the number printed. */
  lemma {:induction false} FormatDecimalReadsBack(n: nat)
    ensures |FormatDecimal(n)| > 0
    ensures AllDigitsIn(FormatDecimal(n), 10)
    ensures NumeralValue(FormatDecimal(n), 10) == n
    decreases n
  {
    var s := FormatDecimal(n);
    if n >= 10 {
      FormatDecimalReadsBack(n / 10);
      assert s[..|s| - 1] == FormatDecimal(n / 10);
    }
  }

  /** `%02X` output is a two-digit hexadecimal numeral that reads back as the byte printed. */
  lemma FormatHex2ReadsBack(b: bv8)
    ensures |FormatHex2(b)| == 2
    ensures AllDigitsIn(FormatHex2(b), 16)
    ensures NumeralValue(FormatHex2(b), 16) == b as int
  {
    var s := FormatHex2(b);
    assert s[..1][..0] == [];
    assert NumeralValue(s[..1], 16) == DigitValue(s[0]);
    assert NumeralValue(s, 16) == NumeralValue(s[..1], 16) * 16 + DigitValue(s[1]);
  }
}
