/**
 * The three C library conversions the sysfs layer relies on, as the GNU C
 * library performs them:
 *  - strtoul(s, &end, 0): optional white space, optional sign, a radix chosen
 *    from the prefix ("0x" hexadecimal, "0" octal, otherwise decimal), the
 *    longest run of digits; ERANGE when the magnitude exceeds ULONG_MAX;
 *  - sscanf(s, "%lu"): the same without radix detection (always decimal),
 *    saturating at ULONG_MAX, failing when no digit is found;
 *  - snprintf(buf, n, "%lu", v): canonical decimal.
 */
module CLib {
  import opened CTypes

  /** isspace() in the C locale. */
  predicate IsSpace(c: char)
  {
    c == ' ' || c == '\t' || c == '\n' || c == '\r' || c as int == 11 || c as int == 12
  }

  /** Value of a digit character in any radix up to 36; 36 for a non-digit. */
  function DigitValue(c: char): (v: nat)
    ensures v <= 36
  {
    if '0' <= c <= '9' then c as int - '0' as int
    else if 'a' <= c <= 'z' then c as int - 'a' as int + 10
    else if 'A' <= c <= 'Z' then c as int - 'A' as int + 10
    else 36
  }

  predicate IsDigitIn(c: char, radix: nat)
  {
    DigitValue(c) < radix
  }

  /** The text with its leading white space removed. */
  function SkipSpace(s: string): (r: string)
    ensures |r| <= |s| && r == s[|s| - |r|..]
    ensures forall k :: 0 <= k < |s| - |r| ==> IsSpace(s[k])
    ensures r != [] ==> !IsSpace(r[0])
  {
    if s != [] && IsSpace(s[0]) then SkipSpace(s[1..]) else s
  }

  /** The longest prefix of `s` made of digits of the radix. */
  function LeadingDigits(s: string, radix: nat): (r: string)
    ensures r <= s
    ensures forall k :: 0 <= k < |r| ==> IsDigitIn(r[k], radix)
    ensures |r| < |s| ==> !IsDigitIn(s[|r|], radix)
  {
    if s != [] && IsDigitIn(s[0], radix) then [s[0]] + LeadingDigits(s[1..], radix) else []
  }

  /** Positional value of a digit string, most significant digit first. */
  function DigitsValue(ds: string, radix: nat): nat
  {
    if ds == [] then 0
    else DigitsValue(ds[..|ds| - 1], radix) * radix + DigitValue(ds[|ds| - 1])
  }

  /** The radix strtoul(.., 0) picks from the text after the sign. */
  function RadixOf(u: string): (radix: nat)
    ensures radix == 8 || radix == 10 || radix == 16
  {
    if |u| >= 3 && u[0] == '0' && (u[1] == 'x' || u[1] == 'X') && IsDigitIn(u[2], 16) then 16
    else if |u| >= 1 && u[0] == '0' then 8
    else 10
  }

  /** What strtoul reports: no digit consumed (end == start), ERANGE, or a value. */
  datatype Conversion = NoDigits | OutOfRange | Converted(value: u64)

  /** Applies the sign to a magnitude the way strtoul does: negation wraps modulo 2^64. */
  function Signed(magnitude: nat, negative: bool): (r: Conversion)
    ensures r.OutOfRange? <==> magnitude > ULONG_MAX
    ensures !negative && r.Converted? ==> r.value == magnitude
    ensures negative && r.Converted? ==> (r.value + magnitude) % TWO64 == 0
  {
    if magnitude > ULONG_MAX then OutOfRange
    else Converted(if negative then (TWO64 - magnitude) % TWO64 else magnitude)
  }

  /** strtoul(s, &end, 0). */
  function StrToUL(s: string): Conversion
  {
    var t := SkipSpace(s);
    var negative := |t| > 0 && t[0] == '-';
    var u := if |t| > 0 && (t[0] == '+' || t[0] == '-') then t[1..] else t;
    var radix := RadixOf(u);
    var body := if radix == 16 then u[2..] else u;
    var ds := LeadingDigits(body, radix);
    if ds == [] then NoDigits else Signed(DigitsValue(ds, radix), negative)
  }

  /** sscanf(s, "%lu", &v) == 1, and the value stored. */
  function ScanUL(s: string): Option<u64>
  {
    var t := SkipSpace(s);
    var negative := |t| > 0 && t[0] == '-';
    var u := if |t| > 0 && (t[0] == '+' || t[0] == '-') then t[1..] else t;
    var ds := LeadingDigits(u, 10);
    if ds == [] then None
    else
      var magnitude := DigitsValue(ds, 10);
      Some(if magnitude > ULONG_MAX then ULONG_MAX
           else if negative then (TWO64 - magnitude) % TWO64 else magnitude)
  }

  /** sscanf(s, "%u", &v) == 1, and the value stored: the %lu value cut to 32 bits. */
  function ScanU(s: string): (r: Option<u32>)
    ensures r.Some? <==> ScanUL(s).Some?
    ensures r.Some? ==> r.value == ScanUL(s).value % TWO32
  {
    match ScanUL(s)
    case None => None
    case Some(v) => Some(Wrap32(v))
  }

  function DigitChar(d: nat): (c: char)
    requires d < 10
    ensures '0' <= c <= '9' && DigitValue(c) == d
  {
    ('0' as int + d) as char
  }

  /** snprintf(buf, n, "%lu", n): decimal digits, no sign, no leading zero. */
  function Decimal(n: nat): (r: string)
    ensures |r| >= 1
    ensures forall k :: 0 <= k < |r| ==> '0' <= r[k] <= '9'
    ensures n > 0 ==> r[0] != '0'
  {
    if n < 10 then [DigitChar(n)] else Decimal(n / 10) + [DigitChar(n % 10)]
  }

  /** Reading back the digits printed for `n` gives `n`. */
  lemma {:induction false} DecimalValue(n: nat)
    ensures DigitsValue(Decimal(n), 10) == n
  {
    if n >= 10 {
      var r := Decimal(n);
      assert r[..|r| - 1] == Decimal(n / 10);
      DecimalValue(n / 10);
    }
  }

  /** A string of decimal digits is its own longest digit prefix. */
  lemma AllDigits(r: string, radix: nat)
    requires radix >= 10
    requires forall k :: 0 <= k < |r| ==> '0' <= r[k] <= '9'
    ensures SkipSpace(r) == r
    ensures LeadingDigits(r, radix) == r
  {
    assert forall k :: 0 <= k < |r| ==> IsDigitIn(r[k], radix);
  }

  /** strtoul(.., 0) reads back exactly what "%lu" printed. */
  lemma DecimalRoundTrip(n: u64)
    ensures StrToUL(Decimal(n)) == Converted(n)
  {
    var r := Decimal(n);
    AllDigits(r, 10);
    assert SkipSpace(r) == r;
    assert r[0] != '-' && r[0] != '+';
    DecimalValue(n);
    if n == 0 {
      assert r == "0";
      assert RadixOf(r) == 8;
      assert LeadingDigits(r, 8) == r;
      assert DigitsValue(r, 8) == DigitsValue(r[..0], 8) * 8 + 0;
    } else {
      assert RadixOf(r) == 10;
      assert LeadingDigits(r, 10) == r;
    }
  }

  /** sscanf("%lu") reads back exactly what "%lu" printed. */
  lemma DecimalScanRoundTrip(n: u64)
    ensures ScanUL(Decimal(n)) == Some(n)
  {
    var r := Decimal(n);
    AllDigits(r, 10);
    assert SkipSpace(r) == r;
    assert r[0] != '-' && r[0] != '+';
    assert LeadingDigits(r, 10) == r;
    DecimalValue(n);
    assert DigitsValue(r, 10) == n;
  }

  function Pow10(k: nat): nat
  {
    if k == 0 then 1 else 10 * Pow10(k - 1)
  }

  /** A number below 10^k prints in at most k digits. */
  lemma {:induction false} DecimalLength(n: nat, k: nat)
    requires 1 <= k && n < Pow10(k)
    ensures |Decimal(n)| <= k
  {
    if n >= 10 {
      assert k >= 2;
      assert n / 10 < Pow10(k - 1);
      DecimalLength(n / 10, k - 1);
    }
  }

  /** An unsigned long prints in at most 20 digits. */
  lemma DecimalLength64(n: u64)
    ensures |Decimal(n)| <= 20
  {
    assert Pow10(10) == 10000000000;
    assert Pow10(20) == Pow10(10) * 10000000000;
    DecimalLength(n, 20);
  }

  /** sscanf("%lu") finds no digit in a text that starts with a letter. */
  lemma ScanRefusesLetter(s: string)
    requires s != [] && ('a' <= s[0] <= 'z' || 'A' <= s[0] <= 'Z')
    ensures ScanUL(s) == None
  {
    assert SkipSpace(s) == s;
    assert LeadingDigits(s, 10) == [];
  }
}
