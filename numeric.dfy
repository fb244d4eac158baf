/**
 * Digits, decimal and hexadecimal text, and the parts of the C library's
 * number conversions (strtol, atoi, the %u/%i/%x conversions of sscanf and
 * the %d/%X conversions of printf) that the core relies on.
 *
 * Only a subset of the library behaviour is modelled: no leading white
 * space is skipped, no locale is consulted, and conversions into C types
 * narrower than `long` are written out by the callers.
 */
module Numeric {

  /** LONG_MAX and LONG_MIN of a 64-bit `long`. */
  const LongMax: int := 0x7FFF_FFFF_FFFF_FFFF
  const LongMin: int := -0x8000_0000_0000_0000

  predicate IsDigit(c: char) { '0' <= c <= '9' }

  /** isxdigit() in the C locale. */
  predicate IsHexDigit(c: char) { IsDigit(c) || 'a' <= c <= 'f' || 'A' <= c <= 'F' }

  function HexDigitValue(c: char): (v: nat)
    requires IsHexDigit(c)
    ensures v < 16
    ensures v < 10 <==> IsDigit(c)
  {
    if IsDigit(c) then c as int - '0' as int
    else if 'a' <= c <= 'f' then c as int - 'a' as int + 10
    else c as int - 'A' as int + 10
  }

  /** A digit of `base` (8, 10 or 16) as strtol accepts it. */
  predicate IsBaseDigit(c: char, base: nat) {
    IsHexDigit(c) && HexDigitValue(c) < base
  }

  predicate AllBaseDigits(s: string, base: nat) {
    forall i | 0 <= i < |s| :: IsBaseDigit(s[i], base)
  }

  /** The value of a digit string read most significant digit first. */
  function ValueOf(s: string, base: nat): nat
    requires AllBaseDigits(s, base)
  {
    if |s| == 0 then 0 else ValueOf(s[..|s| - 1], base) * base + HexDigitValue(s[|s| - 1])
  }

  /** The number of consecutive digits of `base` in `s` from index `i` on. */
  function RunLength(s: string, i: nat, base: nat): (k: nat)
    requires i <= |s|
    ensures i + k <= |s|
    ensures forall j | i <= j < i + k :: IsBaseDigit(s[j], base)
    ensures i + k == |s| || !IsBaseDigit(s[i + k], base)
    decreases |s| - i
  {
    if i < |s| && IsBaseDigit(s[i], base) then 1 + RunLength(s, i + 1, base) else 0
  }

  function Pow(base: nat, e: nat): nat
  {
    if e == 0 then 1 else base * Pow(base, e - 1)
  }

  /** The digit for `d` that printf's %X writes (upper-case letters). */
  function DigitChar(d: nat): (c: char)
    requires d < 16
    ensures IsHexDigit(c) && HexDigitValue(c) == d
  {
    if d < 10 then ('0' as int + d) as char else ('A' as int + d - 10) as char
  }

  /** printf("%u", n): the shortest decimal text of `n`. */
  function DecimalString(n: nat): (s: string)
    ensures |s| >= 1 && AllBaseDigits(s, 10)
    ensures ValueOf(s, 10) == n
    ensures s[0] == '0' <==> n == 0
    ensures n == 0 ==> s == "0"
  {
    if n < 10 then [DigitChar(n)]
    else
      var p := DecimalString(n / 10);
      var s := p + [DigitChar(n % 10)];
      assert s[..|s| - 1] == p;
      s
  }

  /** printf("%d", i) and printf("%i", i). */
  function IntString(i: int): (s: string)
    ensures |s| >= 1
  {
    if i < 0 then "-" + DecimalString(-i) else DecimalString(i)
  }

  /** printf("%0<width>X", n): upper-case hexadecimal padded with zeros to `width` digits. */
  function HexString(n: nat, width: nat): (s: string)
    requires n < Pow(16, width)
    ensures |s| == width && AllBaseDigits(s, 16)
    ensures ValueOf(s, 16) == n
  {
    if width == 0 then []
    else
      assert n / 16 < Pow(16, width - 1);
      var p := HexString(n / 16, width - 1);
      var s := p + [DigitChar(n % 16)];
      assert s[..|s| - 1] == p;
      s
  }

  /** An unsigned 32-bit value (xcb_window_t, uint32_t). */
  type Word32 = n: nat | n < 0x1_0000_0000

  /** printf("%08X", w) for a 32-bit value: exactly eight upper-case digits. */
  function Hex8(w: Word32): (s: string)
    ensures |s| == 8 && AllBaseDigits(s, 16) && ValueOf(s, 16) == w
  {
    assert Pow(16, 8) == 0x1_0000_0000 by {
      assert Pow(16, 4) == 0x1_0000;
    }
    HexString(w, 8)
  }

  /** What a strtol-like conversion reports: the value, how many characters it
      consumed (0 when no digits were found, as when `*end == s`), and whether
      it set errno to ERANGE. */
  datatype Conversion = Conversion(value: int, consumed: nat, overflow: bool)

  function SignLength(s: string): (n: nat)
    ensures n <= 1 && n <= |s|
  {
    if |s| > 0 && (s[0] == '+' || s[0] == '-') then 1 else 0
  }

  /** The digits of `base` starting at `start`, negated when `s` starts with '-';
      clamped to the range of `long` with the overflow flag set. */
  function Convert(s: string, start: nat, base: nat): (c: Conversion)
    requires SignLength(s) <= start <= |s|
    ensures c.consumed <= |s|
    ensures c.consumed == 0 ==> c.value == 0 && !c.overflow
    ensures LongMin <= c.value <= LongMax
  {
    var k := RunLength(s, start, base);
    if k == 0 then Conversion(0, 0, false)
    else
      var mag := ValueOf(s[start..start + k], base);
      var v: int := if SignLength(s) == 1 && s[0] == '-' then -(mag as int) else mag;
      if v > LongMax then Conversion(LongMax, start + k, true)
      else if v < LongMin then Conversion(LongMin, start + k, true)
      else Conversion(v, start + k, false)
  }

  /** Whether strtol with base 0 reads `s` (after its sign) as hexadecimal:
      "0x" or "0X" followed by at least one hexadecimal digit. */
  predicate HexPrefixed(s: string)
  {
    var sg := SignLength(s);
    sg + 2 < |s| && s[sg] == '0' && (s[sg + 1] == 'x' || s[sg + 1] == 'X') && IsHexDigit(s[sg + 2])
  }

  /** strtol(s, &end, 0): an optional sign, then hexadecimal after "0x", octal
      after a leading '0', decimal otherwise. */
  function StrtolBase0(s: string): (c: Conversion)
    ensures c.consumed <= |s|
    ensures c.consumed == 0 ==> c.value == 0 && !c.overflow
  {
    var sg := SignLength(s);
    if HexPrefixed(s) then Convert(s, sg + 2, 16)
    else if sg < |s| && s[sg] == '0' then Convert(s, sg, 8)
    else Convert(s, sg, 10)
  }

  /** strtol(s, &end, 10); atoi(s) is its value. */
  function StrtolBase10(s: string): (c: Conversion)
    ensures c.consumed <= |s|
  {
    Convert(s, SignLength(s), 10)
  }

  /** The digit run of `d` placed after `p` and followed by a non-digit is exactly `d`. */
  lemma {:induction false} RunLengthOf(p: string, d: string, r: string, base: nat)
    requires AllBaseDigits(d, base)
    requires r == [] || !IsBaseDigit(r[0], base)
    ensures RunLength(p + d + r, |p|, base) == |d|
    decreases |d|
  {
    var s := p + d + r;
    if |d| > 0 {
      assert s == (p + [d[0]]) + d[1..] + r;
      RunLengthOf(p + [d[0]], d[1..], r, base);
    } else {
      assert |p| == |s| || s[|p|] == r[0];
    }
  }

  /** strtol reads back what printf("%u") wrote, when a non-digit (and not an 'x') follows. */
  lemma StrtolDecimal(n: nat, r: string)
    requires n <= LongMax
    requires r == [] || (!IsHexDigit(r[0]) && r[0] != 'x' && r[0] != 'X')
    ensures StrtolBase0(DecimalString(n) + r) == Conversion(n, |DecimalString(n)|, false)
  {
    if n == 0 { StrtolZero(r); } else { StrtolPositive(n, r); }
  }

  lemma StrtolZero(r: string)
    requires r == [] || (!IsHexDigit(r[0]) && r[0] != 'x' && r[0] != 'X')
    ensures StrtolBase0("0" + r) == Conversion(0, 1, false)
  {
    var s := "0" + r;
    assert SignLength(s) == 0;
    assert !HexPrefixed(s);
    assert AllBaseDigits("0", 8);
    assert s == [] + "0" + r;
    RunLengthOf([], "0", r, 8);
    assert s[0..1] == "0";
    assert ValueOf("0", 8) == ValueOf([], 8) * 8 + 0;
    assert Convert(s, 0, 8) == Conversion(0, 1, false);
  }

  lemma StrtolPositive(n: nat, r: string)
    requires 0 < n <= LongMax
    requires r == [] || !IsDigit(r[0])
    ensures StrtolBase0(DecimalString(n) + r) == Conversion(n, |DecimalString(n)|, false)
  {
    var d := DecimalString(n);
    var s := d + r;
    assert s[0] == d[0] && d[0] != '0' && IsDigit(d[0]);
    assert SignLength(s) == 0;
    assert !HexPrefixed(s);
    assert s == [] + d + r;
    RunLengthOf([], d, r, 10);
    assert s[0..|d|] == d;
    assert Convert(s, 0, 10) == Conversion(n, |d|, false);
  }

  /** A decimal number beyond LONG_MAX is a range error: strtol consumes all of it and gives LONG_MAX. */
  lemma StrtolTooLarge(n: nat)
    requires n > LongMax
    ensures StrtolBase0(DecimalString(n)) == Conversion(LongMax, |DecimalString(n)|, true)
  {
    var d := DecimalString(n);
    assert IsDigit(d[0]) && d[0] != '0';
    assert SignLength(d) == 0;
    assert !HexPrefixed(d);
    assert d == [] + d + [];
    RunLengthOf([], d, [], 10);
    assert d[0..|d|] == d;
  }

  /** strtol reads back what printf("%d") wrote for a negative number. */
  lemma StrtolNegative(n: nat, r: string)
    requires 0 < n <= LongMax
    requires r == [] || !IsHexDigit(r[0])
    ensures StrtolBase0("-" + DecimalString(n) + r) == Conversion(-(n as int), |DecimalString(n)| + 1, false)
  {
    var d := DecimalString(n);
    var s := "-" + d + r;
    assert SignLength(s) == 1;
    assert s[1] == d[0];
    assert !HexPrefixed(s);
    RunLengthOf("-", d, r, 10);
    assert s[1..1 + |d|] == d;
  }

  /** strtol reads back what printf("0x%0<width>X") wrote. */
  lemma StrtolHex(n: nat, width: nat)
    requires 0 < width && n < Pow(16, width) && n <= LongMax
    ensures StrtolBase0("0x" + HexString(n, width)) == Conversion(n, width + 2, false)
  {
    var h := HexString(n, width);
    var s := "0x" + h;
    assert SignLength(s) == 0;
    assert s[2] == h[0];
    assert HexPrefixed(s);
    RunLengthOf("0x", h, [], 16);
    assert s == "0x" + h + [];
    assert s[2..2 + width] == h;
  }
}
