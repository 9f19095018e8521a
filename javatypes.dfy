/**
 * The Java value types the FALSE toolchain computes with, written out so
 * that their widths and conversions are explicit: 16-bit `char`, signed
 * 8-bit `byte`, 32-bit two's-complement `int`, strings as sequences of
 * 16-bit code units, decimal printing of integers and the big-endian
 * layout of `java.nio.ByteBuffer`.
 */
module JavaTypes {

  /** A Java `char`: one UTF-16 code unit. */
  newtype JChar = c: int | 0 <= c < 0x1_0000

  /** A Java `String`. */
  type JString = seq<JChar>

  /** A Java `byte` (signed). */
  newtype Byte = b: int | -0x80 <= b < 0x80

  /** A Java `int`. */
  newtype Int32 = n: int | -0x8000_0000 <= n < 0x8000_0000

  const INT_MIN: int := -0x8000_0000
  const INT_MAX: int := 0x7FFF_FFFF

  datatype Option<T> = None | Some(value: T)

  /** The code unit of a Dafny character of the Basic Multilingual Plane. */
  function JC(c: char): JChar
  {
    if c as int < 0x1_0000 then c as int as JChar else 0
  }

  /** A Java string literal, from a Dafny literal of BMP characters. */
  function Str(s: string): (r: JString)
    ensures |r| == |s|
    ensures forall i :: 0 <= i < |s| ==> r[i] == JC(s[i])
  {
    seq(|s|, i requires 0 <= i < |s| => JC(s[i]))
  }

  /** The line break `println` emits. */
  const LF: JChar := 10

  /** `'0' <= c && c <= '9'`. */
  predicate IsDigit(c: JChar)
  {
    48 <= c <= 57
  }

  /**
   * `Character.isWhitespace`: the space, line and paragraph separators
   * except the non-breaking ones (U+00A0, U+2007, U+202F), and the
   * controls U+0009..U+000D and U+001C..U+001F.
   */
  predicate IsWhitespace(c: JChar)
  {
    (0x09 <= c <= 0x0D) || (0x1C <= c <= 0x20) || c == 0x1680
    || (0x2000 <= c <= 0x2006) || (0x2008 <= c <= 0x200A)
    || c == 0x2028 || c == 0x2029 || c == 0x205F || c == 0x3000
  }

  /** The decimal digit character for `d`. */
  function DigitChar(d: nat): (c: JChar)
    requires d < 10
    ensures IsDigit(c) && c as int - 48 == d
  {
    (48 + d) as JChar
  }

  /** The digits of `n` without leading zeros (`"0"` for zero). */
  function Digits(n: nat): (s: JString)
    ensures |s| > 0
    ensures forall i :: 0 <= i < |s| ==> IsDigit(s[i])
  {
    if n < 10 then [DigitChar(n)] else Digits(n / 10) + [DigitChar(n % 10)]
  }

  /** `Integer.toString(n)`, the text `"..." + n` produces. */
  function DecimalString(n: int): JString
  {
    if n < 0 then [JC('-')] + Digits(-n) else Digits(n)
  }

  /** The value of a run of decimal digits, as `Integer.parseInt` reads it before its range check. */
  function DigitsValue(s: JString): nat
  {
    if |s| == 0 then 0
    else DigitsValue(s[..|s| - 1]) * 10 + (if IsDigit(s[|s| - 1]) then s[|s| - 1] as int - 48 else 0)
  }

  /** Reads back an optionally signed decimal numeral. */
  function ParseDecimal(s: JString): int
  {
    if |s| > 0 && s[0] == JC('-') then -(DigitsValue(s[1..]) as int) else DigitsValue(s)
  }

  lemma {:induction false} DigitsRoundTrip(n: nat)
    ensures DigitsValue(Digits(n)) == n
  {
    if n >= 10 {
      var s := Digits(n);
      assert s[..|s| - 1] == Digits(n / 10);
      DigitsRoundTrip(n / 10);
    }
  }

  /** Printing an `int` in decimal and reading it back gives the same number. */
  lemma DecimalRoundTrip(n: int)
    ensures ParseDecimal(DecimalString(n)) == n
  {
    if n < 0 {
      var s := DecimalString(n);
      assert s[1..] == Digits(-n);
      DigitsRoundTrip(-n);
    } else {
      DigitsRoundTrip(n);
    }
  }

  /** Java's `-n` on `int`: the negation wraps, so `-MIN_VALUE == MIN_VALUE`. */
  function Negate(n: Int32): (r: Int32)
    ensures n as int != INT_MIN ==> r as int == -(n as int)
    ensures n as int == INT_MIN ==> r == n
  {
    if n as int == INT_MIN then n else (-(n as int)) as Int32
  }

  /** The low eight bits of `x`, as the signed `byte` a narrowing cast yields. */
  function ToByte(x: int): Byte
  {
    var m := x % 0x100;
    if m >= 0x80 then (m - 0x100) as Byte else m as Byte
  }

  /** `b & 0xFF`. */
  function Unsigned(b: Byte): (u: int)
    ensures 0 <= u < 0x100
  {
    if b < 0 then b as int + 0x100 else b as int
  }

  lemma UnsignedToByte(x: int)
    ensures Unsigned(ToByte(x)) == x % 0x100
  {
  }

  /** `ByteBuffer.putInt`: the four bytes of `v`, most significant first. */
  function BigEndian32(v: Int32): (r: seq<Byte>)
    ensures |r| == 4
  {
    var u := if v < 0 then v as int + 0x1_0000_0000 else v as int;
    [ToByte(u / 0x100_0000), ToByte(u / 0x1_0000), ToByte(u / 0x100), ToByte(u)]
  }

  /** `ByteBuffer.getInt` on four bytes. */
  function FromBigEndian32(b0: Byte, b1: Byte, b2: Byte, b3: Byte): Int32
  {
    var u := Unsigned(b0) * 0x100_0000 + Unsigned(b1) * 0x1_0000 + Unsigned(b2) * 0x100 + Unsigned(b3);
    if u >= 0x8000_0000 then (u - 0x1_0000_0000) as Int32 else u as Int32
  }

  /** `ByteBuffer.putChar`: the two bytes of a code unit, high byte first. */
  function BigEndian16(c: JChar): (r: seq<Byte>)
    ensures |r| == 2
  {
    [ToByte(c as int / 0x100), ToByte(c as int)]
  }

  /** `ByteBuffer.getChar` on two bytes. */
  function FromBigEndian16(hi: Byte, lo: Byte): JChar
  {
    (Unsigned(hi) * 0x100 + Unsigned(lo)) as JChar
  }

  /** `(char) b`: a byte widened to a `char` with sign extension. */
  function SignExtend(b: Byte): (c: JChar)
    ensures b >= 0 ==> c as int == b as int
    ensures b < 0 ==> c as int == 0x1_0000 + b as int
  {
    if b < 0 then (0x1_0000 + b as int) as JChar else b as int as JChar
  }

  lemma {:induction false} SplitBytes(u: int)
    requires 0 <= u < 0x1_0000_0000
    ensures u == (u / 0x100_0000 % 0x100) * 0x100_0000 + (u / 0x1_0000 % 0x100) * 0x1_0000
                 + (u / 0x100 % 0x100) * 0x100 + u % 0x100
  {
    var a := u / 0x100;
    assert u == a * 0x100 + u % 0x100;
    var b := a / 0x100;
    assert a == b * 0x100 + a % 0x100;
    var c := b / 0x100;
    assert b == c * 0x100 + b % 0x100;
    assert c < 0x100;
    assert u / 0x1_0000 == b;
    assert u / 0x100_0000 == c;
  }

  /** Writing an `int` with `putInt` and reading it with `getInt` gives it back. */
  lemma BigEndian32RoundTrip(v: Int32)
    ensures var r := BigEndian32(v); FromBigEndian32(r[0], r[1], r[2], r[3]) == v
  {
    var u := if v < 0 then v as int + 0x1_0000_0000 else v as int;
    UnsignedToByte(u / 0x100_0000);
    UnsignedToByte(u / 0x1_0000);
    UnsignedToByte(u / 0x100);
    UnsignedToByte(u);
    SplitBytes(u);
  }

  /** Writing a `char` with `putChar` and reading it with `getChar` gives it back. */
  lemma BigEndian16RoundTrip(c: JChar)
    ensures var r := BigEndian16(c); FromBigEndian16(r[0], r[1]) == c
  {
    UnsignedToByte(c as int / 0x100);
    UnsignedToByte(c as int);
  }
}
