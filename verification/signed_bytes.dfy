/** The C# `sbyte` (8-bit two's complement) and the three conversions of it the
    colour class uses: `ToString("X2")`, `ToString()` and `sbyte.Parse(s, NumberStyles.HexNumber)`. */
module SignedBytes {
  import opened Results
  import opened Text

  type SByte = x: int | -128 <= x < 128

  /** The 8-bit pattern of a signed byte, read unsigned. */
  function Bits(b: SByte): (u: nat)
    ensures u < 256
    ensures b >= 0 ==> u == b
    ensures b < 0 ==> u == b + 256
  {
    b % 256
  }

  /** Two signed bytes with the same bit pattern are equal. */
  lemma BitsInjective(a: SByte, b: SByte)
    requires Bits(a) == Bits(b)
    ensures a == b
  {
  }

  /** Reinterprets an 8-bit pattern as a signed byte, as an unchecked cast does. */
  function FromBits(u: nat): (b: SByte)
    requires u < 256
    ensures Bits(b) == u
  {
    if u < 128 then u else u - 256
  }

  /** `sbyte.ToString("X2")`: the two's-complement pattern as exactly two upper-case hex digits. */
  function Hex2(b: SByte): (s: string)
    ensures |s| == 2 && AllHexDigits(s)
    ensures forall i :: 0 <= i < |s| ==> !('a' <= s[i] <= 'z')
    ensures HexValue(s) == Bits(b)
  {
    var u := Bits(b);
    var s := [UpperHexDigit(u / 16), UpperHexDigit(u % 16)];
    assert s[..1] == [s[0]] && s[..1][..0] == [];
    assert HexValue(s[..1]) == u / 16;
    s
  }

  datatype NumberError = FormatError | Overflow

  /** `sbyte.Parse(s, NumberStyles.HexNumber)` on a string of hex digits: the digits are read
      as an unsigned number, which must fit in 8 bits, and the pattern is then taken as signed. */
  function ParseHexSByte(s: string): (r: Result<SByte, NumberError>)
    ensures r.Success? <==> |s| > 0 && AllHexDigits(s) && HexValue(s) < 256
    ensures r.Success? ==> Bits(r.value) == HexValue(s)
    ensures r == Failure(Overflow) <==> |s| > 0 && AllHexDigits(s) && HexValue(s) >= 256
  {
    if |s| == 0 || !AllHexDigits(s) then Failure(FormatError)
    else if HexValue(s) >= 256 then Failure(Overflow)
    else Success(FromBits(HexValue(s)))
  }

  /** A single hex digit always parses, to its own value: 0..15, never negative. */
  lemma SingleHexDigit(c: char)
    requires IsHexDigit(c)
    ensures ParseHexSByte([c]) == Success(HexDigitValue(c) as SByte)
  {
    assert [c][..0] == [];
    assert AllHexDigits([c]) && HexValue([c]) == HexDigitValue(c);
  }

  /** Two hex digits always parse; the result is negative exactly when the first digit is 8..F. */
  lemma TwoHexDigits(s: string)
    requires |s| == 2 && AllHexDigits(s)
    ensures ParseHexSByte(s).Success?
    ensures ParseHexSByte(s).value == FromBits(16 * HexDigitValue(s[0]) + HexDigitValue(s[1]))
    ensures ParseHexSByte(s).value < 0 <==> HexDigitValue(s[0]) >= 8
  {
    assert s[..1] == [s[0]];
    assert s[..1][..0] == [];
    assert HexValue(s[..1]) == HexDigitValue(s[0]);
    assert HexValue(s) == 16 * HexDigitValue(s[0]) + HexDigitValue(s[1]);
  }

  /** `X2` formatting and hex parsing are inverse on every signed byte. */
  lemma Hex2RoundTrip(b: SByte)
    ensures ParseHexSByte(Hex2(b)) == Success(b)
  {
  }

  /** `sbyte.ToString()`: the decimal form with a leading '-' for negative values, spelled
      without leading zeros (so never "0127" or "-0"). */
  function Decimal(b: SByte): (s: string)
    ensures 0 < |s| <= 4
    ensures b < 0 <==> s[0] == '-'
    ensures SignedDecimalValue(s) == Some(b as int)
    ensures var d := if b < 0 then s[1..] else s;
      |d| > 0 && AllDigits(d) && (d[0] == '0' ==> b == 0 && |d| == 1)
  {
    if b < 0 then
      var n: nat := -(b as int);
      var d := DecimalDigits(n);
      SmallDecimal(n);
      "-" + d
    else
      SmallDecimal(b);
      DecimalDigits(b)
  }

  /** Reads a decimal string with an optional leading '-' (the reference reading of `Decimal`). */
  function SignedDecimalValue(s: string): Option<int> {
    if |s| > 1 && s[0] == '-' && AllDigits(s[1..]) then Some(0 - DecimalValue(s[1..]))
    else if |s| > 0 && AllDigits(s) then Some(DecimalValue(s))
    else None
  }

  lemma SmallDecimal(n: nat)
    requires n <= 128
    ensures |DecimalDigits(n)| <= 3
  {
    if n >= 10 {
      assert n / 10 < 13;
      if n / 10 >= 10 {
        assert n / 10 / 10 < 10;
      }
    }
  }
}
