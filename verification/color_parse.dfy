/** The implicit conversion from a string to a `Color`: a pattern check, then channel values
    picked out of the string by position and read with `sbyte.Parse(…, HexNumber)`.

    `ParseColorString` is the conversion as the class performs it; `ParseColorStringFixed`
    is the reading the error message describes: two hex digits per channel and nothing after
    the digits, with the alpha byte read unsigned as its division by 255 implies. Its round
    trip through `ToString("#RGB")` is proved. */
module ColorParse {
  import opened Results
  import opened Text
  import opened SignedBytes
  import opened ColorModel
  import opened ColorFormat

  /** Where the digits start: after the optional '#'. */
  function DigitStart(s: string): nat {
    if |s| > 0 && s[0] == '#' then 1 else 0
  }

  /** The string after its optional '#'. */
  function Payload(s: string): string {
    s[DigitStart(s)..]
  }

  /** An optional '#' and then 6 or 8 hex digits, the whole string. */
  predicate ColorShape(x: string) {
    (|Payload(x)| == 6 || |Payload(x)| == 8) && AllHexDigits(Payload(x))
  }

  /** What `^(#)?[0-9a-fA-F]{6}([0-9a-fA-F]{2})?$` matches in .NET: without the multiline
      option `$` matches at the very end and also just before a final line feed. */
  predicate MatchesColorPattern(s: string) {
    || ColorShape(s)
    || (|s| > 0 && s[|s| - 1] == '\n' && ColorShape(s[..|s| - 1]))
  }

  /** `s.TrimStart(ch)`: every leading occurrence of `ch` is removed. */
  function TrimStart(s: string, ch: char): (u: string)
    ensures |u| <= |s| && u == s[|s| - |u|..]
    ensures |u| > 0 ==> u[0] != ch
    ensures forall i :: 0 <= i < |s| - |u| ==> s[i] == ch
    decreases |s|
  {
    if |s| > 0 && s[0] == ch then TrimStart(s[1..], ch) else s
  }

  /** `TrimStart('#')` removes just the optional '#' when a hex digit follows it. */
  lemma TrimHash(s: string)
    requires |Payload(s)| > 0 && IsHexDigit(Payload(s)[0])
    ensures TrimStart(s, '#') == Payload(s)
  {
    if DigitStart(s) == 1 {
      assert TrimStart(s, '#') == TrimStart(s[1..], '#');
    }
  }

  /** A string that ends in a line feed has the payload of the rest plus the line feed. */
  lemma PayloadBeforeNewline(s: string)
    requires |s| > 0 && s[|s| - 1] == '\n' && ColorShape(s[..|s| - 1])
    ensures Payload(s) == Payload(s[..|s| - 1]) + "\n"
  {
    var x := s[..|s| - 1];
    assert |x| >= 6 && x[0] == s[0];
    assert s == x + "\n";
  }

  /** What `TrimStart('#')` leaves of a matching string: its payload, which starts with six
      hex digits and is eight hex digits exactly when the alpha is read. */
  lemma TrimmedColor(s: string)
    requires MatchesColorPattern(s)
    ensures TrimStart(s, '#') == Payload(s)
    ensures var u := Payload(s);
      && 6 <= |u| <= 9 && AllHexDigits(u[..6])
      && (|u| == 8 <==> ColorShape(s) && |u| == 8)
      && (|u| == 8 ==> AllHexDigits(u))
  {
    var u := Payload(s);
    if !ColorShape(s) {
      PayloadBeforeNewline(s);
      var d := Payload(s[..|s| - 1]);
      assert forall i :: 0 <= i < |d| ==> u[i] == d[i];
    }
    assert forall i :: 0 <= i < 6 ==> u[..6][i] == u[i];
    TrimHash(s);
  }

  /** `sbyte.Parse` with its exceptions named as the class lets them escape. */
  function ParseChannel(x: string): (r: Result<SByte, ColorError>)
    ensures r.Success? <==> ParseHexSByte(x).Success?
    ensures r.Success? ==> r.value == ParseHexSByte(x).value
    ensures ParseHexSByte(x) == Failure(FormatError) ==> r == Failure(FormatException)
    ensures ParseHexSByte(x) == Failure(Overflow) ==> r == Failure(OverflowException)
  {
    match ParseHexSByte(x)
    case Success(v) => Success(v)
    case Failure(FormatError) => Failure(FormatException)
    case Failure(Overflow) => Failure(OverflowException)
  }

  /** The colour the conversion as written builds from a matching string: R, G and B are the
      values of the single hex digits at positions 0, 2 and 4 of the payload; alpha is the last
      two of exactly eight digits read as a signed byte over 255, and 1 otherwise. */
  ghost predicate ReadAsWritten<N>(math: Conversions<N>, s: string, c: Color<N>)
    requires MatchesColorPattern(s)
  {
    TrimmedColor(s);
    var u := Payload(s);
    c == FromRgb(math, HexDigitValue(u[0]), HexDigitValue(u[2]), HexDigitValue(u[4]),
      if |u| == 8 then SignedPair(u[6..]); math.ratio255(FromBits(HexValue(u[6..]))) else math.one)
  }

  /** The colour a well-formed string describes: each channel is the 8-bit pattern of its two
      hex digits; alpha is the last two of eight digits read unsigned over 255, and 1 for six. */
  ghost predicate ReadAsIntended<N>(math: Conversions<N>, s: string, c: Color<N>)
    requires ColorShape(s)
  {
    TrimmedColor(s);
    var u := Payload(s);
    SignedPair(u[..2]);
    SignedPair(u[2..4]);
    SignedPair(u[4..6]);
    c == FromRgb(math, FromBits(HexValue(u[..2])), FromBits(HexValue(u[2..4])), FromBits(HexValue(u[4..6])),
      if |u| == 8 then math.ratio255(HexValue(u[6..])) else math.one)
  }

  /** Two hex digits make a value below 256. */
  lemma SignedPair(x: string)
    requires |x| == 2 && AllHexDigits(x)
    ensures HexValue(x) < 256
  {
    TwoHexDigits(x);
  }

  /** The one-character slices `[..1]`, `[2..3]` and `[4..5]` of six hex digits parse to
      those digits' values. */
  lemma SingleDigitChannels(u: string)
    requires |u| >= 6 && AllHexDigits(u[..6])
    ensures ParseChannel(u[..1]) == Success(HexDigitValue(u[0]) as SByte)
    ensures ParseChannel(u[2..3]) == Success(HexDigitValue(u[2]) as SByte)
    ensures ParseChannel(u[4..5]) == Success(HexDigitValue(u[4]) as SByte)
  {
    assert u[..6][0] == u[0] && u[..6][2] == u[2] && u[..6][4] == u[4];
    SingleHexDigit(u[0]);
    SingleHexDigit(u[2]);
    SingleHexDigit(u[4]);
    assert u[..1] == [u[0]] && u[2..3] == [u[2]] && u[4..5] == [u[4]];
  }

  /** The conversion as written: one hex digit each at positions 0, 2 and 4 after the '#',
      and, for exactly eight characters after it, the last two digits read as a signed byte
      and divided by 255. */
  function ParseColorString<N>(math: Conversions<N>, s: string): (r: Result<Color<N>, ColorError>)
    ensures r.Success? <==> MatchesColorPattern(s)
    ensures r.Failure? ==> r.error == FormatException
    ensures r.Success? ==> ReadAsWritten(math, s, r.value)
  {
    if !MatchesColorPattern(s) then Failure(FormatException)
    else
      TrimmedColor(s);
      var u := TrimStart(s, '#');
      SingleDigitChannels(u);
      match (ParseChannel(u[..1]), ParseChannel(u[2..3]), ParseChannel(u[4..5]))
      case (Success(r), Success(g), Success(b)) =>
        if |u| == 8 then
          TwoHexDigits(u[6..]);
          match ParseChannel(u[6..])
          case Success(a) => Success(FromRgb(math, r, g, b, math.ratio255(a)))
          case Failure(e) => Failure(e)
        else Success(FromRgb(math, r, g, b, math.one))
      case _ => Failure(FormatException)
  }

  /** The conversion as the pattern and the error message describe it: the whole string must
      be an optional '#' and 6 or 8 hex digits; each channel is two digits; the alpha byte
      is unsigned. */
  function ParseColorStringFixed<N>(math: Conversions<N>, s: string): (r: Result<Color<N>, ColorError>)
    ensures r.Success? <==> ColorShape(s)
    ensures r.Failure? ==> r.error == FormatException
    ensures r.Success? ==> ReadAsIntended(math, s, r.value)
  {
    if !ColorShape(s) then Failure(FormatException)
    else
      TrimmedColor(s);
      var u := TrimStart(s, '#');
      TwoHexDigits(u[..2]);
      TwoHexDigits(u[2..4]);
      TwoHexDigits(u[4..6]);
      var r := ParseHexSByte(u[..2]).value;
      var g := ParseHexSByte(u[2..4]).value;
      var b := ParseHexSByte(u[4..6]).value;
      if |u| == 8 then
        assert AllHexDigits(u[6..]);
        Success(FromRgb(math, r, g, b, math.ratio255(HexValue(u[6..]))))
      else Success(FromRgb(math, r, g, b, math.one))
  }

  /** A colour's channels as `ToString("#RGB")` writes them. */
  function HexString(r: SByte, g: SByte, b: SByte): (s: string)
    ensures ColorShape(s) && |Payload(s)| == 6
    ensures Payload(s)[..2] == Hex2(r) && Payload(s)[2..4] == Hex2(g) && Payload(s)[4..6] == Hex2(b)
  {
    var s := "#" + Hex2(r) + Hex2(g) + Hex2(b);
    assert Payload(s) == Hex2(r) + Hex2(g) + Hex2(b);
    assert forall i :: 0 <= i < 6 ==> IsHexDigit(Payload(s)[i]);
    s
  }

  /** Two colours built from RGB that agree on channels and alpha are the same object state. */
  lemma SameRgbSameColor<N>(math: Conversions<N>, c: Color<N>, d: Color<N>)
    requires DerivedFromRgb(math, c) && DerivedFromRgb(math, d)
    requires c.rgb == d.rgb && c.alpha == d.alpha
    ensures c == d
  {
  }

  /** The corrected conversion reads back what `ToString("#RGB")` writes: every channel,
      negative ones included, with alpha 1. */
  lemma FixedRoundTrip<N>(math: Conversions<N>, show: N -> string, c: Color<N>)
    ensures ToString(math, show, c, "#RGB") == Success(HexString(c.rgb.r, c.rgb.g, c.rgb.b))
    ensures ParseColorStringFixed(math, HexString(c.rgb.r, c.rgb.g, c.rgb.b))
      == Success(FromRgb(math, c.rgb.r, c.rgb.g, c.rgb.b, math.one))
  {
    RgbTemplate(math, show, c, "#RGB");
    var s := HexString(c.rgb.r, c.rgb.g, c.rgb.b);
    var d := ParseColorStringFixed(math, s).value;
    BitsInjective(d.rgb.r, c.rgb.r);
    BitsInjective(d.rgb.g, c.rgb.g);
    BitsInjective(d.rgb.b, c.rgb.b);
    SameRgbSameColor(math, d, FromRgb(math, c.rgb.r, c.rgb.g, c.rgb.b, math.one));
  }

  /** As written, reading what `ToString("#RGB")` writes keeps only the high hex digit of
      each channel, so the round trip gives the colour back only when it is black. */
  lemma AsWrittenReadsHighDigits<N>(math: Conversions<N>, r: SByte, g: SByte, b: SByte)
    ensures ParseColorString(math, HexString(r, g, b)).Success?
    ensures ParseColorString(math, HexString(r, g, b)).value.rgb == Rgb(Bits(r) / 16, Bits(g) / 16, Bits(b) / 16)
    ensures ParseColorString(math, HexString(r, g, b)).value.rgb == Rgb(r, g, b) <==> r == 0 && g == 0 && b == 0
  {
    var s := HexString(r, g, b);
    var u := Payload(s);
    HighDigit(r, u[..2]);
    HighDigit(g, u[2..4]);
    HighDigit(b, u[4..6]);
    assert u[0] == u[..2][0] && u[2] == u[2..4][0] && u[4] == u[4..6][0];
  }

  /** The first of the two `X2` digits of a signed byte is its high nibble. */
  lemma HighDigit(v: SByte, x: string)
    requires x == Hex2(v)
    ensures HexDigitValue(x[0]) == Bits(v) / 16
  {
    TwoHexDigits(x);
  }

  /** `X2` of -1, -128 and 0. */
  lemma ExampleDigits()
    ensures HexString(-1, -128, 0) == "#FF8000"
  {
    assert Hex2(-1) == "FF" && Hex2(-128) == "80" && Hex2(0) == "00";
  }

  /** "#FF8000" as written: R = 15, G = 8, B = 0. */
  lemma AsWrittenExample<N>(math: Conversions<N>, s: string)
    requires s == HexString(-1, -128, 0)
    ensures ParseColorString(math, s) == Success(FromRgb(math, 15, 8, 0, math.one))
  {
    AsWrittenReadsHighDigits(math, -1, -128, 0);
    assert Bits(-1) / 16 == 15 && Bits(-128) / 16 == 8 && Bits(0) / 16 == 0;
    SameRgbSameColor(math, ParseColorString(math, s).value, FromRgb(math, 15, 8, 0, math.one));
  }

  /** "#FF8000" corrected: R = -1, G = -128, B = 0. */
  lemma FixedExample<N>(math: Conversions<N>, s: string)
    requires s == HexString(-1, -128, 0)
    ensures ParseColorStringFixed(math, s) == Success(FromRgb(math, -1, -128, 0, math.one))
  {
    FixedRoundTrip(math, _ => "", FromRgb(math, -1, -128, 0, math.one));
  }

  /** A counterexample to the round trip as written: "#FF8000", which `ToString("#RGB")`
      writes for R = -1, G = -128, B = 0, is read back as R = 15, G = 8, B = 0. */
  lemma AsWrittenMisreadsExample<N>(math: Conversions<N>, s: string)
    requires s == HexString(-1, -128, 0)
    ensures s == "#FF8000"
    ensures ParseColorString(math, s) == Success(FromRgb(math, 15, 8, 0, math.one))
    ensures ParseColorStringFixed(math, s) == Success(FromRgb(math, -1, -128, 0, math.one))
  {
    ExampleDigits();
    AsWrittenExample(math, s);
    FixedExample(math, s);
  }

  /** As written, every channel of a converted colour is a single hex digit's value. */
  lemma AsWrittenChannelsBelow16<N>(math: Conversions<N>, s: string)
    requires MatchesColorPattern(s)
    ensures var c := ParseColorString(math, s).value;
      0 <= c.rgb.r < 16 && 0 <= c.rgb.g < 16 && 0 <= c.rgb.b < 16
  {
    TrimmedColor(s);
    var u := Payload(s);
    assert u[..6][0] == u[0] && u[..6][2] == u[2] && u[..6][4] == u[4];
  }

  /** As written, the digits at payload positions 1, 3 and 5 never matter: strings that
      differ only there convert to the same colour. */
  lemma AsWrittenIgnoresOddDigits<N>(math: Conversions<N>, s: string, s2: string)
    requires MatchesColorPattern(s) && MatchesColorPattern(s2)
    requires |Payload(s)| == |Payload(s2)|
    requires forall i :: 0 <= i < |Payload(s)| && i != 1 && i != 3 && i != 5 ==> Payload(s)[i] == Payload(s2)[i]
    ensures ParseColorString(math, s) == ParseColorString(math, s2)
  {
    TrimmedColor(s);
    TrimmedColor(s2);
    var u, u2 := Payload(s), Payload(s2);
    assert u[0] == u2[0] && u[2] == u2[2] && u[4] == u2[4];
    if |u| == 8 {
      assert u[6..] == u2[6..];
    }
  }

  /** As written, the alpha byte is read as a signed byte: two digits of value 128 or more
      give a negative numerator; the corrected reading keeps the value 0..255. */
  lemma AsWrittenAlphaIsSigned<N>(math: Conversions<N>, s: string)
    requires ColorShape(s) && |Payload(s)| == 8
    ensures var v := HexValue(Payload(s)[6..]);
      && v < 256
      && ParseColorString(math, s).value.alpha == math.ratio255(if v < 128 then v else v - 256)
      && ParseColorStringFixed(math, s).value.alpha == math.ratio255(v)
  {
    var u := Payload(s);
    SignedPair(u[6..]);
  }

  /** "#000000FF", fully opaque by the pattern's reading, has alpha -1/255 as written. */
  lemma AsWrittenAlphaExample<N>(math: Conversions<N>, s: string)
    requires s == "#000000FF"
    ensures ParseColorString(math, s).Success? && ParseColorString(math, s).value.alpha == math.ratio255(-1)
    ensures ParseColorStringFixed(math, s).Success? && ParseColorStringFixed(math, s).value.alpha == math.ratio255(255)
  {
    var u := Payload(s);
    assert u == "000000FF";
    assert forall i :: 0 <= i < 8 ==> IsHexDigit(u[i]);
    assert u[6..] == "FF";
    TwoHexDigits(u[6..]);
    assert HexValue(u[6..]) == 255;
    AsWrittenAlphaIsSigned(math, s);
  }

  /** As written, a well-formed string followed by a line feed is accepted, with the same
      channels and alpha 1: eight digits lose their alpha byte. */
  lemma TrailingNewlineAccepted<N>(math: Conversions<N>, s: string)
    requires ColorShape(s)
    ensures ParseColorString(math, s + "\n").Success?
    ensures ParseColorString(math, s + "\n").value.rgb == ParseColorString(math, s).value.rgb
    ensures ParseColorString(math, s + "\n").value.alpha == math.one
  {
    var t := s + "\n";
    assert t[..|t| - 1] == s;
    PayloadBeforeNewline(t);
    var u, u2 := Payload(s), Payload(t);
    assert u2[0] == u[0] && u2[2] == u[2] && u2[4] == u[4];
  }

  /** Corrected: nothing may follow the digits, so a trailing line feed is a format error. */
  lemma FixedRejectsNewline<N>(math: Conversions<N>, s: string)
    requires ColorShape(s)
    ensures ParseColorStringFixed(math, s + "\n") == Failure(FormatException)
  {
    var t := s + "\n";
    assert t[..|t| - 1] == s;
    PayloadBeforeNewline(t);
  }

  /** Corrected: an alpha byte written as two hex digits reads back as its unsigned value
      over 255, for every byte. */
  lemma FixedAlphaRoundTrip<N>(math: Conversions<N>, r: SByte, g: SByte, b: SByte, a: SByte)
    ensures ColorShape(HexString(r, g, b) + Hex2(a))
    ensures ParseColorStringFixed(math, HexString(r, g, b) + Hex2(a))
      == Success(FromRgb(math, r, g, b, math.ratio255(Bits(a))))
  {
    var h := HexString(r, g, b);
    var s := h + Hex2(a);
    var u := Payload(s);
    assert u == Payload(h) + Hex2(a);
    assert forall i :: 0 <= i < 8 ==> IsHexDigit(u[i]) by {
      assert forall i :: 0 <= i < 6 ==> u[i] == Payload(h)[i];
      assert forall i :: 6 <= i < 8 ==> u[i] == Hex2(a)[i - 6];
    }
    assert u[..2] == Payload(h)[..2] && u[2..4] == Payload(h)[2..4] && u[4..6] == Payload(h)[4..6];
    assert u[6..] == Hex2(a);
    var c := ParseColorStringFixed(math, s).value;
    BitsInjective(c.rgb.r, r);
    BitsInjective(c.rgb.g, g);
    BitsInjective(c.rgb.b, b);
  }
}
