/** `Color.ToString(format)`: the template is rewritten into a composite format by the chain
    of replacements and then filled in with seventeen values of the colour. Values that are
    doubles are shown by a caller-supplied `show`, since their text depends on the culture. */
module ColorFormat {
  import opened Results
  import opened Text
  import opened SignedBytes
  import opened Templates
  import opened CompositeFormat
  import opened ColorModel

  /** The argument at position `i` of the `string.Format` call. In order: alpha; R, G, B as
      `X2`; R, G, B in decimal; the normalized Red, Green, Blue (`R / 255d`, ...); H, S, L;
      C, M, Y, K. */
  function FormatArg<N>(math: Conversions<N>, show: N -> string, c: Color<N>, i: nat): string
    requires i < ArgCount
  {
    match i
    case 0 => show(c.alpha)
    case 1 => Hex2(c.rgb.r)
    case 2 => Hex2(c.rgb.g)
    case 3 => Hex2(c.rgb.b)
    case 4 => Decimal(c.rgb.r)
    case 5 => Decimal(c.rgb.g)
    case 6 => Decimal(c.rgb.b)
    case 7 => show(math.ratio255(c.rgb.r))
    case 8 => show(math.ratio255(c.rgb.g))
    case 9 => show(math.ratio255(c.rgb.b))
    case 10 => show(c.hsl.h)
    case 11 => show(c.hsl.s)
    case 12 => show(c.hsl.l)
    case 13 => show(c.cmyk.c)
    case 14 => show(c.cmyk.m)
    case 15 => show(c.cmyk.y)
    case _ => show(c.cmyk.k)
  }

  /** All seventeen arguments; `ChannelArgs` and `ViewArgs` state their order. */
  function FormatArgs<N>(math: Conversions<N>, show: N -> string, c: Color<N>): (args: seq<string>)
    ensures |args| == ArgCount
  {
    seq(ArgCount, i requires 0 <= i < ArgCount => FormatArg(math, show, c, i))
  }

  /** Arguments 0 to 6 of the call: alpha, then R, G, B as `X2`, then R, G, B in decimal. */
  lemma ChannelArgs<N>(math: Conversions<N>, show: N -> string, c: Color<N>)
    ensures var args := FormatArgs(math, show, c);
      && args[0] == show(c.alpha)
      && args[1] == Hex2(c.rgb.r) && args[2] == Hex2(c.rgb.g) && args[3] == Hex2(c.rgb.b)
      && args[4] == Decimal(c.rgb.r) && args[5] == Decimal(c.rgb.g) && args[6] == Decimal(c.rgb.b)
  {
    var args := FormatArgs(math, show, c);
    assert args[0] == FormatArg(math, show, c, 0);
    assert args[1] == FormatArg(math, show, c, 1);
    assert args[2] == FormatArg(math, show, c, 2);
    assert args[3] == FormatArg(math, show, c, 3);
    assert args[4] == FormatArg(math, show, c, 4);
    assert args[5] == FormatArg(math, show, c, 5);
    assert args[6] == FormatArg(math, show, c, 6);
  }

  /** Arguments 7 to 16 of the call: the normalized Red, Green, Blue (`R / 255d`, ...), then
      H, S, L, then C, M, Y, K. */
  lemma ViewArgs<N>(math: Conversions<N>, show: N -> string, c: Color<N>)
    ensures var args := FormatArgs(math, show, c);
      && args[7] == show(math.ratio255(c.rgb.r)) && args[8] == show(math.ratio255(c.rgb.g))
      && args[9] == show(math.ratio255(c.rgb.b))
      && args[10] == show(c.hsl.h) && args[11] == show(c.hsl.s) && args[12] == show(c.hsl.l)
      && args[13] == show(c.cmyk.c) && args[14] == show(c.cmyk.m) && args[15] == show(c.cmyk.y)
      && args[16] == show(c.cmyk.k)
  {
    var args := FormatArgs(math, show, c);
    assert args[7] == FormatArg(math, show, c, 7);
    assert args[8] == FormatArg(math, show, c, 8);
    assert args[9] == FormatArg(math, show, c, 9);
    assert args[10] == FormatArg(math, show, c, 10);
    assert args[11] == FormatArg(math, show, c, 11);
    assert args[12] == FormatArg(math, show, c, 12);
    assert args[13] == FormatArg(math, show, c, 13);
    assert args[14] == FormatArg(math, show, c, 14);
    assert args[15] == FormatArg(math, show, c, 15);
    assert args[16] == FormatArg(math, show, c, 16);
  }

  /** `ToString(format)`. It never throws: a blank template gives the empty string, and any
      other template means its single left-to-right token reading with every token replaced by
      its value. */
  function ToString<N>(math: Conversions<N>, show: N -> string, c: Color<N>, t: string)
    : (r: Result<string, FormatError>)
    ensures IsNullOrWhiteSpace(t) ==> r == Success("")
    ensures !IsNullOrWhiteSpace(t) ==> r == Success(Expand(Tokenize(t), FormatArgs(math, show, c)))
  {
    if IsNullOrWhiteSpace(t) then Success("")
    else
      RewriteTokenizes(t);
      FormatRender(Tokenize(t), FormatArgs(math, show, c));
      Format(Rewrite(t), FormatArgs(math, show, c))
  }

  /** The parameterless `ToString()`, which uses the template "#RGBA". */
  function DefaultToString<N>(math: Conversions<N>, show: N -> string, c: Color<N>): (r: Result<string, FormatError>)
    ensures r == Success("#" + Hex2(c.rgb.r) + Hex2(c.rgb.g) + Hex2(c.rgb.b) + show(c.alpha))
  {
    var t := "#RGBA";
    HexTemplate(math, show, c, t);
    ToString(math, show, c, t)
  }

  /** Literal characters expand to themselves. */
  lemma {:induction false} ExpandLiteral(t: string, args: seq<string>)
    ensures ArgsBelow(Literal(t), |args|)
    ensures Expand(Literal(t), args) == t
    decreases |t|
  {
    if |t| > 0 {
      ExpandLiteral(t[1..], args);
      assert Literal(t)[1..] == Literal(t[1..]);
    }
  }

  /** A template with no token letters (and not blank) is reproduced as it is, braces
      included: the replacement chain doubles them and the formatter undoes that. */
  lemma LiteralTemplate<N>(math: Conversions<N>, show: N -> string, c: Color<N>, t: string)
    requires !IsNullOrWhiteSpace(t)
    requires forall i :: 0 <= i < |t| ==> !IsTokenLetter(t[i])
    ensures ToString(math, show, c, t) == Success(t)
  {
    TokenizeLiteral(t);
    ExpandLiteral(t, FormatArgs(math, show, c));
  }

  /** The token reading of "#RGBA": the hex channels, then the alpha. */
  lemma TokenizeHexTemplate(t: string)
    requires t == "#RGBA"
    ensures Tokenize(t) == [Chr('#'), Arg(1), Arg(2), Arg(3), Arg(0)]
  {
    assert Tokenize(t[4..]) == [Arg(0)];
    assert Tokenize(t[3..]) == [Arg(3)] + Tokenize(t[4..]);
    assert Tokenize(t[2..]) == [Arg(2)] + Tokenize(t[3..]);
    assert Tokenize(t[1..]) == [Arg(1)] + Tokenize(t[2..]);
    assert Tokenize(t) == [Chr('#')] + Tokenize(t[1..]);
  }

  /** The token reading of "RD-GD-BD": three decimal channels between dashes. */
  lemma TokenizeDecimalTemplate(t: string)
    requires t == "RD-GD-BD"
    ensures Tokenize(t) == [Arg(4), Chr('-'), Arg(5), Chr('-'), Arg(6)]
  {
    assert Tokenize(t[6..]) == [Arg(6)];
    assert Tokenize(t[5..]) == [Chr('-')] + Tokenize(t[6..]);
    assert Tokenize(t[3..]) == [Arg(5)] + Tokenize(t[5..]);
    assert Tokenize(t[2..]) == [Chr('-')] + Tokenize(t[3..]);
    assert Tokenize(t) == [Arg(4)] + Tokenize(t[2..]);
  }

  /** The pieces of "#RGBA" expanded over any seventeen arguments. */
  lemma ExpandHexPieces(args: seq<string>)
    requires |args| == ArgCount
    ensures ArgsBelow([Chr('#'), Arg(1), Arg(2), Arg(3), Arg(0)], |args|)
    ensures Expand([Chr('#'), Arg(1), Arg(2), Arg(3), Arg(0)], args) == "#" + args[1] + args[2] + args[3] + args[0]
  {
    ExpandFive(Chr('#'), Arg(1), Arg(2), Arg(3), Arg(0), args);
  }

  /** The pieces of "RD-GD-BD" expanded over any seventeen arguments. */
  lemma ExpandDecimalPieces(args: seq<string>)
    requires |args| == ArgCount
    ensures ArgsBelow([Arg(4), Chr('-'), Arg(5), Chr('-'), Arg(6)], |args|)
    ensures Expand([Arg(4), Chr('-'), Arg(5), Chr('-'), Arg(6)], args) == args[4] + "-" + args[5] + "-" + args[6]
  {
    ExpandFive(Arg(4), Chr('-'), Arg(5), Chr('-'), Arg(6), args);
  }

  /** "#RGBA" shows "#", the three channels in hex, then the alpha. */
  lemma HexTemplate<N>(math: Conversions<N>, show: N -> string, c: Color<N>, t: string)
    requires t == "#RGBA"
    ensures ToString(math, show, c, t)
      == Success("#" + Hex2(c.rgb.r) + Hex2(c.rgb.g) + Hex2(c.rgb.b) + show(c.alpha))
  {
    var ps := [Chr('#'), Arg(1), Arg(2), Arg(3), Arg(0)];
    assert !IsNullOrWhiteSpace(t) && Tokenize(t) == ps by {
      assert !IsWhiteSpace(t[0]);
      TokenizeHexTemplate(t);
    }
    HexExpansion(math, show, c);
  }

  lemma HexExpansion<N>(math: Conversions<N>, show: N -> string, c: Color<N>)
    ensures Expand([Chr('#'), Arg(1), Arg(2), Arg(3), Arg(0)], FormatArgs(math, show, c))
      == "#" + Hex2(c.rgb.r) + Hex2(c.rgb.g) + Hex2(c.rgb.b) + show(c.alpha)
  {
    var args := FormatArgs(math, show, c);
    ExpandHexPieces(args);
    ChannelArgs(math, show, c);
  }

  /** The two-letter decimal tokens win over the one-letter hex tokens they start with:
      "RD-GD-BD" shows the three channels in decimal. */
  lemma DecimalTemplate<N>(math: Conversions<N>, show: N -> string, c: Color<N>, t: string)
    requires t == "RD-GD-BD"
    ensures ToString(math, show, c, t)
      == Success(Decimal(c.rgb.r) + "-" + Decimal(c.rgb.g) + "-" + Decimal(c.rgb.b))
  {
    var ps := [Arg(4), Chr('-'), Arg(5), Chr('-'), Arg(6)];
    assert !IsNullOrWhiteSpace(t) && Tokenize(t) == ps by {
      assert !IsWhiteSpace(t[0]);
      TokenizeDecimalTemplate(t);
    }
    DecimalExpansion(math, show, c);
  }

  lemma DecimalExpansion<N>(math: Conversions<N>, show: N -> string, c: Color<N>)
    ensures Expand([Arg(4), Chr('-'), Arg(5), Chr('-'), Arg(6)], FormatArgs(math, show, c))
      == Decimal(c.rgb.r) + "-" + Decimal(c.rgb.g) + "-" + Decimal(c.rgb.b)
  {
    var args := FormatArgs(math, show, c);
    ExpandDecimalPieces(args);
    ChannelArgs(math, show, c);
  }

  /** The token reading of "#RGB": the three hex channels. */
  lemma TokenizeRgbTemplate(t: string)
    requires t == "#RGB"
    ensures Tokenize(t) == [Chr('#'), Arg(1), Arg(2), Arg(3)]
  {
    assert Tokenize(t[3..]) == [Arg(3)];
    assert Tokenize(t[2..]) == [Arg(2)] + Tokenize(t[3..]);
    assert Tokenize(t[1..]) == [Arg(1)] + Tokenize(t[2..]);
    assert Tokenize(t) == [Chr('#')] + Tokenize(t[1..]);
  }

  /** The pieces of "#RGB" expanded over any seventeen arguments. */
  lemma ExpandRgbPieces(args: seq<string>)
    requires |args| == ArgCount
    ensures ArgsBelow([Chr('#'), Arg(1), Arg(2), Arg(3)], |args|)
    ensures Expand([Chr('#'), Arg(1), Arg(2), Arg(3)], args) == "#" + args[1] + args[2] + args[3]
  {
    ExpandFour(Chr('#'), Arg(1), Arg(2), Arg(3), args);
  }

  /** "#RGB" shows "#" and the three channels as two upper-case hex digits each. */
  lemma RgbTemplate<N>(math: Conversions<N>, show: N -> string, c: Color<N>, t: string)
    requires t == "#RGB"
    ensures ToString(math, show, c, t) == Success("#" + Hex2(c.rgb.r) + Hex2(c.rgb.g) + Hex2(c.rgb.b))
  {
    var ps := [Chr('#'), Arg(1), Arg(2), Arg(3)];
    assert !IsNullOrWhiteSpace(t) && Tokenize(t) == ps by {
      assert !IsWhiteSpace(t[0]);
      TokenizeRgbTemplate(t);
    }
    RgbExpansion(math, show, c);
  }

  lemma RgbExpansion<N>(math: Conversions<N>, show: N -> string, c: Color<N>)
    ensures Expand([Chr('#'), Arg(1), Arg(2), Arg(3)], FormatArgs(math, show, c))
      == "#" + Hex2(c.rgb.r) + Hex2(c.rgb.g) + Hex2(c.rgb.b)
  {
    var args := FormatArgs(math, show, c);
    ExpandRgbPieces(args);
    ChannelArgs(math, show, c);
  }
}
