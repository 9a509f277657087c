# ColorUtils `Color` in Dafny

This project models the `Color` class of ColorUtils (`AndreasMichelisColorLib/Color.cs`) in Dafny, and proves properties of the model. A `Color` keeps three views of one colour:

- RGB, as three signed bytes;
- HSL, as doubles;
- CMYK, as doubles.

It also keeps a double alpha. The model covers three parts of the class.

- **State and setters** (`color_model.dfy`, module `ColorModel`).
  - Every constructor and property setter is a pure function on a `Color` record.
  - Writing a component recomputes the other two views from the written one, and nothing else changes.
  - The HSL recomputation throws `ArgumentOutOfRangeException` when the hue falls in none of its six sextants. By then the setter has already stored the new value, so a throwing write is a `Mutation.Threw` carrying the half-updated state.
  - The double arithmetic of `CalculateFromRgb`, `CalculateFromHsl` and `CalculateFromCmyk` is not modelled. It arrives as a `Conversions<N>` record of functions, with `N` standing for `double`, and every fact proved holds for any such routines.
- **Formatting** (`templates.dfy`, `composite_format.dfy`, `color_format.dfy`).
  - `ToString(format)` runs a chain of 36 `String.Replace` passes and then one `string.Format` call with 17 arguments. The chain is modelled literally (`Templates.Rewrite`).
  - The chain is proved equal to a single left-to-right tokenizer (`Templates.RewriteTokenizes`).
  - The composite formatter is an interpreter (`CompositeFormat.Format`). It is proved to succeed on every rewritten template, and to yield the template's meaning (`CompositeFormat.FormatRender`).
  - Together these give `ToString` a reading in terms of tokens: `ColorFormat.ToString`.
  - Double values are shown by a caller-supplied `show: N -> string`, since .NET formats them by culture.
  - `sbyte` values are formatted exactly: `X2` and decimal, in `signed_bytes.dfy`.
- **Parsing** (`color_parse.dfy`, module `ColorParse`).
  - The implicit conversion from a string: the regular-expression check, `TrimStart('#')`, and `sbyte.Parse(…, HexNumber)` on the slices the code takes.
  - `ParseColorString` is the conversion as written. `ParseColorStringFixed` is the reading that the pattern and the error message describe.
  - The three discrepancies between the two are listed under Findings.
  - The intended behaviour is what the error message at line 175 says: 6 (RGB) or 8 (RGBA) hex digits after an optional '#', so two digits per channel and nothing after them. The division by `255d` at line 183 puts the alpha byte in 0 to 255, so it is read unsigned. Where the code does otherwise, `ParseColorString` follows the code.

Supporting modules:

- `results.dfy` holds `Option` and `Result`.
- `text.dfy` holds character classes and decimal and hex digit strings.

## Model

| member | source | states |
|---|---|---|
| Templates.ReplaceAll | AndreasMichelisColorLib/Color.cs:193-229 | `String.Replace` with an ordinal pattern: it scans left to right, replaces each match, and resumes after it, so replacements never overlap and are never rescanned. It has no contract of its own. What it promises is proved in `ReplaceAllSkipsPrefix` and `ReplaceAllProvenance` for one call, and in `RewriteTokenizes` for the whole chain. |
| Templates.ReplaceAllProvenance | AndreasMichelisColorLib/Color.cs:193-229 | Every character that a `String.Replace` pass produces comes from its input or from the replacement. So a one-character pattern that is missing from its replacement does not occur anywhere in the result. |
| Templates.ReplaceAllSkipsPrefix | AndreasMichelisColorLib/Color.cs:193-229 | A prefix that contains no occurrence of the pattern's first character is copied unchanged, and the scan restarts exactly where the prefix ends. |
| Templates.Tokenize | AndreasMichelisColorLib/Color.cs:193-230 | The one-pass reading of a template only uses argument indices below 17, the number of arguments that `string.Format` receives. It never leaves a token letter behind as a literal character. |
| Templates.TokenizeLiteral | AndreasMichelisColorLib/Color.cs:193-230 | A template without any token letter is read as nothing but its own characters. |
| Templates.PassIndexInjective | AndreasMichelisColorLib/Color.cs:196-229 | No two letter passes replace the same token. |
| Templates.EscapeBraces | AndreasMichelisColorLib/Color.cs:194-195 | The first two passes double every brace of the template and leave every other character alone. |
| Templates.PassStep | AndreasMichelisColorLib/Color.cs:196-229 | Take a letter pass whose longer tokens that share its first letter have already been replaced. It turns exactly its own token into its format item and leaves the rest of the partly rewritten template unchanged. |
| Templates.Pass0 | AndreasMichelisColorLib/Color.cs:196 | The `Replace("A", "{0}")` pass turns every `A` that is still a literal into the item {0}, and nothing else. |
| Templates.Pass1 | AndreasMichelisColorLib/Color.cs:197 | The `Replace("a", "{0}")` pass turns every `a` that is still a literal into the item {0}, and nothing else. |
| Templates.Pass2 | AndreasMichelisColorLib/Color.cs:198 | The `Replace("RD", "{4}")` pass turns every `RD` that is still a literal into the item {4}, and nothing else. |
| Templates.Pass3 | AndreasMichelisColorLib/Color.cs:199 | The `Replace("GD", "{5}")` pass turns every `GD` that is still a literal into the item {5}, and nothing else. |
| Templates.Pass4 | AndreasMichelisColorLib/Color.cs:200 | The `Replace("BD", "{6}")` pass turns every `BD` that is still a literal into the item {6}, and nothing else. |
| Templates.Pass5 | AndreasMichelisColorLib/Color.cs:201 | The `Replace("Rd", "{4}")` pass turns every `Rd` that is still a literal into the item {4}, and nothing else. |
| Templates.Pass6 | AndreasMichelisColorLib/Color.cs:202 | The `Replace("Gd", "{5}")` pass turns every `Gd` that is still a literal into the item {5}, and nothing else. |
| Templates.Pass7 | AndreasMichelisColorLib/Color.cs:203 | The `Replace("Bd", "{6}")` pass turns every `Bd` that is still a literal into the item {6}, and nothing else. |
| Templates.Pass8 | AndreasMichelisColorLib/Color.cs:204 | The `Replace("R", "{1}")` pass turns every `R` that is still a literal into the item {1}, and nothing else. |
| Templates.Pass9 | AndreasMichelisColorLib/Color.cs:205 | The `Replace("G", "{2}")` pass turns every `G` that is still a literal into the item {2}, and nothing else. |
| Templates.Pass10 | AndreasMichelisColorLib/Color.cs:206 | The `Replace("B", "{3}")` pass turns every `B` that is still a literal into the item {3}, and nothing else. |
| Templates.Pass11 | AndreasMichelisColorLib/Color.cs:207 | The `Replace("rd", "{4}")` pass turns every `rd` that is still a literal into the item {4}, and nothing else. |
| Templates.Pass12 | AndreasMichelisColorLib/Color.cs:208 | The `Replace("gd", "{5}")` pass turns every `gd` that is still a literal into the item {5}, and nothing else. |
| Templates.Pass13 | AndreasMichelisColorLib/Color.cs:209 | The `Replace("bd", "{6}")` pass turns every `bd` that is still a literal into the item {6}, and nothing else. |
| Templates.Pass14 | AndreasMichelisColorLib/Color.cs:210 | The `Replace("rD", "{4}")` pass turns every `rD` that is still a literal into the item {4}, and nothing else. |
| Templates.Pass15 | AndreasMichelisColorLib/Color.cs:211 | The `Replace("gD", "{5}")` pass turns every `gD` that is still a literal into the item {5}, and nothing else. |
| Templates.Pass16 | AndreasMichelisColorLib/Color.cs:212 | The `Replace("bD", "{6}")` pass turns every `bD` that is still a literal into the item {6}, and nothing else. |
| Templates.Pass17 | AndreasMichelisColorLib/Color.cs:213 | The `Replace("r", "{7}")` pass turns every `r` that is still a literal into the item {7}, and nothing else. |
| Templates.Pass18 | AndreasMichelisColorLib/Color.cs:214 | The `Replace("g", "{8}")` pass turns every `g` that is still a literal into the item {8}, and nothing else. |
| Templates.Pass19 | AndreasMichelisColorLib/Color.cs:215 | The `Replace("b", "{9}")` pass turns every `b` that is still a literal into the item {9}, and nothing else. |
| Templates.Pass20 | AndreasMichelisColorLib/Color.cs:216 | The `Replace("H", "{10}")` pass turns every `H` that is still a literal into the item {10}, and nothing else. |
| Templates.Pass21 | AndreasMichelisColorLib/Color.cs:217 | The `Replace("S", "{11}")` pass turns every `S` that is still a literal into the item {11}, and nothing else. |
| Templates.Pass22 | AndreasMichelisColorLib/Color.cs:218 | The `Replace("L", "{12}")` pass turns every `L` that is still a literal into the item {12}, and nothing else. |
| Templates.Pass23 | AndreasMichelisColorLib/Color.cs:219 | The `Replace("h", "{10}")` pass turns every `h` that is still a literal into the item {10}, and nothing else. |
| Templates.Pass24 | AndreasMichelisColorLib/Color.cs:220 | The `Replace("s", "{11}")` pass turns every `s` that is still a literal into the item {11}, and nothing else. |
| Templates.Pass25 | AndreasMichelisColorLib/Color.cs:221 | The `Replace("l", "{12}")` pass turns every `l` that is still a literal into the item {12}, and nothing else. |
| Templates.Pass26 | AndreasMichelisColorLib/Color.cs:222 | The `Replace("C", "{13}")` pass turns every `C` that is still a literal into the item {13}, and nothing else. |
| Templates.Pass27 | AndreasMichelisColorLib/Color.cs:223 | The `Replace("M", "{14}")` pass turns every `M` that is still a literal into the item {14}, and nothing else. |
| Templates.Pass28 | AndreasMichelisColorLib/Color.cs:224 | The `Replace("Y", "{15}")` pass turns every `Y` that is still a literal into the item {15}, and nothing else. |
| Templates.Pass29 | AndreasMichelisColorLib/Color.cs:225 | The `Replace("K", "{16}")` pass turns every `K` that is still a literal into the item {16}, and nothing else. |
| Templates.Pass30 | AndreasMichelisColorLib/Color.cs:226 | The `Replace("c", "{13}")` pass turns every `c` that is still a literal into the item {13}, and nothing else. |
| Templates.Pass31 | AndreasMichelisColorLib/Color.cs:227 | The `Replace("m", "{14}")` pass turns every `m` that is still a literal into the item {14}, and nothing else. |
| Templates.Pass32 | AndreasMichelisColorLib/Color.cs:228 | The `Replace("y", "{15}")` pass turns every `y` that is still a literal into the item {15}, and nothing else. |
| Templates.Pass33 | AndreasMichelisColorLib/Color.cs:229 | The `Replace("k", "{16}")` pass turns every `k` that is still a literal into the item {16}, and nothing else. |
| Templates.PartialComplete | AndreasMichelisColorLib/Color.cs:196-229 | Once all 34 letter passes have run, the partly rewritten template is exactly the one-pass reading. |
| Templates.Rewrite | AndreasMichelisColorLib/Color.cs:193-230 | The chain of 36 `Replace` calls, in the source's order. It has no contract of its own. What it promises is proved in `RewriteTokenizes` (it writes out the one-pass token reading) and `NoTokenLetterSurvives`. |
| Templates.RewriteTokenizes | AndreasMichelisColorLib/Color.cs:193-230 | The chain of 36 `Replace` calls writes out exactly the one-pass, left-to-right reading of the template, with literal braces doubled. |
| Templates.NoTokenLetterSurvives | AndreasMichelisColorLib/Color.cs:193-230 | No token letter is left in the template after the replacement chain. |
| CompositeFormat.Format | AndreasMichelisColorLib/Color.cs:232 | `string.Format` read left to right over doubled braces, `{n}` items and plain characters, failing with `FormatException` otherwise. It has no contract of its own. What it promises is proved in `FormatItem`, `FormatRender` and `FormatWithoutBraces`. |
| CompositeFormat.FormatItem | AndreasMichelisColorLib/Color.cs:232 | `{n}` becomes the n-th argument. An index past the last argument is a `FormatException`. |
| CompositeFormat.FormatRender | AndreasMichelisColorLib/Color.cs:193-232 | Formatting a rewritten template succeeds exactly when each of its items has an argument. On success the result is the template's meaning: characters stand for themselves and items for their arguments. |
| CompositeFormat.FormatWithoutBraces | AndreasMichelisColorLib/Color.cs:232 | A format string with no braces comes back unchanged. |
| SignedBytes.Hex2 | AndreasMichelisColorLib/Color.cs:232 | `sbyte.ToString("X2")` gives exactly two upper-case hex digits, and their value is the byte's two's-complement bit pattern. |
| SignedBytes.Decimal | AndreasMichelisColorLib/Color.cs:232 | `sbyte.ToString()` gives at most four characters. It starts with '-' exactly when the value is negative, and reading it back gives the value. The digits have no leading zero, so there is no "0127" and no "-0": a first digit of '0' is the whole spelling of zero. |
| SignedBytes.ParseHexSByte | AndreasMichelisColorLib/Color.cs:177-183 | `sbyte.Parse(s, HexNumber)` succeeds exactly on a non-empty string of hex digits whose value is below 256, and the result has that bit pattern. A larger value is an overflow, and anything else is a format error. |
| SignedBytes.SingleHexDigit | AndreasMichelisColorLib/Color.cs:177-179 | A one-digit slice always parses, to the digit's value from 0 to 15. |
| SignedBytes.TwoHexDigits | AndreasMichelisColorLib/Color.cs:183 | Two hex digits always parse. The result is negative exactly when the first digit is 8 to F. |
| SignedBytes.Hex2RoundTrip | AndreasMichelisColorLib/Color.cs:177-183 | Hex parsing reads back every signed byte that `X2` wrote. |
| ColorFormat.FormatArgs | AndreasMichelisColorLib/Color.cs:232 | The `string.Format` call passes exactly 17 arguments. `ChannelArgs` and `ViewArgs` state what each one is. |
| ColorFormat.ChannelArgs | AndreasMichelisColorLib/Color.cs:232 | Arguments 0 to 6 are the alpha, then R, G and B as `X2`, then R, G and B in decimal. |
| ColorFormat.ViewArgs | AndreasMichelisColorLib/Color.cs:232 | Arguments 7 to 16 are `Red`, `Green` and `Blue` (each channel divided by 255), then H, S, L, then C, M, Y, K. |
| Text.IsNullOrWhiteSpace | AndreasMichelisColorLib/Color.cs:192 | `string.IsNullOrWhiteSpace` for a non-null string: true when every character is .NET white space, including for the empty string. It has no contract of its own. `ColorFormat.ToString` states that such a template gives "", and `ColorFormat.LiteralTemplate` relies on the opposite case. |
| ColorFormat.ToString | AndreasMichelisColorLib/Color.cs:190-233 | `ToString(format)` never throws. A blank template gives "". Any other template gives its one-pass token reading, with each token replaced by the value it names. |
| ColorFormat.DefaultToString | AndreasMichelisColorLib/Color.cs:188 | `ToString()` gives "#", the R, G and B channels as two hex digits each, and then the alpha. |
| ColorFormat.LiteralTemplate | AndreasMichelisColorLib/Color.cs:190-233 | A non-blank template without token letters is reproduced unchanged, braces included. |
| ColorFormat.HexTemplate | AndreasMichelisColorLib/Color.cs:188-232 | "#RGBA" gives "#", R, G and B in hex, and then the alpha. |
| ColorFormat.DecimalTemplate | AndreasMichelisColorLib/Color.cs:198-232 | "RD-GD-BD" gives the three channels in decimal, because each two-letter decimal token is replaced before its first letter is. |
| ColorFormat.RgbTemplate | AndreasMichelisColorLib/Color.cs:204-232 | "#RGB" gives "#" and the three channels as two upper-case hex digits each. |
| ColorModel.RecalculateFromRgb | AndreasMichelisColorLib/Color.cs:235-266 | `CalculateFromRgb` writes only the HSL and CMYK views, and leaves them equal to what the RGB view determines. Alpha and RGB are kept. |
| ColorModel.RecalculateFromCmyk | AndreasMichelisColorLib/Color.cs:302-331 | `CalculateFromCmyk` writes only the RGB and HSL views, and leaves them equal to what the CMYK view determines. Alpha and CMYK are kept. |
| ColorModel.RecalculateFromHsl | AndreasMichelisColorLib/Color.cs:268-300 | `CalculateFromHsl` throws `ArgumentOutOfRangeException` exactly when the hue falls in none of the six sextants, and then it has written nothing. Otherwise it writes only the RGB and CMYK views, derived from HSL. |
| ColorModel.FromRgb | AndreasMichelisColorLib/Color.cs:139-146 | The RGB constructor stores the given channels and alpha. The other two views are derived from RGB. |
| ColorModel.Default | AndreasMichelisColorLib/Color.cs:132-137 | The parameterless constructor gives opaque black (alpha 1, RGB 0,0,0), with the other views derived from RGB. |
| ColorModel.FromHsl | AndreasMichelisColorLib/Color.cs:148-155 | The HSL constructor fails exactly when the hue is out of range, and the failure is `ArgumentOutOfRangeException`. On success it stores the given H, S, L and alpha, and derives the other views. |
| ColorModel.FromCmyk | AndreasMichelisColorLib/Color.cs:157-165 | The CMYK constructor stores the given C, M, Y, K and alpha. The other views are derived from CMYK. |
| ColorModel.SetAlpha | AndreasMichelisColorLib/Color.cs:28 | The `Alpha` auto-property changes alpha and nothing else. |
| ColorModel.SetR | AndreasMichelisColorLib/Color.cs:31-39 | Writing R stores it, keeps the other two channels and alpha, and makes HSL and CMYK follow the new RGB. |
| ColorModel.SetG | AndreasMichelisColorLib/Color.cs:42-50 | Writing G stores it, keeps the other two channels and alpha, and makes HSL and CMYK follow the new RGB. |
| ColorModel.SetB | AndreasMichelisColorLib/Color.cs:53-61 | Writing B stores it, keeps the other two channels and alpha, and makes HSL and CMYK follow the new RGB. |
| ColorModel.SetC | AndreasMichelisColorLib/Color.cs:65-73 | Writing C stores it, keeps the other CMYK components and alpha, and makes RGB and HSL follow the new CMYK. |
| ColorModel.SetM | AndreasMichelisColorLib/Color.cs:74-82 | Writing M stores it, keeps the other CMYK components and alpha, and makes RGB and HSL follow the new CMYK. |
| ColorModel.SetY | AndreasMichelisColorLib/Color.cs:83-91 | Writing Y stores it, keeps the other CMYK components and alpha, and makes RGB and HSL follow the new CMYK. |
| ColorModel.SetK | AndreasMichelisColorLib/Color.cs:92-100 | Writing K stores it, keeps the other CMYK components and alpha, and makes RGB and HSL follow the new CMYK. |
| ColorModel.SetH | AndreasMichelisColorLib/Color.cs:103-111 | Writing H throws `ArgumentOutOfRangeException` exactly when the new hue is out of range. Either way the new hue stays stored. On a throw, RGB and CMYK keep their old values, so RGB and CMYK are no longer derived from HSL. |
| ColorModel.SetS | AndreasMichelisColorLib/Color.cs:112-120 | Writing S stores it. Whether the write throws depends only on the stored hue, and what it throws is `ArgumentOutOfRangeException`. On a throw, RGB and CMYK are kept. |
| ColorModel.SetL | AndreasMichelisColorLib/Color.cs:121-129 | Writing L stores it. Whether the write throws depends only on the stored hue, and what it throws is `ArgumentOutOfRangeException`. On a throw, RGB and CMYK are kept. |
| ColorModel.RgbWriteForgetsHistory | AndreasMichelisColorLib/Color.cs:31-61 | After R, G or B is written, the object equals the one that `FromRgb` builds from the new channels and the old alpha. |
| ColorModel.CmykWriteForgetsHistory | AndreasMichelisColorLib/Color.cs:65-100 | After C, M, Y or K is written, the object equals the one that `FromCmyk` builds from the new components and the old alpha. |
| ColorModel.HslWriteForgetsHistory | AndreasMichelisColorLib/Color.cs:103-129 | A completed H, S or L write leaves the object that `FromHsl` builds from the new triple and the old alpha. |
| ColorModel.AlphaCommutes | AndreasMichelisColorLib/Color.cs:28-129 | Writing alpha commutes with each of the ten component writes (R, G, B, C, M, Y, K, H, S, L). It does not change whether an H, S or L write throws. |
| ColorModel.RewriteIsFixedPoint | AndreasMichelisColorLib/Color.cs:31-129 | Once the views agree, writing any of the ten components its current value changes nothing. An H, S or L write of that kind completes without throwing. |
| ColorModel.FailedHueWritePersists | AndreasMichelisColorLib/Color.cs:103-129 | After an H write throws, every later S or L write throws too, and RGB and CMYK are no longer derived from HSL. |
| ColorParse.MatchesColorPattern | AndreasMichelisColorLib/Color.cs:13 | What `^(#)?[0-9a-fA-F]{6}([0-9a-fA-F]{2})?$` matches in .NET: an optional '#', then 6 or 8 hex digits, then optionally one final line feed. It has no contract of its own. `ParseColorString` states that the conversion succeeds exactly on these strings, and `TrailingNewlineAccepted` shows what the line-feed case does. |
| ColorParse.TrimStart | AndreasMichelisColorLib/Color.cs:176 | `TrimStart('#')` removes every leading '#' and nothing else. |
| ColorParse.TrimHash | AndreasMichelisColorLib/Color.cs:176 | Before a hex digit, `TrimStart('#')` removes exactly the optional '#'. |
| ColorParse.TrimmedColor | AndreasMichelisColorLib/Color.cs:171-176 | For a string the pattern accepts, the trimmed string is its payload: six hex digits come first. It is eight hex digits long exactly when the whole string is '#' plus eight digits, or just eight digits. |
| ColorParse.ParseChannel | AndreasMichelisColorLib/Color.cs:177-183 | `sbyte.Parse` with its errors named as they escape the conversion. It succeeds exactly when the hex parse does, with the same value. A format error escapes as `FormatException` and an overflow as `OverflowException`. |
| ColorParse.SingleDigitChannels | AndreasMichelisColorLib/Color.cs:177-179 | The slices `[..1]`, `[2..3]` and `[4..5]` parse to the single digits at positions 0, 2 and 4. |
| ColorParse.ParseColorString | AndreasMichelisColorLib/Color.cs:171-186 | The conversion succeeds exactly when .NET's regex `$` accepts the string (a final line feed included), and otherwise throws `FormatException`. On success the colour is built from the single digits at positions 0, 2 and 4. Alpha is the signed last byte over 255 when there are eight digits, and 1 otherwise. |
| ColorParse.ParseColorStringFixed | AndreasMichelisColorLib/Color.cs:171-186 | The corrected conversion succeeds exactly on an optional '#' followed by 6 or 8 hex digits, with nothing after them. Each channel comes from two digits, and alpha is the unsigned last byte over 255. |
| ColorParse.HexString | AndreasMichelisColorLib/Color.cs:204-232 | What `ToString("#RGB")` writes is a well-formed colour string whose digit pairs are the channels in X2. |
| ColorParse.SameRgbSameColor | AndreasMichelisColorLib/Color.cs:139-146 | Two colours built from RGB with equal channels and alpha are equal. |
| ColorParse.FixedRoundTrip | AndreasMichelisColorLib/Color.cs:171-232 | `ToString("#RGB")` gives `HexString` of the channels. The corrected conversion reads that string back as the same channels, negative ones included, with alpha 1. |
| ColorParse.AsWrittenReadsHighDigits | AndreasMichelisColorLib/Color.cs:177-179 | As written, reading back what `ToString("#RGB")` writes keeps only the high hex digit of each channel. The round trip gives the colour back only when all three channels are 0. |
| ColorParse.AsWrittenMisreadsExample | AndreasMichelisColorLib/Color.cs:177-179 | "#FF8000" (R=-1, G=-128, B=0 in X2) is read as R=15, G=8, B=0 as written, and as R=-1, G=-128, B=0 when corrected. |
| ColorParse.AsWrittenChannelsBelow16 | AndreasMichelisColorLib/Color.cs:177-179 | As written, every channel of a converted colour lies in 0..15. |
| ColorParse.AsWrittenIgnoresOddDigits | AndreasMichelisColorLib/Color.cs:177-183 | As written, strings that differ only in the payload digits at positions 1, 3 and 5 convert to the same colour. |
| ColorParse.AsWrittenAlphaIsSigned | AndreasMichelisColorLib/Color.cs:183 | As written, an alpha byte of 128 or more gives a negative numerator, while the corrected conversion keeps 0..255. |
| ColorParse.AsWrittenAlphaExample | AndreasMichelisColorLib/Color.cs:183 | "#000000FF" has alpha -1/255 as written and 255/255 when corrected. |
| ColorParse.TrailingNewlineAccepted | AndreasMichelisColorLib/Color.cs:173-183 | As written, a well-formed string followed by a line feed is accepted. It keeps the same channels, but alpha becomes 1, so eight digits lose their alpha byte. |
| ColorParse.FixedRejectsNewline | AndreasMichelisColorLib/Color.cs:13 | Corrected, a trailing line feed is a `FormatException`. |
| ColorParse.FixedAlphaRoundTrip | AndreasMichelisColorLib/Color.cs:181-183 | Corrected, `HexString` plus two X2 alpha digits reads back as the same channels, with alpha equal to the unsigned byte over 255. |

## Left out

- The double arithmetic of `CalculateFromRgb`, `CalculateFromHsl` and `CalculateFromCmyk` (lines 235-331) is not modelled. `Conversions` supplies each routine's result, and `hueInRange` says whether `_Hue % 360d` lands in a sextant. The model proves which fields each routine writes and when it throws, not the values it computes. The same applies to the `(sbyte)` casts of doubles at lines 287-289 and 310.
- The normalized properties `Red`, `Green` and `Blue` (lines 40, 51, 62) are left out. Their getters appear only as the format arguments 7-9 (`ratio255`). Their setters convert a double to `sbyte`, which belongs to the unmodelled floating-point arithmetic.
- Culture-dependent formatting of doubles is left out. `show` stands for it. `sbyte.ToString()` is modelled with '-' as the negative sign.
- The regular-expression engine is not modelled. `MatchesColorPattern` states what the one pattern at line 13 accepts, including .NET's rule that `$` also matches before a final line feed.
- The `a = 1d` default arguments of the static `FromRgb`, `FromHsl` and `FromCmyk` (lines 167-169) are not separate members: a call without alpha is modelled as passing `math.one` for `a`.
- `null` strings are left out: the conversion would throw `ArgumentNullException`, and `ToString(null)` returns "". Dafny strings are never null.
- .NET strings are sequences of UTF-16 code units, and Dafny strings are sequences of Unicode scalar values. None of the proved facts depends on characters outside the Basic Multilingual Plane.
- `CompositeFormat.Format` does not read alignment or format specifiers inside an item (`{0,5}`, `{0:X}`), nor the white space .NET allows after an item index (`{0 }`); it treats all of them as a `FormatException`. The rewritten templates never contain them, because every user brace is doubled first.
- The whitespace and sign handling of `sbyte.Parse` with `NumberStyles.HexNumber` is left out. The conversion only ever passes it hex digits.

## Findings

| source | as written | input that shows it | evidently intended | confidence | as-written member | corrected member |
|---|---|---|---|---|---|---|
| AndreasMichelisColorLib/Color.cs:177-179 | each channel is parsed from a one-character slice (`s[..1]`, `s[2..3]`, `s[4..5]`), so it gets only the high hex digit | "#FF8000", which `ToString("#RGB")` writes for R=-1, G=-128, B=0, is read as R=15, G=8, B=0 | each channel is read from two digits (`s[..2]`, `s[2..4]`, `s[4..6]`), so the `#RGB` round trip holds | not executed | ColorParse.AsWrittenMisreadsExample | ColorParse.FixedRoundTrip |
| AndreasMichelisColorLib/Color.cs:183 | the alpha byte is parsed as `sbyte`, so the digits 80 to FF give a negative alpha | "#000000FF" gives alpha -1/255 | the alpha byte is read unsigned (0 to 255) and divided by 255, so FF means fully opaque | not executed | ColorParse.AsWrittenAlphaExample | ColorParse.FixedAlphaRoundTrip |
| AndreasMichelisColorLib/Color.cs:13 | `$` also matches before a final line feed. The trimmed string is then 7 or 9 characters long, so an 8-digit alpha is silently dropped | "#000000FF\n" is accepted, with alpha 1 | a trailing line feed is rejected like any other extra character (a `\z` anchor) | not executed | ColorParse.TrailingNewlineAccepted | ColorParse.FixedRejectsNewline |
