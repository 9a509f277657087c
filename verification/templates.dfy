/** The format-template rewriting of `Color.ToString(string)`: a fixed chain of
    `String.Replace` passes that turns a user template into a .NET composite-format
    string with placeholders {0}..{16}.

    The chain is modelled literally (`Rewrite`). Beside it stands a single left-to-right
    tokenizer (`Tokenize`) that recognises the longest token at each position, and
    `RewriteTokenizes` proves that the chain renders exactly the tokenizer's output. */
module Templates {
  import opened Text

  /** `String.Replace(pat, rep)` with ordinal comparison: scan left to right and replace
      every non-overlapping occurrence of pat. (.NET rejects an empty pat; every pass here
      uses a non-empty one.) */
  function ReplaceAll(s: string, pat: string, rep: string): string
    requires |pat| > 0
    decreases |s|
  {
    if |s| == 0 then ""
    else if pat <= s then rep + ReplaceAll(s[|pat|..], pat, rep)
    else [s[0]] + ReplaceAll(s[1..], pat, rep)
  }

  /** Every character of the result comes from the input or from the replacement; so a
      one-character pattern whose replacement does not contain it is gone afterwards. */
  lemma {:induction false} ReplaceAllProvenance(s: string, pat: string, rep: string)
    requires |pat| > 0
    ensures forall i :: 0 <= i < |ReplaceAll(s, pat, rep)| ==>
      ReplaceAll(s, pat, rep)[i] in s || ReplaceAll(s, pat, rep)[i] in rep
    ensures |pat| == 1 && pat[0] !in rep ==> pat[0] !in ReplaceAll(s, pat, rep)
    decreases |s|
  {
    if |s| > 0 {
      var r := ReplaceAll(s, pat, rep);
      if pat <= s {
        var rest := ReplaceAll(s[|pat|..], pat, rep);
        ReplaceAllProvenance(s[|pat|..], pat, rep);
        assert r == rep + rest;
        forall i | 0 <= i < |r| && r[i] !in rep
          ensures r[i] in s
        {
          assert r[i] == rest[i - |rep|] && rest[i - |rep|] in s[|pat|..];
        }
      } else {
        var rest := ReplaceAll(s[1..], pat, rep);
        ReplaceAllProvenance(s[1..], pat, rep);
        assert r == [s[0]] + rest;
        forall i | 0 <= i < |r| && r[i] !in rep
          ensures r[i] in s
        {
          if i > 0 {
            assert r[i] == rest[i - 1] && rest[i - 1] in s[1..];
          }
        }
      }
    }
  }

  /** A prefix that holds no occurrence of the pattern's first character passes through
      unchanged, and the scan resumes exactly at its end. */
  lemma {:induction false} ReplaceAllSkipsPrefix(a: string, b: string, pat: string, rep: string)
    requires |pat| > 0 && pat[0] !in a
    ensures ReplaceAll(a + b, pat, rep) == a + ReplaceAll(b, pat, rep)
    decreases |a|
  {
    if |a| > 0 {
      assert (a + b)[0] == a[0] != pat[0];
      assert (a + b)[1..] == a[1..] + b;
      ReplaceAllSkipsPrefix(a[1..], b, pat, rep);
      assert a == [a[0]] + a[1..];
    } else {
      assert a + b == b;
    }
  }

  // ---------------------------------------------------------------------------
  // Tokens and placeholders

  /** The 22 letters the template language gives a meaning to. */
  predicate IsTokenLetter(c: char) {
    || c == 'A' || c == 'a'
    || c == 'R' || c == 'G' || c == 'B' || c == 'r' || c == 'g' || c == 'b'
    || c == 'H' || c == 'S' || c == 'L' || c == 'h' || c == 's' || c == 'l'
    || c == 'C' || c == 'M' || c == 'Y' || c == 'K' || c == 'c' || c == 'm' || c == 'y' || c == 'k'
  }

  /** First letters of the two-letter decimal tokens (RD, Gd, bD, ...). */
  predicate IsDecimalHead(c: char) {
    c == 'R' || c == 'G' || c == 'B' || c == 'r' || c == 'g' || c == 'b'
  }

  predicate IsDecimalTail(c: char) {
    c == 'D' || c == 'd'
  }

  /** Argument index a one-letter token stands for in the `string.Format` call. */
  function LetterArg(c: char): (n: nat)
    ensures n < ArgCount
  {
    match c
    case 'A' => 0 case 'a' => 0
    case 'R' => 1 case 'G' => 2 case 'B' => 3
    case 'r' => 7 case 'g' => 8 case 'b' => 9
    case 'H' => 10 case 'h' => 10
    case 'S' => 11 case 's' => 11
    case 'L' => 12 case 'l' => 12
    case 'C' => 13 case 'c' => 13
    case 'M' => 14 case 'm' => 14
    case 'Y' => 15 case 'y' => 15
    case 'K' => 16 case 'k' => 16
    case _ => 0
  }

  /** Argument index of a two-letter decimal token, by its first letter. */
  function DecimalArg(c: char): (n: nat)
    ensures 4 <= n <= 6
  {
    if c == 'R' || c == 'r' then 4 else if c == 'G' || c == 'g' then 5 else 6
  }

  /** Number of arguments the `string.Format` call passes. */
  const ArgCount: nat := 17

  /** A piece of a composite-format string: a literal character or a format item {n}. */
  datatype Piece = Chr(c: char) | Arg(index: nat)

  /** The format item {n}. */
  function Placeholder(n: nat): (s: string)
    ensures |s| >= 3 && s[0] == '{' && s[|s| - 1] == '}'
    ensures forall i :: 0 <= i < |s| ==> !IsAsciiLetter(s[i])
  {
    var d := DecimalDigits(n);
    var s := "{" + d + "}";
    assert forall i :: 1 <= i < |s| - 1 ==> s[i] == d[i - 1];
    s
  }

  /** How a piece is written in a composite-format string: literal braces doubled. */
  function RenderPiece(p: Piece): (s: string)
    ensures |s| > 0
    ensures p.Chr? && IsAsciiLetter(p.c) ==> s == [p.c]
    ensures (p.Chr? && !IsAsciiLetter(p.c)) || p.Arg? ==> forall i :: 0 <= i < |s| ==> !IsAsciiLetter(s[i])
    ensures p.Arg? ==> s[0] == '{'
  {
    match p
    case Chr(c) => if c == '{' then "{{" else if c == '}' then "}}" else [c]
    case Arg(n) => Placeholder(n)
  }

  function Render(ps: seq<Piece>): string
  {
    if |ps| == 0 then "" else RenderPiece(ps[0]) + Render(ps[1..])
  }

  lemma RenderHead(ps: seq<Piece>)
    requires |ps| > 0
    ensures Render(ps) == RenderPiece(ps[0]) + Render(ps[1..])
  {
  }

  predicate ArgsBelow(ps: seq<Piece>, n: nat) {
    forall i :: 0 <= i < |ps| ==> Fits(ps[i], n)
  }

  /** A piece is usable with `n` arguments: it is a character or an item below `n`. */
  predicate Fits(p: Piece, n: nat) {
    p.Arg? ==> p.index < n
  }

  /** The single-pass reading of a template: at each position the two-letter decimal
      token if there is one, else a one-letter token, else the literal character. */
  function Tokenize(t: string): (ps: seq<Piece>)
    ensures ArgsBelow(ps, ArgCount)
    ensures forall i :: 0 <= i < |ps| ==> ps[i].Chr? ==> !IsTokenLetter(ps[i].c)
    ensures |ps| <= |t|
    decreases |t|
  {
    if |t| == 0 then []
    else if |t| >= 2 && IsDecimalHead(t[0]) && IsDecimalTail(t[1]) then
      [Arg(DecimalArg(t[0]))] + Tokenize(t[2..])
    else if IsTokenLetter(t[0]) then [Arg(LetterArg(t[0]))] + Tokenize(t[1..])
    else [Chr(t[0])] + Tokenize(t[1..])
  }

  /** A template without token letters is read as its own characters. */
  function Literal(t: string): (ps: seq<Piece>)
    ensures |ps| == |t|
    ensures forall i :: 0 <= i < |t| ==> ps[i] == Chr(t[i])
  {
    if |t| == 0 then [] else [Chr(t[0])] + Literal(t[1..])
  }

  lemma {:induction false} TokenizeLiteral(t: string)
    requires forall i :: 0 <= i < |t| ==> !IsTokenLetter(t[i])
    ensures Tokenize(t) == Literal(t)
    decreases |t|
  {
    if |t| > 0 {
      TokenizeLiteral(t[1..]);
    }
  }

  // ---------------------------------------------------------------------------
  // The chain of String.Replace passes, as written

  /** The rewrite chain of `ToString(string)`, pass by pass in the source's order. */
  function Rewrite(t: string): string
  {
    var s := ReplaceAll(t, "{", "{{");
    var s := ReplaceAll(s, "}", "}}");
    var s := ReplaceAll(s, "A", "{0}");
    var s := ReplaceAll(s, "a", "{0}");
    var s := ReplaceAll(s, "RD", "{4}");
    var s := ReplaceAll(s, "GD", "{5}");
    var s := ReplaceAll(s, "BD", "{6}");
    var s := ReplaceAll(s, "Rd", "{4}");
    var s := ReplaceAll(s, "Gd", "{5}");
    var s := ReplaceAll(s, "Bd", "{6}");
    var s := ReplaceAll(s, "R", "{1}");
    var s := ReplaceAll(s, "G", "{2}");
    var s := ReplaceAll(s, "B", "{3}");
    var s := ReplaceAll(s, "rd", "{4}");
    var s := ReplaceAll(s, "gd", "{5}");
    var s := ReplaceAll(s, "bd", "{6}");
    var s := ReplaceAll(s, "rD", "{4}");
    var s := ReplaceAll(s, "gD", "{5}");
    var s := ReplaceAll(s, "bD", "{6}");
    var s := ReplaceAll(s, "r", "{7}");
    var s := ReplaceAll(s, "g", "{8}");
    var s := ReplaceAll(s, "b", "{9}");
    var s := ReplaceAll(s, "H", "{10}");
    var s := ReplaceAll(s, "S", "{11}");
    var s := ReplaceAll(s, "L", "{12}");
    var s := ReplaceAll(s, "h", "{10}");
    var s := ReplaceAll(s, "s", "{11}");
    var s := ReplaceAll(s, "l", "{12}");
    var s := ReplaceAll(s, "C", "{13}");
    var s := ReplaceAll(s, "M", "{14}");
    var s := ReplaceAll(s, "Y", "{15}");
    var s := ReplaceAll(s, "K", "{16}");
    var s := ReplaceAll(s, "c", "{13}");
    var s := ReplaceAll(s, "m", "{14}");
    var s := ReplaceAll(s, "y", "{15}");
    ReplaceAll(s, "k", "{16}")
  }

  // ---------------------------------------------------------------------------
  // Why the chain equals the tokenizer

  /** One letter pass of the chain, as the token it replaces. */
  datatype Pattern = One(x: char) | Two(x: char, y: char)

  function PatternText(p: Pattern): string {
    match p
    case One(x) => [x]
    case Two(x, y) => [x, y]
  }

  predicate ValidPattern(p: Pattern) {
    match p
    case One(x) => IsTokenLetter(x)
    case Two(x, y) => IsDecimalHead(x) && IsDecimalTail(y)
  }

  function PatternArg(p: Pattern): nat {
    match p
    case One(x) => LetterArg(x)
    case Two(x, _) => DecimalArg(x)
  }

  /** Number of letter passes in the chain. */
  const PassCount: nat := 34

  /** Where a token's pass stands in the chain, counting from 0 after the two brace passes;
      `PassCount` for a pattern that is not a token. */
  function PassIndex(p: Pattern): (k: nat)
    ensures k <= PassCount
    ensures k < PassCount <==> ValidPattern(p)
  {
    match p
    case One(x) =>
      if x == 'A' then 0 else if x == 'a' then 1
      else if x == 'R' then 8 else if x == 'G' then 9 else if x == 'B' then 10
      else if x == 'r' then 17 else if x == 'g' then 18 else if x == 'b' then 19
      else if x == 'H' then 20 else if x == 'S' then 21 else if x == 'L' then 22
      else if x == 'h' then 23 else if x == 's' then 24 else if x == 'l' then 25
      else if x == 'C' then 26 else if x == 'M' then 27 else if x == 'Y' then 28 else if x == 'K' then 29
      else if x == 'c' then 30 else if x == 'm' then 31 else if x == 'y' then 32 else if x == 'k' then 33
      else PassCount
    case Two(x, y) =>
      var column := if x == 'R' || x == 'r' then 0 else if x == 'G' || x == 'g' then 1 else 2;
      if !(IsDecimalHead(x) && IsDecimalTail(y)) then PassCount
      else if x == 'R' || x == 'G' || x == 'B' then (if y == 'D' then 2 else 5) + column
      else (if y == 'd' then 11 else 14) + column
  }

  /** No two tokens share a pass. */
  lemma PassIndexInjective(p: Pattern, q: Pattern)
    requires PassIndex(p) == PassIndex(q) < PassCount
    ensures p == q
  {
  }

  /** The template as it stands once the braces are doubled and the first k letter passes
      have run: tokens whose pass has run are format items, the rest is literal. */
  function Partial(t: string, k: nat): (ps: seq<Piece>)
    ensures |t| > 0 ==> |ps| > 0 && (ps[0].Arg? || ps[0] == Chr(t[0]))
    decreases |t|
  {
    if |t| == 0 then []
    else if |t| >= 2 && PassIndex(Two(t[0], t[1])) < k then [Arg(PatternArg(Two(t[0], t[1])))] + Partial(t[2..], k)
    else if PassIndex(One(t[0])) < k then [Arg(PatternArg(One(t[0])))] + Partial(t[1..], k)
    else [Chr(t[0])] + Partial(t[1..], k)
  }

  /** The first two passes double every brace of the template. */
  lemma {:induction false} EscapeBraces(t: string)
    ensures ReplaceAll(ReplaceAll(t, "{", "{{"), "}", "}}") == Render(Partial(t, 0))
    decreases |t|
  {
    if |t| > 0 {
      var e := ReplaceAll(t[1..], "{", "{{");
      EscapeBraces(t[1..]);
      var tail := Render(Partial(t[1..], 0));
      assert ReplaceAll(e, "}", "}}") == tail;
      RenderHead(Partial(t, 0));
      assert Partial(t, 0)[1..] == Partial(t[1..], 0);
      if t[0] == '{' {
        assert ReplaceAll(t, "{", "{{") == "{{" + e;
        ReplaceAllSkipsPrefix("{{", e, "}", "}}");
      } else if t[0] == '}' {
        assert ReplaceAll(t, "{", "{{") == "}" + e;
        assert ("}" + e)[1..] == e;
      } else {
        assert ReplaceAll(t, "{", "{{") == [t[0]] + e;
        ReplaceAllSkipsPrefix([t[0]], e, "}", "}}");
      }
    }
  }

  /** What the k-th letter pass may assume: it replaces token p, and a two-letter token's
      pass runs before the pass of its first letter. */
  predicate PassReady(k: nat, p: Pattern) {
    && PassIndex(p) == k < PassCount
    && (p.Two? ==> PassIndex(One(p.x)) > k)
  }

  /** One letter pass turns the state before it into the state after it. */
  lemma {:induction false} PassStep(t: string, k: nat, p: Pattern, pat: string, rep: string)
    requires PassReady(k, p)
    requires pat == PatternText(p) && rep == Placeholder(PatternArg(p))
    ensures ReplaceAll(Render(Partial(t, k)), pat, rep) == Render(Partial(t, k + 1))
    decreases |t|
  {
    if |t| == 0 {
    } else if |t| >= 2 && PassIndex(Two(t[0], t[1])) < k + 1 {
      PassStep(t[2..], k, p, pat, rep);
      if PassIndex(Two(t[0], t[1])) < k {
        StepAtDoneItem(t, k, p, pat, rep);
      } else {
        PassIndexInjective(Two(t[0], t[1]), p);
        StepAtPairMatch(t, k, p, pat, rep);
      }
    } else {
      PassStep(t[1..], k, p, pat, rep);
      if PassIndex(One(t[0])) < k {
        StepAtDoneItem(t, k, p, pat, rep);
      } else if PassIndex(One(t[0])) == k {
        PassIndexInjective(One(t[0]), p);
        StepAtLetterMatch(t, k, p, pat, rep);
      } else {
        StepAtLiteral(t, k, p, pat, rep);
      }
    }
  }

  /** Every pass pattern is made of ASCII letters, so it never matches inside a format item
      or a doubled brace. */
  lemma PatternLetters(p: Pattern)
    requires ValidPattern(p)
    ensures |PatternText(p)| > 0
    ensures forall i :: 0 <= i < |PatternText(p)| ==> IsAsciiLetter(PatternText(p)[i])
  {
  }

  /** Rendering a piece in front of other pieces. */
  lemma RenderCons(x: Piece, rest: seq<Piece>)
    ensures Render([x] + rest) == RenderPiece(x) + Render(rest)
  {
    assert ([x] + rest)[1..] == rest;
  }

  /** At a token already turned into a format item, the pass copies the item. */
  lemma StepAtDoneItem(t: string, k: nat, p: Pattern, pat: string, rep: string)
    requires PassReady(k, p)
    requires pat == PatternText(p) && rep == Placeholder(PatternArg(p))
    requires |t| > 0 && Partial(t, k)[0].Arg?
    requires var n := if |t| >= 2 && PassIndex(Two(t[0], t[1])) < k then 2 else 1;
      ReplaceAll(Render(Partial(t[n..], k)), pat, rep) == Render(Partial(t[n..], k + 1))
    ensures ReplaceAll(Render(Partial(t, k)), pat, rep) == Render(Partial(t, k + 1))
  {
    PatternLetters(p);
    var pair := |t| >= 2 && PassIndex(Two(t[0], t[1])) < k;
    var n := if pair then 2 else 1;
    if !pair && |t| >= 2 && PassIndex(Two(t[0], t[1])) == k {
      PassIndexInjective(Two(t[0], t[1]), p);
    }
    var m := if pair then PatternArg(Two(t[0], t[1])) else PatternArg(One(t[0]));
    assert Partial(t, k) == [Arg(m)] + Partial(t[n..], k);
    assert Partial(t, k + 1) == [Arg(m)] + Partial(t[n..], k + 1);
    RenderCons(Arg(m), Partial(t[n..], k));
    RenderCons(Arg(m), Partial(t[n..], k + 1));
    ReplaceAllSkipsPrefix(Placeholder(m), Render(Partial(t[n..], k)), pat, rep);
  }

  /** The second letter of a two-letter token starts no token of its own. */
  lemma TailInert(c: char, t: string, k: nat)
    requires IsDecimalTail(c) && k < PassCount
    ensures Partial([c] + t, k) == [Chr(c)] + Partial(t, k)
  {
    assert ([c] + t)[1..] == t;
    assert PassIndex(One(c)) == PassCount;
    assert |[c] + t| >= 2 ==> PassIndex(Two(c, t[0])) == PassCount;
  }

  /** Before and after the pass, around the pass's own two-letter token. */
  lemma PairShape(t: string, k: nat, p: Pattern)
    requires PassReady(k, p)
    requires |t| >= 2 && Two(t[0], t[1]) == p
    ensures Partial(t, k) == [Chr(t[0])] + ([Chr(t[1])] + Partial(t[2..], k))
    ensures Partial(t, k + 1) == [Arg(PatternArg(p))] + Partial(t[2..], k + 1)
  {
    assert t[1..] == [t[1]] + t[2..];
    TailInert(t[1], t[2..], k);
  }

  /** Where the pass's own two-letter token starts, both letters become one item. */
  lemma StepAtPairMatch(t: string, k: nat, p: Pattern, pat: string, rep: string)
    requires PassReady(k, p)
    requires pat == PatternText(p) && rep == Placeholder(PatternArg(p))
    requires |t| >= 2 && Two(t[0], t[1]) == p
    requires ReplaceAll(Render(Partial(t[2..], k)), pat, rep) == Render(Partial(t[2..], k + 1))
    ensures ReplaceAll(Render(Partial(t, k)), pat, rep) == Render(Partial(t, k + 1))
  {
    var later := Partial(t[2..], k);
    PairShape(t, k, p);
    PairRender(t[0], t[1], later);
    ReplaceAtFront(pat, rep, Render(later));
    RenderCons(Arg(PatternArg(p)), Partial(t[2..], k + 1));
  }

  /** A two-letter token rendered in front of other pieces. */
  lemma PairRender(x: char, y: char, rest: seq<Piece>)
    requires IsDecimalHead(x) && IsDecimalTail(y)
    ensures Render([Chr(x)] + ([Chr(y)] + rest)) == [x, y] + Render(rest)
  {
    RenderCons(Chr(y), rest);
    RenderCons(Chr(x), [Chr(y)] + rest);
  }

  /** A match at the front is replaced and the scan resumes right after it. */
  lemma ReplaceAtFront(pat: string, rep: string, rest: string)
    requires |pat| > 0
    ensures ReplaceAll(pat + rest, pat, rep) == rep + ReplaceAll(rest, pat, rep)
  {
    assert pat <= pat + rest && (pat + rest)[|pat|..] == rest;
  }

  /** Where the pass's own letter stands (and no finished two-letter token), it becomes an item. */
  lemma StepAtLetterMatch(t: string, k: nat, p: Pattern, pat: string, rep: string)
    requires PassReady(k, p)
    requires pat == PatternText(p) && rep == Placeholder(PatternArg(p))
    requires |t| > 0 && p == One(t[0])
    requires !(|t| >= 2 && PassIndex(Two(t[0], t[1])) < k + 1)
    requires ReplaceAll(Render(Partial(t[1..], k)), pat, rep) == Render(Partial(t[1..], k + 1))
    ensures ReplaceAll(Render(Partial(t, k)), pat, rep) == Render(Partial(t, k + 1))
  {
    PatternLetters(p);
    assert Partial(t, k) == [Chr(t[0])] + Partial(t[1..], k);
    assert Partial(t, k + 1) == [Arg(PatternArg(p))] + Partial(t[1..], k + 1);
    RenderCons(Chr(t[0]), Partial(t[1..], k));
    RenderCons(Arg(PatternArg(p)), Partial(t[1..], k + 1));
    var rest := Render(Partial(t[1..], k));
    var whole := pat + rest;
    assert Render(Partial(t, k)) == whole;
    assert pat <= whole && whole[|pat|..] == rest;
  }

  /** Any other character stays literal and the pass does not start a match on it. */
  lemma StepAtLiteral(t: string, k: nat, p: Pattern, pat: string, rep: string)
    requires PassReady(k, p)
    requires pat == PatternText(p) && rep == Placeholder(PatternArg(p))
    requires |t| > 0 && PassIndex(One(t[0])) > k
    requires !(|t| >= 2 && PassIndex(Two(t[0], t[1])) < k + 1)
    requires ReplaceAll(Render(Partial(t[1..], k)), pat, rep) == Render(Partial(t[1..], k + 1))
    ensures ReplaceAll(Render(Partial(t, k)), pat, rep) == Render(Partial(t, k + 1))
  {
    PatternLetters(p);
    assert Partial(t, k) == [Chr(t[0])] + Partial(t[1..], k);
    assert Partial(t, k + 1) == [Chr(t[0])] + Partial(t[1..], k + 1);
    RenderCons(Chr(t[0]), Partial(t[1..], k));
    RenderCons(Chr(t[0]), Partial(t[1..], k + 1));
    var tail := Render(Partial(t[1..], k));
    if IsAsciiLetter(t[0]) {
      var whole := [t[0]] + tail;
      assert Render(Partial(t, k)) == whole;
      LiteralNoMatch(t, k, p, pat);
      assert whole[1..] == tail;
    } else {
      ReplaceAllSkipsPrefix(RenderPiece(Chr(t[0])), tail, pat, rep);
    }
  }

  /** The character after a literal letter is rendered as itself or starts with a brace, so a
      two-letter pattern can only match there if the template itself holds that token. */
  lemma LiteralNoMatch(t: string, k: nat, p: Pattern, pat: string)
    requires ValidPattern(p) && pat == PatternText(p)
    requires |t| > 0 && IsAsciiLetter(t[0]) && p != One(t[0])
    requires !(|t| >= 2 && Two(t[0], t[1]) == p)
    ensures !(pat <= [t[0]] + Render(Partial(t[1..], k)))
  {
    var tail := Render(Partial(t[1..], k));
    var whole := [t[0]] + tail;
    assert whole[0] == t[0];
    match p
    case One(x) =>
    case Two(x, y) =>
      if x == t[0] && |tail| > 0 {
        var next := Partial(t[1..], k);
        RenderHead(next);
        assert whole[1] == tail[0] == RenderPiece(next[0])[0];
        assert tail[0] != y;
      }
  }

  /** The spelling of a one-digit format item. */
  lemma ShortPlaceholder(n: nat)
    requires n < 10
    ensures Placeholder(n) == ['{', DigitChar(n), '}']
  {
  }

  /** The spelling of a two-digit format item {10}..{19}. */
  lemma LongPlaceholder(n: nat)
    requires 10 <= n < 20
    ensures Placeholder(n) == ['{', '1', DigitChar(n - 10), '}']
  {
    assert DecimalDigits(n) == DecimalDigits(1) + [DigitChar(n - 10)];
  }

  lemma Spelled10()
    ensures Placeholder(10) == "{10}"
  {
    LongPlaceholder(10);
  }

  lemma Spelled11()
    ensures Placeholder(11) == "{11}"
  {
    LongPlaceholder(11);
  }

  lemma Spelled12()
    ensures Placeholder(12) == "{12}"
  {
    LongPlaceholder(12);
  }

  lemma Spelled13()
    ensures Placeholder(13) == "{13}"
  {
    LongPlaceholder(13);
  }

  lemma Spelled14()
    ensures Placeholder(14) == "{14}"
  {
    LongPlaceholder(14);
  }

  lemma Spelled15()
    ensures Placeholder(15) == "{15}"
  {
    LongPlaceholder(15);
  }

  lemma Spelled16()
    ensures Placeholder(16) == "{16}"
  {
    LongPlaceholder(16);
  }

  /** With every pass run, the intermediate state is the single-pass tokenizer's reading. */
  lemma {:induction false} PartialComplete(t: string)
    ensures Partial(t, PassCount) == Tokenize(t)
    decreases |t|
  {
    if |t| >= 2 {
      PartialComplete(t[2..]);
    }
    if |t| >= 1 {
      PartialComplete(t[1..]);
    }
  }

  lemma Pass0(t: string)
    ensures ReplaceAll(Render(Partial(t, 0)), "A", "{0}") == Render(Partial(t, 1))
  {
    ShortPlaceholder(0);
    PassStep(t, 0, One('A'), "A", "{0}");
  }

  lemma Pass1(t: string)
    ensures ReplaceAll(Render(Partial(t, 1)), "a", "{0}") == Render(Partial(t, 2))
  {
    ShortPlaceholder(0);
    PassStep(t, 1, One('a'), "a", "{0}");
  }

  lemma Pass2(t: string)
    ensures ReplaceAll(Render(Partial(t, 2)), "RD", "{4}") == Render(Partial(t, 3))
  {
    ShortPlaceholder(4);
    PassStep(t, 2, Two('R', 'D'), "RD", "{4}");
  }

  lemma Pass3(t: string)
    ensures ReplaceAll(Render(Partial(t, 3)), "GD", "{5}") == Render(Partial(t, 4))
  {
    ShortPlaceholder(5);
    PassStep(t, 3, Two('G', 'D'), "GD", "{5}");
  }

  lemma Pass4(t: string)
    ensures ReplaceAll(Render(Partial(t, 4)), "BD", "{6}") == Render(Partial(t, 5))
  {
    ShortPlaceholder(6);
    PassStep(t, 4, Two('B', 'D'), "BD", "{6}");
  }

  lemma Pass5(t: string)
    ensures ReplaceAll(Render(Partial(t, 5)), "Rd", "{4}") == Render(Partial(t, 6))
  {
    ShortPlaceholder(4);
    PassStep(t, 5, Two('R', 'd'), "Rd", "{4}");
  }

  lemma Pass6(t: string)
    ensures ReplaceAll(Render(Partial(t, 6)), "Gd", "{5}") == Render(Partial(t, 7))
  {
    ShortPlaceholder(5);
    PassStep(t, 6, Two('G', 'd'), "Gd", "{5}");
  }

  lemma Pass7(t: string)
    ensures ReplaceAll(Render(Partial(t, 7)), "Bd", "{6}") == Render(Partial(t, 8))
  {
    ShortPlaceholder(6);
    PassStep(t, 7, Two('B', 'd'), "Bd", "{6}");
  }

  lemma Pass8(t: string)
    ensures ReplaceAll(Render(Partial(t, 8)), "R", "{1}") == Render(Partial(t, 9))
  {
    ShortPlaceholder(1);
    PassStep(t, 8, One('R'), "R", "{1}");
  }

  lemma Pass9(t: string)
    ensures ReplaceAll(Render(Partial(t, 9)), "G", "{2}") == Render(Partial(t, 10))
  {
    ShortPlaceholder(2);
    PassStep(t, 9, One('G'), "G", "{2}");
  }

  lemma Pass10(t: string)
    ensures ReplaceAll(Render(Partial(t, 10)), "B", "{3}") == Render(Partial(t, 11))
  {
    ShortPlaceholder(3);
    PassStep(t, 10, One('B'), "B", "{3}");
  }

  lemma Pass11(t: string)
    ensures ReplaceAll(Render(Partial(t, 11)), "rd", "{4}") == Render(Partial(t, 12))
  {
    ShortPlaceholder(4);
    PassStep(t, 11, Two('r', 'd'), "rd", "{4}");
  }

  lemma Pass12(t: string)
    ensures ReplaceAll(Render(Partial(t, 12)), "gd", "{5}") == Render(Partial(t, 13))
  {
    ShortPlaceholder(5);
    PassStep(t, 12, Two('g', 'd'), "gd", "{5}");
  }

  lemma Pass13(t: string)
    ensures ReplaceAll(Render(Partial(t, 13)), "bd", "{6}") == Render(Partial(t, 14))
  {
    ShortPlaceholder(6);
    PassStep(t, 13, Two('b', 'd'), "bd", "{6}");
  }

  lemma Pass14(t: string)
    ensures ReplaceAll(Render(Partial(t, 14)), "rD", "{4}") == Render(Partial(t, 15))
  {
    ShortPlaceholder(4);
    PassStep(t, 14, Two('r', 'D'), "rD", "{4}");
  }

  lemma Pass15(t: string)
    ensures ReplaceAll(Render(Partial(t, 15)), "gD", "{5}") == Render(Partial(t, 16))
  {
    ShortPlaceholder(5);
    PassStep(t, 15, Two('g', 'D'), "gD", "{5}");
  }

  lemma Pass16(t: string)
    ensures ReplaceAll(Render(Partial(t, 16)), "bD", "{6}") == Render(Partial(t, 17))
  {
    ShortPlaceholder(6);
    PassStep(t, 16, Two('b', 'D'), "bD", "{6}");
  }

  lemma Pass17(t: string)
    ensures ReplaceAll(Render(Partial(t, 17)), "r", "{7}") == Render(Partial(t, 18))
  {
    ShortPlaceholder(7);
    PassStep(t, 17, One('r'), "r", "{7}");
  }

  lemma Pass18(t: string)
    ensures ReplaceAll(Render(Partial(t, 18)), "g", "{8}") == Render(Partial(t, 19))
  {
    ShortPlaceholder(8);
    PassStep(t, 18, One('g'), "g", "{8}");
  }

  lemma Pass19(t: string)
    ensures ReplaceAll(Render(Partial(t, 19)), "b", "{9}") == Render(Partial(t, 20))
  {
    ShortPlaceholder(9);
    PassStep(t, 19, One('b'), "b", "{9}");
  }

  lemma Pass20(t: string)
    ensures ReplaceAll(Render(Partial(t, 20)), "H", "{10}") == Render(Partial(t, 21))
  {
    Spelled10();
    PassStep(t, 20, One('H'), "H", "{10}");
  }

  lemma Pass21(t: string)
    ensures ReplaceAll(Render(Partial(t, 21)), "S", "{11}") == Render(Partial(t, 22))
  {
    Spelled11();
    PassStep(t, 21, One('S'), "S", "{11}");
  }

  lemma Pass22(t: string)
    ensures ReplaceAll(Render(Partial(t, 22)), "L", "{12}") == Render(Partial(t, 23))
  {
    Spelled12();
    PassStep(t, 22, One('L'), "L", "{12}");
  }

  lemma Pass23(t: string)
    ensures ReplaceAll(Render(Partial(t, 23)), "h", "{10}") == Render(Partial(t, 24))
  {
    Spelled10();
    PassStep(t, 23, One('h'), "h", "{10}");
  }

  lemma Pass24(t: string)
    ensures ReplaceAll(Render(Partial(t, 24)), "s", "{11}") == Render(Partial(t, 25))
  {
    Spelled11();
    PassStep(t, 24, One('s'), "s", "{11}");
  }

  lemma Pass25(t: string)
    ensures ReplaceAll(Render(Partial(t, 25)), "l", "{12}") == Render(Partial(t, 26))
  {
    Spelled12();
    PassStep(t, 25, One('l'), "l", "{12}");
  }

  lemma Pass26(t: string)
    ensures ReplaceAll(Render(Partial(t, 26)), "C", "{13}") == Render(Partial(t, 27))
  {
    Spelled13();
    PassStep(t, 26, One('C'), "C", "{13}");
  }

  lemma Pass27(t: string)
    ensures ReplaceAll(Render(Partial(t, 27)), "M", "{14}") == Render(Partial(t, 28))
  {
    Spelled14();
    PassStep(t, 27, One('M'), "M", "{14}");
  }

  lemma Pass28(t: string)
    ensures ReplaceAll(Render(Partial(t, 28)), "Y", "{15}") == Render(Partial(t, 29))
  {
    Spelled15();
    PassStep(t, 28, One('Y'), "Y", "{15}");
  }

  lemma Pass29(t: string)
    ensures ReplaceAll(Render(Partial(t, 29)), "K", "{16}") == Render(Partial(t, 30))
  {
    Spelled16();
    PassStep(t, 29, One('K'), "K", "{16}");
  }

  lemma Pass30(t: string)
    ensures ReplaceAll(Render(Partial(t, 30)), "c", "{13}") == Render(Partial(t, 31))
  {
    Spelled13();
    PassStep(t, 30, One('c'), "c", "{13}");
  }

  lemma Pass31(t: string)
    ensures ReplaceAll(Render(Partial(t, 31)), "m", "{14}") == Render(Partial(t, 32))
  {
    Spelled14();
    PassStep(t, 31, One('m'), "m", "{14}");
  }

  lemma Pass32(t: string)
    ensures ReplaceAll(Render(Partial(t, 32)), "y", "{15}") == Render(Partial(t, 33))
  {
    Spelled15();
    PassStep(t, 32, One('y'), "y", "{15}");
  }

  /** The last pass is ready: every other pass comes before it. */
  lemma ReadyLast()
    ensures PassReady(33, One('k'))
  {
  }

  lemma Pass33(t: string)
    ensures ReplaceAll(Render(Partial(t, 33)), "k", "{16}") == Render(Partial(t, 34))
  {
    Spelled16();
    ReadyLast();
    PassStep(t, 33, One('k'), "k", "{16}");
  }

  /** The chain of 36 `String.Replace` passes writes out exactly what the single-pass
      tokenizer reads: the order of the passes (braces first, each two-letter token before
      its first letter) makes the sequential substitution a left-to-right scan. */
  lemma RewriteTokenizes(t: string)
    ensures Rewrite(t) == Render(Tokenize(t))
  {
    EscapeBraces(t);
    Pass0(t);
    Pass1(t);
    Pass2(t);
    Pass3(t);
    Pass4(t);
    Pass5(t);
    Pass6(t);
    Pass7(t);
    Pass8(t);
    Pass9(t);
    Pass10(t);
    Pass11(t);
    Pass12(t);
    Pass13(t);
    Pass14(t);
    Pass15(t);
    Pass16(t);
    Pass17(t);
    Pass18(t);
    Pass19(t);
    Pass20(t);
    Pass21(t);
    Pass22(t);
    Pass23(t);
    Pass24(t);
    Pass25(t);
    Pass26(t);
    Pass27(t);
    Pass28(t);
    Pass29(t);
    Pass30(t);
    Pass31(t);
    Pass32(t);
    Pass33(t);
    PartialComplete(t);
  }

  /** A rendered template shows no token letter: items are digits in braces, and the
      literal characters were not token letters to begin with. */
  lemma {:induction false} RenderShowsNoTokenLetter(ps: seq<Piece>)
    requires forall i :: 0 <= i < |ps| ==> ps[i].Chr? ==> !IsTokenLetter(ps[i].c)
    ensures forall i :: 0 <= i < |Render(ps)| ==> !IsTokenLetter(Render(ps)[i])
    decreases |ps|
  {
    if |ps| > 0 {
      RenderShowsNoTokenLetter(ps[1..]);
      var head := RenderPiece(ps[0]);
      assert forall i :: 0 <= i < |head| ==> !IsTokenLetter(head[i]);
    }
  }

  /** After the chain of replacements no token letter is left in the template. */
  lemma NoTokenLetterSurvives(t: string)
    ensures forall i :: 0 <= i < |Rewrite(t)| ==> !IsTokenLetter(Rewrite(t)[i])
  {
    RewriteTokenizes(t);
    RenderShowsNoTokenLetter(Tokenize(t));
  }
}
