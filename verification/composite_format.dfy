/** Composite formatting as `string.Format` performs it on the templates `Color.ToString`
    builds: doubled braces stand for one brace, `{n}` for the n-th argument, and anything
    else between braces, a lone closing brace or an index past the arguments is a
    `FormatException`. */
module CompositeFormat {
  import opened Results
  import opened Text
  import opened Templates

  datatype FormatError = FormatException

  /** Puts text in front of a successful result and passes a failure through. */
  function Prepend(s: string, r: Result<string, FormatError>): Result<string, FormatError> {
    match r
    case Success(v) => Success(s + v)
    case Failure(e) => Failure(e)
  }

  /** The composite-format interpreter, reading the format left to right. */
  function Format(f: string, args: seq<string>): Result<string, FormatError>
    decreases |f|
  {
    if |f| == 0 then Success("")
    else if f[0] == '{' then
      if |f| >= 2 && f[1] == '{' then Prepend("{", Format(f[2..], args))
      else
        var g := f[1..];
        var k := LeadingDigits(g);
        if k == 0 || k >= |g| || g[k] != '}' then Failure(FormatException)
        else
          var n := DecimalValue(g[..k]);
          if n >= |args| then Failure(FormatException)
          else Prepend(args[n], Format(g[k + 1..], args))
    else if f[0] == '}' then
      if |f| >= 2 && f[1] == '}' then Prepend("}", Format(f[2..], args))
      else Failure(FormatException)
    else Prepend([f[0]], Format(f[1..], args))
  }

  /** What a sequence of pieces means: characters stand for themselves, an item for its
      argument. */
  function Expand(ps: seq<Piece>, args: seq<string>): string
    requires ArgsBelow(ps, |args|)
  {
    if |ps| == 0 then ""
    else
      assert ArgsBelow(ps[1..], |args|) by {
        assert forall i :: 0 <= i < |ps| - 1 ==> ps[1..][i] == ps[i + 1];
      }
      Meaning(ps[0], args) + Expand(ps[1..], args)
  }

  /** What one piece stands for. */
  function Meaning(p: Piece, args: seq<string>): string
    requires Fits(p, |args|)
  {
    match p
    case Chr(c) => [c]
    case Arg(n) => args[n]
  }

  /** Expanding a piece in front of others puts its meaning in front. */
  lemma ExpandCons(p: Piece, ps: seq<Piece>, args: seq<string>)
    requires Fits(p, |args|)
    requires ArgsBelow(ps, |args|)
    ensures ArgsBelow([p] + ps, |args|)
    ensures Expand([p] + ps, args) == Meaning(p, args) + Expand(ps, args)
  {
    assert ([p] + ps)[1..] == ps;
    assert forall i :: 0 < i < |[p] + ps| ==> ([p] + ps)[i] == ps[i - 1];
  }

  /** A single piece expands to its meaning. */
  lemma ExpandOne(p: Piece, args: seq<string>)
    requires Fits(p, |args|)
    ensures ArgsBelow([p], |args|)
    ensures Expand([p], args) == Meaning(p, args)
  {
    assert [p][1..] == [];
  }

  /** Expanding two pieces is concatenating what each stands for. */
  lemma ExpandTwo(p0: Piece, p1: Piece, args: seq<string>)
    requires Fits(p0, |args|) && Fits(p1, |args|)
    ensures ArgsBelow([p0, p1], |args|)
    ensures Expand([p0, p1], args) == Meaning(p0, args) + Meaning(p1, args)
  {
    ExpandOne(p1, args);
    ExpandCons(p0, [p1], args);
    assert [p0] + [p1] == [p0, p1];
  }

  /** Expanding three pieces is concatenating what each stands for. */
  lemma ExpandThree(p0: Piece, p1: Piece, p2: Piece, args: seq<string>)
    requires Fits(p0, |args|) && Fits(p1, |args|) && Fits(p2, |args|)
    ensures ArgsBelow([p0, p1, p2], |args|)
    ensures Expand([p0, p1, p2], args) == Meaning(p0, args) + Meaning(p1, args) + Meaning(p2, args)
  {
    var m0, m1, m2 := Meaning(p0, args), Meaning(p1, args), Meaning(p2, args);
    ExpandTwo(p1, p2, args);
    ExpandCons(p0, [p1, p2], args);
    assert [p0] + [p1, p2] == [p0, p1, p2];
    Associate(m0, m1, m2);
  }

  /** Expanding four pieces is concatenating what each stands for. */
  lemma ExpandFour(p0: Piece, p1: Piece, p2: Piece, p3: Piece, args: seq<string>)
    requires Fits(p0, |args|) && Fits(p1, |args|) && Fits(p2, |args|) && Fits(p3, |args|)
    ensures ArgsBelow([p0, p1, p2, p3], |args|)
    ensures Expand([p0, p1, p2, p3], args)
      == Meaning(p0, args) + Meaning(p1, args) + Meaning(p2, args) + Meaning(p3, args)
  {
    var m0, m1, m2, m3 := Meaning(p0, args), Meaning(p1, args), Meaning(p2, args), Meaning(p3, args);
    ExpandThree(p1, p2, p3, args);
    ExpandCons(p0, [p1, p2, p3], args);
    ConsFour(p0, p1, p2, p3);
    Associate(m0, m1 + m2, m3);
    Associate(m0, m1, m2);
  }

  /** Expanding five pieces is concatenating what each stands for. */
  lemma ExpandFive(p0: Piece, p1: Piece, p2: Piece, p3: Piece, p4: Piece, args: seq<string>)
    requires Fits(p0, |args|) && Fits(p1, |args|) && Fits(p2, |args|) && Fits(p3, |args|) && Fits(p4, |args|)
    ensures ArgsBelow([p0, p1, p2, p3, p4], |args|)
    ensures Expand([p0, p1, p2, p3, p4], args)
      == Meaning(p0, args) + Meaning(p1, args) + Meaning(p2, args) + Meaning(p3, args) + Meaning(p4, args)
  {
    var m0, m1, m2, m3, m4 := Meaning(p0, args), Meaning(p1, args), Meaning(p2, args), Meaning(p3, args), Meaning(p4, args);
    ExpandFour(p1, p2, p3, p4, args);
    ExpandCons(p0, [p1, p2, p3, p4], args);
    ConsFive(p0, p1, p2, p3, p4);
    Associate(m0, m1 + m2 + m3, m4);
    Associate(m0, m1 + m2, m3);
    Associate(m0, m1, m2);
  }

  /** A cons onto a display is the longer display; proved apart to keep callers' contexts small. */
  lemma ConsFour<T>(x0: T, x1: T, x2: T, x3: T)
    ensures [x0] + [x1, x2, x3] == [x0, x1, x2, x3]
  {
  }

  /** The same for five elements. */
  lemma ConsFive<T>(x0: T, x1: T, x2: T, x3: T, x4: T)
    ensures [x0] + [x1, x2, x3, x4] == [x0, x1, x2, x3, x4]
  {
  }

  /** Concatenation of strings is associative. */
  lemma Associate(a: string, b: string, c: string)
    ensures a + (b + c) == a + b + c
  {
  }

  /** Every item fits the arguments exactly when the first does and the rest do. */
  lemma ArgsBelowCons(ps: seq<Piece>, n: nat)
    requires |ps| > 0
    ensures ArgsBelow(ps, n) <==> Fits(ps[0], n) && ArgsBelow(ps[1..], n)
  {
    assert forall i :: 0 < i < |ps| ==> ps[i] == ps[1..][i - 1];
  }

  /** A doubled brace is read as one brace, and reading resumes after it. */
  lemma FormatDoubled(b: char, rest: string, args: seq<string>)
    requires b == '{' || b == '}'
    ensures Format([b, b] + rest, args) == Prepend([b], Format(rest, args))
  {
    assert ([b, b] + rest)[2..] == rest;
  }

  /** A character other than a brace is copied, and reading resumes after it. */
  lemma FormatPlainChar(c: char, rest: string, args: seq<string>)
    requires c != '{' && c != '}'
    ensures Format([c] + rest, args) == Prepend([c], Format(rest, args))
  {
    assert ([c] + rest)[1..] == rest;
  }

  /** A format item `{n}` is replaced by the n-th argument, or fails past the last one. */
  lemma FormatItem(n: nat, rest: string, args: seq<string>)
    ensures n < |args| ==> Format(Placeholder(n) + rest, args) == Prepend(args[n], Format(rest, args))
    ensures n >= |args| ==> Format(Placeholder(n) + rest, args) == Failure(FormatException)
  {
    var d := DecimalDigits(n);
    assert Placeholder(n) + rest == ['{'] + (d + ("}" + rest));
    FormatDigitsItem(d, rest, args);
  }

  /** Reading `{digits}`: the digits' value selects the argument. */
  lemma FormatDigitsItem(d: string, rest: string, args: seq<string>)
    requires |d| > 0 && AllDigits(d)
    ensures var f := ['{'] + (d + ("}" + rest));
      && (DecimalValue(d) < |args| ==> Format(f, args) == Prepend(args[DecimalValue(d)], Format(rest, args)))
      && (DecimalValue(d) >= |args| ==> Format(f, args) == Failure(FormatException))
  {
    var g := d + ("}" + rest);
    assert (['{'] + g)[1..] == g;
    LeadingDigitsOfNumber(d, "}" + rest);
    assert g[..|d|] == d;
    assert g[|d|] == '}';
    assert g[|d| + 1..] == rest;
  }

  /** Formatting a rendered template succeeds exactly when every item has an argument,
      and then yields the pieces' meaning. */
  lemma {:induction false} FormatRender(ps: seq<Piece>, args: seq<string>)
    ensures Format(Render(ps), args).Success? <==> ArgsBelow(ps, |args|)
    ensures ArgsBelow(ps, |args|) ==> Format(Render(ps), args) == Success(Expand(ps, args))
    decreases |ps|
  {
    if |ps| > 0 {
      FormatRender(ps[1..], args);
      ArgsBelowCons(ps, |args|);
      RenderHead(ps);
      var rest := Render(ps[1..]);
      match ps[0]
      case Chr(c) =>
        if c == '{' || c == '}' {
          assert Render(ps) == [c, c] + rest;
          FormatDoubled(c, rest, args);
        } else {
          assert Render(ps) == [c] + rest;
          FormatPlainChar(c, rest, args);
        }
      case Arg(n) =>
        FormatItem(n, rest, args);
    }
  }

  /** A format without braces is returned as it is. */
  lemma {:induction false} FormatWithoutBraces(f: string, args: seq<string>)
    requires forall i :: 0 <= i < |f| ==> f[i] != '{' && f[i] != '}'
    ensures Format(f, args) == Success(f)
    decreases |f|
  {
    if |f| > 0 {
      FormatWithoutBraces(f[1..], args);
      FormatPlainChar(f[0], f[1..], args);
      assert [f[0]] + f[1..] == f;
    }
  }
}
