/** The state of a `Color` and how its constructors and property setters change it.

    A colour keeps three views of itself side by side: RGB as signed bytes, HSL and CMYK as
    doubles, plus an alpha. Writing one component of a view recomputes the other two views from
    the view just written; alpha is a plain auto-property. The double arithmetic of the three
    recomputations is not modelled: it arrives as the `Conversions` record, so every fact proved
    here holds whatever those routines compute. What is modelled is which fields each step
    writes, which it leaves alone, and when the HSL step throws. */
module ColorModel {
  import opened Results
  import opened SignedBytes

  datatype Rgb = Rgb(r: SByte, g: SByte, b: SByte)
  datatype Hsl<N> = Hsl(h: N, s: N, l: N)
  datatype Cmyk<N> = Cmyk(c: N, m: N, y: N, k: N)

  /** The double-valued routines of the class, with `N` standing for `double`.
      - `one` is the literal `1d`;
      - `ratio255(x)` is `x / 255d` for an integer `x`;
      - `fromRgb` is `CalculateFromRgb`: the HSL and CMYK views of an RGB triple;
      - `hueInRange(h)` says whether `h % 360d` falls in one of the six sextants of
        `CalculateFromHsl`'s switch, and `fromHsl` is what that routine writes when it does;
      - `fromCmyk` is `CalculateFromCmyk`: the RGB and HSL views of a CMYK quadruple. */
  datatype Conversions<!N> = Conversions(
    one: N,
    ratio255: int -> N,
    fromRgb: Rgb -> (Hsl<N>, Cmyk<N>),
    hueInRange: N -> bool,
    fromHsl: Hsl<N> -> (Rgb, Cmyk<N>),
    fromCmyk: Cmyk<N> -> (Rgb, Hsl<N>))

  /** The fields of a `Color` object. */
  datatype Color<N> = Color(alpha: N, rgb: Rgb, hsl: Hsl<N>, cmyk: Cmyk<N>)

  /** The exceptions the class lets escape. */
  datatype ColorError = FormatException | OverflowException | ArgumentOutOfRangeException

  /** A property write either completes or throws; a write that throws has already stored
      the new value, so the object it leaves behind is observable by a caller that catches. */
  datatype Mutation<N> = Completed(state: Color<N>) | Threw(state: Color<N>, error: ColorError)

  /** The HSL and CMYK views are what `CalculateFromRgb` derives from the RGB view. */
  ghost predicate DerivedFromRgb<N>(math: Conversions<N>, c: Color<N>) {
    (c.hsl, c.cmyk) == math.fromRgb(c.rgb)
  }

  /** The RGB and CMYK views are what `CalculateFromHsl` derives from the HSL view. */
  ghost predicate DerivedFromHsl<N>(math: Conversions<N>, c: Color<N>) {
    math.hueInRange(c.hsl.h) && (c.rgb, c.cmyk) == math.fromHsl(c.hsl)
  }

  /** The RGB and HSL views are what `CalculateFromCmyk` derives from the CMYK view. */
  ghost predicate DerivedFromCmyk<N>(math: Conversions<N>, c: Color<N>) {
    (c.rgb, c.hsl) == math.fromCmyk(c.cmyk)
  }

  /** `CalculateFromRgb` run on a state: only the HSL and CMYK views are written. */
  function RecalculateFromRgb<N>(math: Conversions<N>, c: Color<N>): (d: Color<N>)
    ensures d.alpha == c.alpha && d.rgb == c.rgb
    ensures DerivedFromRgb(math, d)
  {
    var (hsl, cmyk) := math.fromRgb(c.rgb);
    c.(hsl := hsl, cmyk := cmyk)
  }

  /** `CalculateFromCmyk` run on a state: only the RGB and HSL views are written. */
  function RecalculateFromCmyk<N>(math: Conversions<N>, c: Color<N>): (d: Color<N>)
    ensures d.alpha == c.alpha && d.cmyk == c.cmyk
    ensures DerivedFromCmyk(math, d)
  {
    var (rgb, hsl) := math.fromCmyk(c.cmyk);
    c.(rgb := rgb, hsl := hsl)
  }

  /** `CalculateFromHsl` run on a state: it throws before writing anything when the hue lies
      outside every sextant, and otherwise writes only the RGB and CMYK views. */
  function RecalculateFromHsl<N>(math: Conversions<N>, c: Color<N>): (m: Mutation<N>)
    ensures m.Threw? <==> !math.hueInRange(c.hsl.h)
    ensures m.Threw? ==> m.state == c && m.error == ArgumentOutOfRangeException
    ensures m.Completed? ==> m.state.alpha == c.alpha && m.state.hsl == c.hsl
    ensures m.Completed? ==> DerivedFromHsl(math, m.state)
  {
    if !math.hueInRange(c.hsl.h) then Threw(c, ArgumentOutOfRangeException)
    else
      var (rgb, cmyk) := math.fromHsl(c.hsl);
      Completed(c.(rgb := rgb, cmyk := cmyk))
  }

  /** The fields of an object before its constructor body runs: all zero in C#, where the
      `double` zero is `0d`, the value `ratio255(0)` stands for. */
  function Blank<N>(zero: N): Color<N> {
    Color(zero, Rgb(0, 0, 0), Hsl(zero, zero, zero), Cmyk(zero, zero, zero, zero))
  }

  /** `FromRgb(r, g, b, a)`, the constructor from RGB: it reads back its inputs and the other
      views are derived from them. */
  function FromRgb<N>(math: Conversions<N>, r: SByte, g: SByte, b: SByte, a: N): (c: Color<N>)
    ensures c.alpha == a && c.rgb == Rgb(r, g, b)
    ensures DerivedFromRgb(math, c)
  {
    var blank := Blank(math.ratio255(0));
    RecalculateFromRgb(math, blank.(alpha := a, rgb := Rgb(r, g, b)))
  }

  /** The parameterless constructor: opaque black, derived from RGB (0, 0, 0). */
  function Default<N>(math: Conversions<N>): (c: Color<N>)
    ensures c.alpha == math.one && c.rgb == Rgb(0, 0, 0)
    ensures DerivedFromRgb(math, c)
  {
    RecalculateFromRgb(math, Blank(math.ratio255(0)).(alpha := math.one))
  }

  /** `FromHsl(h, s, l, a)`: it fails, and no object exists, when the hue is out of range;
      otherwise it reads back its inputs and the other views are derived from them. */
  function FromHsl<N>(math: Conversions<N>, h: N, s: N, l: N, a: N): (r: Result<Color<N>, ColorError>)
    ensures r.Success? <==> math.hueInRange(h)
    ensures r.Failure? ==> r.error == ArgumentOutOfRangeException
    ensures r.Success? ==> r.value.alpha == a && r.value.hsl == Hsl(h, s, l)
    ensures r.Success? ==> DerivedFromHsl(math, r.value)
  {
    var blank := Blank(math.ratio255(0));
    match RecalculateFromHsl(math, blank.(alpha := a, hsl := Hsl(h, s, l)))
    case Completed(c) => Success(c)
    case Threw(_, e) => Failure(e)
  }

  /** `FromCmyk(c, m, y, k, a)`: it reads back its inputs and the other views are derived. */
  function FromCmyk<N>(math: Conversions<N>, c: N, m: N, y: N, k: N, a: N): (d: Color<N>)
    ensures d.alpha == a && d.cmyk == Cmyk(c, m, y, k)
    ensures DerivedFromCmyk(math, d)
  {
    var blank := Blank(math.ratio255(0));
    RecalculateFromCmyk(math, blank.(alpha := a, cmyk := Cmyk(c, m, y, k)))
  }

  /** The `Alpha` auto-property: nothing but alpha changes. */
  function SetAlpha<N>(c: Color<N>, a: N): (d: Color<N>)
    ensures d.alpha == a && d.rgb == c.rgb && d.hsl == c.hsl && d.cmyk == c.cmyk
  {
    c.(alpha := a)
  }

  /** The `R` setter. */
  function SetR<N>(math: Conversions<N>, c: Color<N>, v: SByte): (d: Color<N>)
    ensures d.alpha == c.alpha && d.rgb == Rgb(v, c.rgb.g, c.rgb.b)
    ensures DerivedFromRgb(math, d)
  {
    RecalculateFromRgb(math, c.(rgb := c.rgb.(r := v)))
  }

  /** The `G` setter. */
  function SetG<N>(math: Conversions<N>, c: Color<N>, v: SByte): (d: Color<N>)
    ensures d.alpha == c.alpha && d.rgb == Rgb(c.rgb.r, v, c.rgb.b)
    ensures DerivedFromRgb(math, d)
  {
    RecalculateFromRgb(math, c.(rgb := c.rgb.(g := v)))
  }

  /** The `B` setter. */
  function SetB<N>(math: Conversions<N>, c: Color<N>, v: SByte): (d: Color<N>)
    ensures d.alpha == c.alpha && d.rgb == Rgb(c.rgb.r, c.rgb.g, v)
    ensures DerivedFromRgb(math, d)
  {
    RecalculateFromRgb(math, c.(rgb := c.rgb.(b := v)))
  }

  /** The `C` setter. */
  function SetC<N>(math: Conversions<N>, c: Color<N>, v: N): (d: Color<N>)
    ensures d.alpha == c.alpha && d.cmyk == Cmyk(v, c.cmyk.m, c.cmyk.y, c.cmyk.k)
    ensures DerivedFromCmyk(math, d)
  {
    RecalculateFromCmyk(math, c.(cmyk := c.cmyk.(c := v)))
  }

  /** The `M` setter. */
  function SetM<N>(math: Conversions<N>, c: Color<N>, v: N): (d: Color<N>)
    ensures d.alpha == c.alpha && d.cmyk == Cmyk(c.cmyk.c, v, c.cmyk.y, c.cmyk.k)
    ensures DerivedFromCmyk(math, d)
  {
    RecalculateFromCmyk(math, c.(cmyk := c.cmyk.(m := v)))
  }

  /** The `Y` setter. */
  function SetY<N>(math: Conversions<N>, c: Color<N>, v: N): (d: Color<N>)
    ensures d.alpha == c.alpha && d.cmyk == Cmyk(c.cmyk.c, c.cmyk.m, v, c.cmyk.k)
    ensures DerivedFromCmyk(math, d)
  {
    RecalculateFromCmyk(math, c.(cmyk := c.cmyk.(y := v)))
  }

  /** The `K` setter. */
  function SetK<N>(math: Conversions<N>, c: Color<N>, v: N): (d: Color<N>)
    ensures d.alpha == c.alpha && d.cmyk == Cmyk(c.cmyk.c, c.cmyk.m, c.cmyk.y, v)
    ensures DerivedFromCmyk(math, d)
  {
    RecalculateFromCmyk(math, c.(cmyk := c.cmyk.(k := v)))
  }

  /** The `H` setter: it throws exactly when the new hue is out of range, and then leaves the
      new hue stored next to the old RGB and CMYK views. */
  function SetH<N>(math: Conversions<N>, c: Color<N>, v: N): (m: Mutation<N>)
    ensures m.Threw? <==> !math.hueInRange(v)
    ensures m.Threw? ==> m.error == ArgumentOutOfRangeException
    ensures m.state.alpha == c.alpha && m.state.hsl == Hsl(v, c.hsl.s, c.hsl.l)
    ensures m.Threw? ==> m.state.rgb == c.rgb && m.state.cmyk == c.cmyk
    ensures m.Completed? ==> DerivedFromHsl(math, m.state)
  {
    RecalculateFromHsl(math, c.(hsl := c.hsl.(h := v)))
  }

  /** The `S` setter: whether it throws depends on the stored hue alone. */
  function SetS<N>(math: Conversions<N>, c: Color<N>, v: N): (m: Mutation<N>)
    ensures m.Threw? <==> !math.hueInRange(c.hsl.h)
    ensures m.Threw? ==> m.error == ArgumentOutOfRangeException
    ensures m.state.alpha == c.alpha && m.state.hsl == Hsl(c.hsl.h, v, c.hsl.l)
    ensures m.Threw? ==> m.state.rgb == c.rgb && m.state.cmyk == c.cmyk
    ensures m.Completed? ==> DerivedFromHsl(math, m.state)
  {
    RecalculateFromHsl(math, c.(hsl := c.hsl.(s := v)))
  }

  /** The `L` setter: whether it throws depends on the stored hue alone. */
  function SetL<N>(math: Conversions<N>, c: Color<N>, v: N): (m: Mutation<N>)
    ensures m.Threw? <==> !math.hueInRange(c.hsl.h)
    ensures m.Threw? ==> m.error == ArgumentOutOfRangeException
    ensures m.state.alpha == c.alpha && m.state.hsl == Hsl(c.hsl.h, c.hsl.s, v)
    ensures m.Threw? ==> m.state.rgb == c.rgb && m.state.cmyk == c.cmyk
    ensures m.Completed? ==> DerivedFromHsl(math, m.state)
  {
    RecalculateFromHsl(math, c.(hsl := c.hsl.(l := v)))
  }

  /** After an RGB write the object is the one `FromRgb` builds from the new triple and the
      old alpha: nothing else of its history survives. */
  lemma RgbWriteForgetsHistory<N>(math: Conversions<N>, c: Color<N>, r: SByte, g: SByte, b: SByte)
    ensures SetR(math, c, r) == FromRgb(math, r, c.rgb.g, c.rgb.b, c.alpha)
    ensures SetG(math, c, g) == FromRgb(math, c.rgb.r, g, c.rgb.b, c.alpha)
    ensures SetB(math, c, b) == FromRgb(math, c.rgb.r, c.rgb.g, b, c.alpha)
  {
    var d := SetR(math, c, r);
    var e := FromRgb(math, r, c.rgb.g, c.rgb.b, c.alpha);
    assert d.hsl == e.hsl && d.cmyk == e.cmyk;
  }

  /** After a CMYK write the object is the one `FromCmyk` builds from the new quadruple and
      the old alpha. */
  lemma CmykWriteForgetsHistory<N>(math: Conversions<N>, d: Color<N>, v: N)
    ensures SetC(math, d, v) == FromCmyk(math, v, d.cmyk.m, d.cmyk.y, d.cmyk.k, d.alpha)
    ensures SetM(math, d, v) == FromCmyk(math, d.cmyk.c, v, d.cmyk.y, d.cmyk.k, d.alpha)
    ensures SetY(math, d, v) == FromCmyk(math, d.cmyk.c, d.cmyk.m, v, d.cmyk.k, d.alpha)
    ensures SetK(math, d, v) == FromCmyk(math, d.cmyk.c, d.cmyk.m, d.cmyk.y, v, d.alpha)
  {
  }

  /** A completed HSL write leaves the object `FromHsl` builds from the new triple. */
  lemma HslWriteForgetsHistory<N>(math: Conversions<N>, c: Color<N>, v: N)
    ensures SetH(math, c, v).Completed? ==>
      FromHsl(math, v, c.hsl.s, c.hsl.l, c.alpha) == Success(SetH(math, c, v).state)
    ensures SetS(math, c, v).Completed? ==>
      FromHsl(math, c.hsl.h, v, c.hsl.l, c.alpha) == Success(SetS(math, c, v).state)
    ensures SetL(math, c, v).Completed? ==>
      FromHsl(math, c.hsl.h, c.hsl.s, v, c.alpha) == Success(SetL(math, c, v).state)
  {
  }

  /** Writing alpha commutes with every component write. */
  lemma AlphaCommutes<N>(math: Conversions<N>, c: Color<N>, a: N, v: SByte, w: N)
    ensures SetR(math, SetAlpha(c, a), v) == SetAlpha(SetR(math, c, v), a)
    ensures SetG(math, SetAlpha(c, a), v) == SetAlpha(SetG(math, c, v), a)
    ensures SetB(math, SetAlpha(c, a), v) == SetAlpha(SetB(math, c, v), a)
    ensures SetC(math, SetAlpha(c, a), w) == SetAlpha(SetC(math, c, w), a)
    ensures SetM(math, SetAlpha(c, a), w) == SetAlpha(SetM(math, c, w), a)
    ensures SetY(math, SetAlpha(c, a), w) == SetAlpha(SetY(math, c, w), a)
    ensures SetK(math, SetAlpha(c, a), w) == SetAlpha(SetK(math, c, w), a)
    ensures SetH(math, SetAlpha(c, a), w).state == SetAlpha(SetH(math, c, w).state, a)
    ensures SetH(math, SetAlpha(c, a), w).Threw? == SetH(math, c, w).Threw?
    ensures SetS(math, SetAlpha(c, a), w).state == SetAlpha(SetS(math, c, w).state, a)
    ensures SetS(math, SetAlpha(c, a), w).Threw? == SetS(math, c, w).Threw?
    ensures SetL(math, SetAlpha(c, a), w).state == SetAlpha(SetL(math, c, w).state, a)
    ensures SetL(math, SetAlpha(c, a), w).Threw? == SetL(math, c, w).Threw?
  {
  }

  /** Writing a component its current value changes nothing once the views agree. */
  lemma RewriteIsFixedPoint<N>(math: Conversions<N>, c: Color<N>)
    ensures DerivedFromRgb(math, c) ==> SetR(math, c, c.rgb.r) == c
    ensures DerivedFromRgb(math, c) ==> SetG(math, c, c.rgb.g) == c
    ensures DerivedFromRgb(math, c) ==> SetB(math, c, c.rgb.b) == c
    ensures DerivedFromCmyk(math, c) ==> SetC(math, c, c.cmyk.c) == c
    ensures DerivedFromCmyk(math, c) ==> SetM(math, c, c.cmyk.m) == c
    ensures DerivedFromCmyk(math, c) ==> SetY(math, c, c.cmyk.y) == c
    ensures DerivedFromCmyk(math, c) ==> SetK(math, c, c.cmyk.k) == c
    ensures DerivedFromHsl(math, c) ==> SetH(math, c, c.hsl.h) == Completed(c)
    ensures DerivedFromHsl(math, c) ==> SetS(math, c, c.hsl.s) == Completed(c)
    ensures DerivedFromHsl(math, c) ==> SetL(math, c, c.hsl.l) == Completed(c)
  {
  }

  /** A hue write that throws poisons the object: every later S or L write throws too,
      until a hue in range or an RGB or CMYK write replaces the stored hue. */
  lemma FailedHueWritePersists<N>(math: Conversions<N>, c: Color<N>, v: N, w: N)
    requires SetH(math, c, v).Threw?
    ensures SetS(math, SetH(math, c, v).state, w).Threw?
    ensures SetL(math, SetH(math, c, v).state, w).Threw?
    ensures !DerivedFromHsl(math, SetH(math, c, v).state)
  {
  }
}
