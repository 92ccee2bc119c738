/**
 Python's floats at work: one colour through the conversions, and the help scores, with every operation rounded.
 */
module Binary64 {
  import opened Rounding
  import opened Colors
  import opened Palette
  import opened HelpScore

  /** The powers of two these computations meet. */
  ghost predicate Places(places: real -> bool) {
    && places(35184372088832.0)
    && places(70368744177664.0)
    && places(140737488355328.0)
    && places(281474976710656.0)
    && places(562949953421312.0)
    && places(1125899906842624.0)
    && places(2251799813685248.0)
    && places(4503599627370496.0)
    && places(9007199254740992.0)
    && places(18014398509481984.0)
    && places(36028797018963968.0)
    && places(72057594037927936.0)
    && places(144115188075855872.0)
    && places(288230376151711744.0)
    && places(576460752303423488.0)
    && places(1152921504606846976.0)
    && places(2305843009213693952.0)
  }

  /** `fl` rounds as binary64 does wherever one of these powers gives 53 digits. */
  ghost predicate Machine(fl: real -> real, places: real -> bool) {
    RoundsNormal(fl, places) && Places(places)
  }

  lemma Power(k: nat, p: real)
    requires k < 1074 && Pow2(k) == p
    ensures IsScale(p) && Pow2(k + 1) == 2.0 * p
  {
  }

  lemma Scales()
    ensures Places(IsScale)
  {
    Powers();
    Power(45, 35184372088832.0);
    Power(46, 70368744177664.0);
    Power(47, 140737488355328.0);
    Power(48, 281474976710656.0);
    Power(49, 562949953421312.0);
    Power(50, 1125899906842624.0);
    Power(51, 2251799813685248.0);
    Power(52, 4503599627370496.0);
    Power(53, 9007199254740992.0);
    Power(54, 18014398509481984.0);
    Power(55, 36028797018963968.0);
    Power(56, 72057594037927936.0);
    Power(57, 144115188075855872.0);
    Power(58, 288230376151711744.0);
    Power(59, 576460752303423488.0);
    Power(60, 1152921504606846976.0);
    Power(61, 2305843009213693952.0);
  }

  // ---------- the colour conversions, every operation rounded ----------

  /** rgb_to_hls */
  function HlsOf(fl: real -> real, r: real, g: real, b: real): (real, real, real) {
    var maxc, minc := Largest(r, g, b), Smallest(r, g, b);
    var sumc, range := fl(maxc + minc), fl(maxc - minc);
    var l := fl(sumc / 2.0);
    if minc == maxc || sumc == 0.0 || range == 0.0 then (0.0, l, 0.0)
    else
      var double := fl(fl(2.0 - maxc) - minc);
      var s := if l <= 0.5 || double == 0.0 then fl(range / sumc) else fl(range / double);
      var rc, gc, bc := fl(fl(maxc - r) / range), fl(fl(maxc - g) / range), fl(fl(maxc - b) / range);
      var h := if r == maxc then fl(bc - gc) else if g == maxc then fl(fl(2.0 + rc) - bc) else fl(fl(4.0 + gc) - rc);
      (fl(Frac(fl(h / 6.0))), l, s)
  }

  /** _v of colorsys */
  function ChannelOf(fl: real -> real, m1: real, m2: real, hue0: real): real {
    var hue := fl(Frac(hue0));
    if hue < fl(1.0 / 6.0) then fl(m1 + fl(fl(fl(m2 - m1) * hue) * 6.0))
    else if hue < 0.5 then m2
    else if hue < fl(2.0 / 3.0) then fl(m1 + fl(fl(fl(m2 - m1) * fl(fl(2.0 / 3.0) - hue)) * 6.0))
    else m1
  }

  /** hls_to_rgb */
  function RgbOf(fl: real -> real, h: real, l: real, s: real): (real, real, real) {
    if s == 0.0 then (l, l, l)
    else
      var m2 := if l <= 0.5 then fl(l * fl(1.0 + s)) else fl(fl(l + s) - fl(l * s));
      var m1 := fl(fl(2.0 * l) - m2);
      var third := fl(1.0 / 3.0);
      (ChannelOf(fl, m1, m2, fl(h + third)), ChannelOf(fl, m1, m2, h), ChannelOf(fl, m1, m2, fl(h - third)))
  }

  /** _hex_to_hsl */
  function HslOf(fl: real -> real, c: Rgb): (real, real, real) {
    var (h, l, s) := HlsOf(fl, fl(c.r as real / 255.0), fl(c.g as real / 255.0), fl(c.b as real / 255.0));
    (fl(h * 360.0), s, l)
  }

  /** _hsl_to_hex up to int(): the three components times 255. */
  function Rgb255Of(fl: real -> real, h: real, s: real, l: real): (real, real, real) {
    var (r, g, b) := RgbOf(fl, fl(h / 360.0), l, s);
    (fl(r * 255.0), fl(g * 255.0), fl(b * 255.0))
  }

  /** 5/255, rounded */
  const FIVE: real := 5651576002974740.0 / 288230376151711744.0

  lemma FiveRounded(fl: real -> real, places: real -> bool)
    requires Machine(fl, places)
    ensures fl(5.0 / 255.0) == FIVE && fl(FIVE) == FIVE && fl(FIVE / 2.0) == FIVE / 2.0
    ensures fl(0.5) == 0.5 && fl(1.0) == 1.0 && fl(2.0) == 2.0 && fl(3.0) == 3.0 && fl(180.0) == 180.0
  {
    FlIs(fl, places, 5.0 / 255.0, 288230376151711744.0, 5651576002974740);
    FlIs(fl, places, FIVE, 288230376151711744.0, 5651576002974740);
    FlIs(fl, places, FIVE / 2.0, 576460752303423488.0, 5651576002974740);
    FlIs(fl, places, 0.5, 9007199254740992.0, 4503599627370496);
    FlIs(fl, places, 1.0, 4503599627370496.0, 4503599627370496);
    FlIs(fl, places, 2.0, 2251799813685248.0, 4503599627370496);
    FlIs(fl, places, 3.0, 2251799813685248.0, 6755399441055744);
    FlIs(fl, places, 180.0, 35184372088832.0, 6333186975989760);
  }

  /** #000505 has hue 1/2, lightness half of FIVE and saturation 1, exactly. */
  lemma DarkCyanHls(fl: real -> real, places: real -> bool)
    requires Machine(fl, places)
    ensures HlsOf(fl, 0.0, FIVE, FIVE) == (0.5, FIVE / 2.0, 1.0)
  {
    FiveRounded(fl, places);
    assert FIVE / FIVE == 1.0 && 0.0 / FIVE == 0.0;
    assert Frac(0.5) == 0.5;
  }

  lemma ThirdsRounded(fl: real -> real, places: real -> bool)
    requires Machine(fl, places)
    ensures fl(1.0 / 3.0) == 6004799503160661.0 / 18014398509481984.0
    ensures fl(2.0 / 3.0) == 6004799503160661.0 / 9007199254740992.0
    ensures fl(1.0 / 6.0) == 6004799503160661.0 / 36028797018963968.0
  {
    FlIs(fl, places, 1.0 / 3.0, 18014398509481984.0, 6004799503160661);
    FlIs(fl, places, 2.0 / 3.0, 9007199254740992.0, 6004799503160661);
    FlIs(fl, places, 1.0 / 6.0, 36028797018963968.0, 6004799503160661);
  }

  /** The red and the blue component: the smaller and the larger of the two levels. */
  lemma DarkCyanEnds(fl: real -> real, places: real -> bool)
    requires Machine(fl, places)
    ensures ChannelOf(fl, 0.0, FIVE, fl(0.5 + fl(1.0 / 3.0))) == 0.0
    ensures ChannelOf(fl, 0.0, FIVE, fl(0.5 - fl(1.0 / 3.0))) == FIVE
    ensures fl(FIVE * 255.0) == 5.0
  {
    ThirdsRounded(fl, places);
    FlIs(fl, places, 0.5 + 6004799503160661.0 / 18014398509481984.0, 9007199254740992.0, 7505999378950826);
    FlIs(fl, places, 0.5 - 6004799503160661.0 / 18014398509481984.0, 36028797018963968.0, 6004799503160662);
    FracBelowOne(7505999378950826.0 / 9007199254740992.0);
    FracBelowOne(6004799503160662.0 / 36028797018963968.0);
    FlIs(fl, places, 7505999378950826.0 / 9007199254740992.0, 9007199254740992.0, 7505999378950826);
    FlIs(fl, places, 6004799503160662.0 / 36028797018963968.0, 36028797018963968.0, 6004799503160662);
    FlIs(fl, places, FIVE * 255.0, 1125899906842624.0, 5629499534213120);
  }

  lemma FracBelowOne(x: real)
    requires 0.0 <= x < 1.0
    ensures Frac(x) == x
  {
  }

  /** The green component falls short of 5. */
  lemma DarkCyanGreen(fl: real -> real, places: real -> bool)
    requires Machine(fl, places)
    ensures 4.0 < fl(ChannelOf(fl, 0.0, FIVE, 0.5) * 255.0) < 5.0
  {
    ThirdsRounded(fl, places);
    FiveRounded(fl, places);
    FracBelowOne(0.5);
    var d, p := 6004799503160660.0 / 36028797018963968.0, 7535434670632985.0 / 2305843009213693952.0;
    var q := 5651576002974739.0 / 288230376151711744.0;
    FlIs(fl, places, 6004799503160661.0 / 9007199254740992.0 - 0.5, 36028797018963968.0, 6004799503160660);
    FlIs(fl, places, FIVE * d, 2305843009213693952.0, 7535434670632985);
    FlIs(fl, places, p * 6.0, 288230376151711744.0, 5651576002974739);
    FlIs(fl, places, q, 288230376151711744.0, 5651576002974739);
    FlIs(fl, places, q * 255.0, 1125899906842624.0, 5629499534213119);
  }

  lemma DarkCyanRgb(fl: real -> real, places: real -> bool)
    requires Machine(fl, places)
    ensures RgbOf(fl, 0.5, FIVE / 2.0, 1.0) == (0.0, ChannelOf(fl, 0.0, FIVE, 0.5), FIVE)
  {
    FiveRounded(fl, places);
    DarkCyanEnds(fl, places);
    assert FIVE / 2.0 * 2.0 == FIVE && 2.0 * (FIVE / 2.0) == FIVE && FIVE / 2.0 <= 0.5;
  }

  lemma DarkCyanHsl(fl: real -> real, places: real -> bool)
    requires Machine(fl, places)
    ensures HslOf(fl, Rgb(0, 5, 5)) == (180.0, 1.0, FIVE / 2.0)
  {
    FiveRounded(fl, places);
    DarkCyanHls(fl, places);
    assert 0.0 / 255.0 == 0.0;
  }

  lemma DarkCyan255(fl: real -> real, places: real -> bool)
    requires Machine(fl, places)
    ensures Rgb255Of(fl, 180.0, 1.0, FIVE / 2.0) == (0.0, fl(ChannelOf(fl, 0.0, FIVE, 0.5) * 255.0), 5.0)
  {
    FiveRounded(fl, places);
    assert fl(180.0 / 360.0) == 0.5;
    DarkCyanRgb(fl, places);
    DarkCyanEnds(fl, places);
    Back255(fl, 180.0, 1.0, FIVE / 2.0, (0.0, ChannelOf(fl, 0.0, FIVE, 0.5), FIVE));
    assert fl(0.0 * 255.0) == 0.0;
  }

  lemma Back255(fl: real -> real, h: real, s: real, l: real, c: (real, real, real))
    requires RgbOf(fl, fl(h / 360.0), l, s) == c
    ensures Rgb255Of(fl, h, s, l) == (fl(c.0 * 255.0), fl(c.1 * 255.0), fl(c.2 * 255.0))
  {
  }

  /** So #000505 comes back as #000405. */
  lemma DarkCyanIsLost(fl: real -> real)
    requires IsBinary64(fl)
    ensures var (h, s, l) := HslOf(fl, Rgb(0, 5, 5));
      var v := Rgb255Of(fl, h, s, l);
      InChannels(v) && Rgb(ToChannel(v.0), ToChannel(v.1), ToChannel(v.2)) == Rgb(0, 4, 5)
  {
    Normal(fl);
    Scales();
    DarkCyanHsl(fl, IsScale);
    DarkCyan255(fl, IsScale);
    DarkCyanGreen(fl, IsScale);
  }

  // ---------- help scores, every operation rounded ----------

  function Sum(fl: real -> real, x: real, w: real): real {
    fl(x + fl(w))
  }

  function Multiple(fl: real -> real, x: real, w: real): real {
    fl(x * fl(w))
  }

  function Quotient(fl: real -> real, x: real, y: real): real {
    if y == 0.0 then 0.0 else fl(x / y)
  }

  /** The constants of the source are rounded, and so is every result. */
  function Floats64(fl: real -> real): Floats {
    Floats((x, w) => Sum(fl, x, w), (x, w) => Multiple(fl, x, w), (x, y) => Quotient(fl, x, y))
  }

  /** 2^-45: one rounding of a constant and one of the result */
  const STEP: real := 1.0 / 35184372088832.0

  lemma MachineAdds(fl: real -> real, x: real, w: real)
    requires IsBinary64(fl) && 0.0 <= x <= 64.0 && 0.0 <= w <= 3.0
    ensures 0.0 <= fl(x + fl(w)) && Close(fl(x + fl(w)), x + w, STEP)
  {
    FlNear(fl, w);
    FlNear(fl, x + fl(w));
  }

  lemma MachineMultiplies(fl: real -> real, x: real, w: real)
    requires IsBinary64(fl) && 0.0 <= x <= 1.0 && 0.0 <= w <= 1.0
    ensures 0.0 <= Multiple(fl, x, w) && Close(Multiple(fl, x, w), x * w, STEP)
  {
    FlNear(fl, w);
    Shifted(x, w, fl(w));
    FlNear(fl, x * fl(w));
  }

  /** A factor of at most one does not enlarge the error of the other. */
  lemma Shifted(x: real, w: real, v: real)
    requires 0.0 <= x <= 1.0 && 0.0 <= w <= 1.0 && 0.0 <= v && Close(v, w, HALF_STEP)
    ensures Close(x * v, x * w, HALF_STEP) && 0.0 <= x * v <= 2.0
  {
    var low, high := w - v + HALF_STEP, v - w + HALF_STEP;
    Product(x, v);
    Product(1.0 - x, w);
    Product(x, low);
    Product(x, high);
    assert x * low == x * w - x * v + x * HALF_STEP && x * high == x * v - x * w + x * HALF_STEP;
    assert (1.0 - x) * w == w - x * w;
  }

  lemma MachineDivides(fl: real -> real, x: real, y: real)
    requires IsBinary64(fl) && 0.0 <= x <= 64.0 && 2.0 <= y <= 64.0
    ensures Close(fl(x / y), x / y, STEP)
  {
    var q := x / y;
    assert q * y == x;
    InOrder(0.0, q, y);
    InOrder(q, 32.0, y);
    FlNear(fl, q);
  }

  lemma MachineWhole(fl: real -> real, x: real, w: real)
    requires IsBinary64(fl) && Whole(x) && Whole(w) && x + w <= 64.0
    ensures fl(x + fl(w)) == x + w
  {
    FlWhole(fl, w);
    assert (x.Floor + w.Floor) as real == x + w;
    FlWhole(fl, x + w);
  }

  lemma MachineInOrder(fl: real -> real, x: real, y: real, w: real)
    requires IsBinary64(fl) && 0.0 <= x <= y <= 64.0 && 0.0 <= w <= 3.0
    ensures fl(x + fl(w)) <= fl(y + fl(w))
  {
    FlNear(fl, w);
    FlInOrder(fl, x + fl(w), y + fl(w));
  }

  /** Binary64 arithmetic is accurate to 2^-45 in the range of the scores. */
  lemma MachineIsAccurate(fl: real -> real)
    requires IsBinary64(fl)
    ensures HelpScore.Accurate(Floats64(fl), STEP)
  {
    AllAdds(fl, Floats64(fl));
    AllMultiplies(fl, Floats64(fl));
    AllDivides(fl, Floats64(fl));
  }

  lemma AllAdds(fl: real -> real, fp: Floats)
    requires IsBinary64(fl) && forall x, w :: fp.add(x, w) == Sum(fl, x, w)
    ensures AddsClose(fp, STEP) && AddsWhole(fp) && AddsInOrder(fp)
  {
    forall x, w | 0.0 <= x <= 64.0 && 0.0 <= w <= 3.0
      ensures 0.0 <= fp.add(x, w) && Close(fp.add(x, w), x + w, STEP)
    {
      MachineAdds(fl, x, w);
    }
    forall x, w | Whole(x) && Whole(w) && x + w <= 64.0
      ensures fp.add(x, w) == x + w
    {
      MachineWhole(fl, x, w);
    }
    forall x, y, w | 0.0 <= x <= y <= 64.0 && 0.0 <= w <= 3.0
      ensures fp.add(x, w) <= fp.add(y, w)
    {
      MachineInOrder(fl, x, y, w);
    }
  }

  lemma AllMultiplies(fl: real -> real, fp: Floats)
    requires IsBinary64(fl) && forall x, w :: fp.mul(x, w) == Multiple(fl, x, w)
    ensures MultipliesClose(fp, STEP)
  {
    forall x, w | 0.0 <= x <= 1.0 && 0.0 <= w <= 1.0
      ensures MultipliesAt(fp, STEP, x, w)
    {
      MachineMultiplies(fl, x, w);
      assert fp.mul(x, w) == Multiple(fl, x, w);
    }
  }

  lemma AllDivides(fl: real -> real, fp: Floats)
    requires IsBinary64(fl) && forall x, y :: fp.div(x, y) == Quotient(fl, x, y)
    ensures DividesClose(fp, STEP)
  {
    forall x, y | 0.0 <= x <= 64.0 && 2.0 <= y <= 64.0
      ensures Close(fp.div(x, y), x / y, STEP)
    {
      MachineDivides(fl, x, y);
    }
  }

  lemma WeightsRounded(fl: real -> real, places: real -> bool)
    requires Machine(fl, places)
    ensures fl(1.8) == 8106479329266893.0 / 4503599627370496.0
    ensures fl(0.8) == 7205759403792794.0 / 9007199254740992.0
    ensures fl(0.4) == 7205759403792794.0 / 18014398509481984.0
  {
    FlIs(fl, places, 1.8, 4503599627370496.0, 8106479329266893);
    FlIs(fl, places, 0.8, 9007199254740992.0, 7205759403792794);
    FlIs(fl, places, 0.4, 18014398509481984.0, 7205759403792794);
  }

  /** The sums after one perfect term more: from `p` over `a` and `b` to `c`. */
  lemma PerfectTerm(fl: real -> real, f: Fields, term: string, p: real, a: real, b: real, c: real)
    requires Everywhere(f, term)
    requires fl(p + fl(1.8)) == a && fl(a + fl(0.8)) == b && fl(b + fl(0.4)) == c
    ensures AddTerm(Floats64(fl), f, term, p) == c
  {
  }

  lemma Perfect1(fl: real -> real, places: real -> bool, f: Fields, terms: seq<string>)
    requires Machine(fl, places) && |terms| == 1 && forall t :: t in terms ==> Everywhere(f, t)
    ensures AddTerms(Floats64(fl), f, terms) == 6755399441055744.0 / 2251799813685248.0
  {
    WeightsRounded(fl, places);
    var a, b := 8106479329266893.0 / 4503599627370496.0, 5854679515581645.0 / 2251799813685248.0;
    FlIs(fl, places, 0.0 + fl(1.8), 4503599627370496.0, 8106479329266893);
    FlIs(fl, places, a + fl(0.8), 2251799813685248.0, 5854679515581645);
    FlIs(fl, places, b + fl(0.4), 2251799813685248.0, 6755399441055744);
    PerfectTerm(fl, f, terms[0], 0.0, a, b,
                6755399441055744.0 / 2251799813685248.0);
  }

  lemma Perfect2(fl: real -> real, places: real -> bool, f: Fields, terms: seq<string>)
    requires Machine(fl, places) && |terms| == 2 && forall t :: t in terms ==> Everywhere(f, t)
    ensures AddTerms(Floats64(fl), f, terms) == 6755399441055744.0 / 1125899906842624.0
  {
    WeightsRounded(fl, places);
    var a, b := 5404319552844595.0 / 1125899906842624.0, 6305039478318694.0 / 1125899906842624.0;
    FlIs(fl, places, 6755399441055744.0 / 2251799813685248.0 + fl(1.8), 1125899906842624.0, 5404319552844595);
    FlIs(fl, places, a + fl(0.8), 1125899906842624.0, 6305039478318694);
    FlIs(fl, places, b + fl(0.4), 1125899906842624.0, 6755399441055744);
    Perfect1(fl, places, f, terms[..1]);
    PerfectTerm(fl, f, terms[1], 6755399441055744.0 / 2251799813685248.0, a, b,
                6755399441055744.0 / 1125899906842624.0);
  }

  lemma Perfect3(fl: real -> real, places: real -> bool, f: Fields, terms: seq<string>)
    requires Machine(fl, places) && |terms| == 3 && forall t :: t in terms ==> Everywhere(f, t)
    ensures AddTerms(Floats64(fl), f, terms) == 5066549580791808.0 / 562949953421312.0
  {
    WeightsRounded(fl, places);
    var a, b := 8782019273372467.0 / 1125899906842624.0, 4841369599423283.0 / 562949953421312.0;
    FlIs(fl, places, 6755399441055744.0 / 1125899906842624.0 + fl(1.8), 1125899906842624.0, 8782019273372467);
    FlIs(fl, places, a + fl(0.8), 562949953421312.0, 4841369599423283);
    FlIs(fl, places, b + fl(0.4), 562949953421312.0, 5066549580791808);
    Perfect2(fl, places, f, terms[..2]);
    PerfectTerm(fl, f, terms[2], 6755399441055744.0 / 1125899906842624.0, a, b,
                5066549580791808.0 / 562949953421312.0);
  }

  lemma Perfect4(fl: real -> real, places: real -> bool, f: Fields, terms: seq<string>)
    requires Machine(fl, places) && |terms| == 4 && forall t :: t in terms ==> Everywhere(f, t)
    ensures AddTerms(Floats64(fl), f, terms) == 6755399441055745.0 / 562949953421312.0
  {
    WeightsRounded(fl, places);
    var a, b := 6079859496950170.0 / 562949953421312.0, 6530219459687220.0 / 562949953421312.0;
    FlIs(fl, places, 5066549580791808.0 / 562949953421312.0 + fl(1.8), 562949953421312.0, 6079859496950170);
    FlIs(fl, places, a + fl(0.8), 562949953421312.0, 6530219459687220);
    FlIs(fl, places, b + fl(0.4), 562949953421312.0, 6755399441055745);
    Perfect3(fl, places, f, terms[..3]);
    PerfectTerm(fl, f, terms[3], 5066549580791808.0 / 562949953421312.0, a, b,
                6755399441055745.0 / 562949953421312.0);
  }

  lemma Perfect5(fl: real -> real, places: real -> bool, f: Fields, terms: seq<string>)
    requires Machine(fl, places) && |terms| == 5 && forall t :: t in terms ==> Everywhere(f, t)
    ensures AddTerms(Floats64(fl), f, terms) == 8444249301319682.0 / 562949953421312.0
  {
    WeightsRounded(fl, places);
    var a, b := 7768709357214107.0 / 562949953421312.0, 8219069319951157.0 / 562949953421312.0;
    FlIs(fl, places, 6755399441055745.0 / 562949953421312.0 + fl(1.8), 562949953421312.0, 7768709357214107);
    FlIs(fl, places, a + fl(0.8), 562949953421312.0, 8219069319951157);
    FlIs(fl, places, b + fl(0.4), 562949953421312.0, 8444249301319682);
    Perfect4(fl, places, f, terms[..4]);
    PerfectTerm(fl, f, terms[4], 6755399441055745.0 / 562949953421312.0, a, b,
                8444249301319682.0 / 562949953421312.0);
  }

  lemma Perfect6(fl: real -> real, places: real -> bool, f: Fields, terms: seq<string>)
    requires Machine(fl, places) && |terms| == 6 && forall t :: t in terms ==> Everywhere(f, t)
    ensures AddTerms(Floats64(fl), f, terms) == 5066549580791809.0 / 281474976710656.0
  {
    WeightsRounded(fl, places);
    var a, b := 4728779608739022.0 / 281474976710656.0, 4953959590107547.0 / 281474976710656.0;
    FlIs(fl, places, 8444249301319682.0 / 562949953421312.0 + fl(1.8), 281474976710656.0, 4728779608739022);
    FlIs(fl, places, a + fl(0.8), 281474976710656.0, 4953959590107547);
    FlIs(fl, places, b + fl(0.4), 281474976710656.0, 5066549580791809);
    Perfect5(fl, places, f, terms[..5]);
    PerfectTerm(fl, f, terms[5], 8444249301319682.0 / 562949953421312.0, a, b,
                5066549580791809.0 / 281474976710656.0);
  }

  lemma Perfect7(fl: real -> real, places: real -> bool, f: Fields, terms: seq<string>)
    requires Machine(fl, places) && |terms| == 7 && forall t :: t in terms ==> Everywhere(f, t)
    ensures AddTerms(Floats64(fl), f, terms) == 5910974510923777.0 / 281474976710656.0
  {
    WeightsRounded(fl, places);
    var a, b := 5573204538870990.0 / 281474976710656.0, 5798384520239515.0 / 281474976710656.0;
    FlIs(fl, places, 5066549580791809.0 / 281474976710656.0 + fl(1.8), 281474976710656.0, 5573204538870990);
    FlIs(fl, places, a + fl(0.8), 281474976710656.0, 5798384520239515);
    FlIs(fl, places, b + fl(0.4), 281474976710656.0, 5910974510923777);
    Perfect6(fl, places, f, terms[..6]);
    PerfectTerm(fl, f, terms[6], 5066549580791809.0 / 281474976710656.0, a, b,
                5910974510923777.0 / 281474976710656.0);
  }

  lemma Perfect8(fl: real -> real, places: real -> bool, f: Fields, terms: seq<string>)
    requires Machine(fl, places) && |terms| == 8 && forall t :: t in terms ==> Everywhere(f, t)
    ensures AddTerms(Floats64(fl), f, terms) == 6755399441055745.0 / 281474976710656.0
  {
    WeightsRounded(fl, places);
    var a, b := 6417629469002958.0 / 281474976710656.0, 6642809450371483.0 / 281474976710656.0;
    FlIs(fl, places, 5910974510923777.0 / 281474976710656.0 + fl(1.8), 281474976710656.0, 6417629469002958);
    FlIs(fl, places, a + fl(0.8), 281474976710656.0, 6642809450371483);
    FlIs(fl, places, b + fl(0.4), 281474976710656.0, 6755399441055745);
    Perfect7(fl, places, f, terms[..7]);
    PerfectTerm(fl, f, terms[7], 5910974510923777.0 / 281474976710656.0, a, b,
                6755399441055745.0 / 281474976710656.0);
  }

  lemma Perfect9(fl: real -> real, places: real -> bool, f: Fields, terms: seq<string>)
    requires Machine(fl, places) && |terms| == 9 && forall t :: t in terms ==> Everywhere(f, t)
    ensures AddTerms(Floats64(fl), f, terms) == 7599824371187713.0 / 281474976710656.0
  {
    WeightsRounded(fl, places);
    var a, b := 7262054399134926.0 / 281474976710656.0, 7487234380503451.0 / 281474976710656.0;
    FlIs(fl, places, 6755399441055745.0 / 281474976710656.0 + fl(1.8), 281474976710656.0, 7262054399134926);
    FlIs(fl, places, a + fl(0.8), 281474976710656.0, 7487234380503451);
    FlIs(fl, places, b + fl(0.4), 281474976710656.0, 7599824371187713);
    Perfect8(fl, places, f, terms[..8]);
    PerfectTerm(fl, f, terms[8], 6755399441055745.0 / 281474976710656.0, a, b,
                7599824371187713.0 / 281474976710656.0);
  }

  lemma Perfect10(fl: real -> real, places: real -> bool, f: Fields, terms: seq<string>)
    requires Machine(fl, places) && |terms| == 10 && forall t :: t in terms ==> Everywhere(f, t)
    ensures AddTerms(Floats64(fl), f, terms) == 8444249301319681.0 / 281474976710656.0
  {
    WeightsRounded(fl, places);
    var a, b := 8106479329266894.0 / 281474976710656.0, 8331659310635419.0 / 281474976710656.0;
    FlIs(fl, places, 7599824371187713.0 / 281474976710656.0 + fl(1.8), 281474976710656.0, 8106479329266894);
    FlIs(fl, places, a + fl(0.8), 281474976710656.0, 8331659310635419);
    FlIs(fl, places, b + fl(0.4), 281474976710656.0, 8444249301319681);
    Perfect9(fl, places, f, terms[..9]);
    PerfectTerm(fl, f, terms[9], 7599824371187713.0 / 281474976710656.0, a, b,
                8444249301319681.0 / 281474976710656.0);
  }

  lemma Perfect11(fl: real -> real, places: real -> bool, f: Fields, terms: seq<string>)
    requires Machine(fl, places) && |terms| == 11 && forall t :: t in terms ==> Everywhere(f, t)
    ensures AddTerms(Floats64(fl), f, terms) == 4644337115725824.0 / 140737488355328.0
  {
    WeightsRounded(fl, places);
    var a, b := 8950904259398862.0 / 281474976710656.0, 4588042120383693.0 / 140737488355328.0;
    FlIs(fl, places, 8444249301319681.0 / 281474976710656.0 + fl(1.8), 281474976710656.0, 8950904259398862);
    FlIs(fl, places, a + fl(0.8), 140737488355328.0, 4588042120383693);
    FlIs(fl, places, b + fl(0.4), 140737488355328.0, 4644337115725824);
    Perfect10(fl, places, f, terms[..10]);
    PerfectTerm(fl, f, terms[10], 8444249301319681.0 / 281474976710656.0, a, b,
                4644337115725824.0 / 140737488355328.0);
  }

  lemma Perfect12(fl: real -> real, places: real -> bool, f: Fields, terms: seq<string>)
    requires Machine(fl, places) && |terms| == 12 && forall t :: t in terms ==> Everywhere(f, t)
    ensures AddTerms(Floats64(fl), f, terms) == 5066549580791807.0 / 140737488355328.0
  {
    WeightsRounded(fl, places);
    var a, b := 4897664594765414.0 / 140737488355328.0, 5010254585449676.0 / 140737488355328.0;
    FlIs(fl, places, 4644337115725824.0 / 140737488355328.0 + fl(1.8), 140737488355328.0, 4897664594765414);
    FlIs(fl, places, a + fl(0.8), 140737488355328.0, 5010254585449676);
    FlIs(fl, places, b + fl(0.4), 140737488355328.0, 5066549580791807);
    Perfect11(fl, places, f, terms[..11]);
    PerfectTerm(fl, f, terms[11], 4644337115725824.0 / 140737488355328.0, a, b,
                5066549580791807.0 / 140737488355328.0);
  }

  /** Four terms found everywhere score more than 1 before the clamp. */
  lemma FourTermsExceed(fl: real -> real, f: Fields, terms: seq<string>)
    requires IsBinary64(fl) && |terms| == 4 && forall t :: t in terms ==> Everywhere(f, t)
    ensures var fp := Floats64(fl);
      fp.div(ComputedPoints(fp, f, terms, ""), ComputedMax(fp, |terms|, "")) > 1.0
  {
    Normal(fl);
    Scales();
    Perfect4(fl, IsScale, f, terms);
    MaxOf(fl, terms);
    FlIs(fl, IsScale, 6755399441055745.0 / 562949953421312.0 / 12.0, 4503599627370496.0, 4503599627370497);
  }

  lemma MaxOf(fl: real -> real, terms: seq<string>)
    requires IsBinary64(fl) && |terms| <= MAX_TERMS
    ensures ComputedMax(Floats64(fl), |terms|, "") == 3.0 * |terms| as real
  {
    MachineIsAccurate(fl);
    MaxIsExact(Floats64(fl), |terms|);
  }

  lemma TwelveQuotient(fl: real -> real, places: real -> bool)
    requires Machine(fl, places)
    ensures 0.0 < Quotient(fl, 5066549580791807.0 / 140737488355328.0, 36.0) < 1.0
  {
    FlIs(fl, places, 5066549580791807.0 / 140737488355328.0 / 36.0, 9007199254740992.0, 9007199254740990);
  }

  /** Twelve terms found everywhere score less than 1. */
  lemma TwelveTermsFallShort(fl: real -> real, f: Fields, terms: seq<string>)
    requires IsBinary64(fl) && |terms| == 12 && forall t :: t in terms ==> Everywhere(f, t)
    ensures IsPerfect(f, terms, "") && ShareAsComputed(Floats64(fl), f, terms, "") < 1.0
  {
    Normal(fl);
    Scales();
    Perfect12(fl, IsScale, f, terms);
    TwelveQuotient(fl, IsScale);
    MaxOf(fl, terms);
    ShareWithoutQuery(Floats64(fl), f, terms, 5066549580791807.0 / 140737488355328.0, 36.0);
  }

  lemma ShareWithoutQuery(fp: Floats, f: Fields, terms: seq<string>, points: real, max: real)
    requires AddTerms(fp, f, terms) == points && ComputedMax(fp, |terms|, "") == max > 0.0
    ensures ShareAsComputed(fp, f, terms, "") == Clamp(fp.div(points, max))
  {
  }
}
