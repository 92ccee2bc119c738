/**
 WCAG 2.1 contrast (success criterion 1.4.3) and the palette adjustment built on it, over the reals.
 The power 2.4 is a parameter, fixed by what makes it that power: pow(x)^5 == x^12 and no sign change.
 */
module Palette {
  import opened Strings
  import opened Colors

  type Curve = real -> real

  ghost predicate IsPower24(pow: Curve) {
    && (forall x :: x >= 0.0 ==> pow(x) >= 0.0)
    && (forall x {:trigger Fifth(pow(x))} :: x >= 0.0 ==> Fifth(pow(x)) == Twelfth(x))
  }

  function Fifth(y: real): real { y * y * y * y * y }

  function Twelfth(x: real): real { x * x * x * x * x * x * x * x * x * x * x * x }

  // ---------- luminance and contrast ----------

  function SrgbToLinear(c: real, pow: Curve): real {
    if c <= 0.04045 then c / 12.92 else pow((c + 0.055) / 1.055)
  }

  function Luminance(c: Rgb, pow: Curve): real {
    0.2126 * SrgbToLinear(c.r as real / 255.0, pow)
    + 0.7152 * SrgbToLinear(c.g as real / 255.0, pow)
    + 0.0722 * SrgbToLinear(c.b as real / 255.0, pow)
  }

  /** The ratio from two luminances. */
  function Ratio(l1: real, l2: real): real
    requires l1 >= 0.0 && l2 >= 0.0
  {
    (Max(l1, l2) + 0.05) / (Min(l1, l2) + 0.05)
  }

  lemma {:induction false} PowersOfUnit(x: real)
    requires Unit(x)
    ensures Unit(Twelfth(x))
  {
    var x2 := x * x;
    var x4 := x2 * x2;
    Shrinks(x, x);
    Shrinks(x2, x2);
    Shrinks(x4, x4);
    Shrinks(x4 * x4, x4);
    assert Twelfth(x) == x4 * x4 * x4;
  }

  lemma FifthAboveOne(y: real)
    requires y > 1.0
    ensures Fifth(y) > 1.0
  {
    var y2 := y * y;
    assert y2 > 1.0;
    var y4 := y2 * y2;
    assert y4 > 1.0;
    assert y4 * y > 1.0;
    assert Fifth(y) == y4 * y;
  }

  lemma FifthBelowOne(y: real)
    requires 0.0 <= y < 1.0
    ensures Fifth(y) < 1.0
  {
    var y2 := y * y;
    Shrinks(y, y);
    var y4 := y2 * y2;
    Shrinks(y2, y2);
    Shrinks(y4, y);
    Shrinks(y, y4);
    assert Fifth(y) == y4 * y;
  }

  /** The power maps the unit interval into itself and fixes one. */
  lemma PowerOfUnit(pow: Curve, x: real)
    requires IsPower24(pow) && Unit(x)
    ensures Unit(pow(x)) && pow(1.0) == 1.0
  {
    PowersOfUnit(x);
    var y, one := pow(x), pow(1.0);
    assert Fifth(y) == Twelfth(x);
    if y > 1.0 {
      FifthAboveOne(y);
    }
    assert Fifth(one) == Twelfth(1.0) == 1.0;
    if one > 1.0 {
      FifthAboveOne(one);
    } else if one < 1.0 {
      FifthBelowOne(one);
    }
  }

  lemma LinearUnit(c: real, pow: Curve)
    requires IsPower24(pow) && Unit(c)
    ensures Unit(SrgbToLinear(c, pow))
    ensures SrgbToLinear(0.0, pow) == 0.0 && SrgbToLinear(1.0, pow) == 1.0
  {
    if c > 0.04045 {
      PowerOfUnit(pow, (c + 0.055) / 1.055);
    }
    PowerOfUnit(pow, 1.0);
  }

  /** Luminance lies in 0..1, black and white being its ends. */
  lemma LuminanceUnit(c: Rgb, pow: Curve)
    requires IsPower24(pow)
    ensures Unit(Luminance(c, pow))
    ensures Luminance(WHITE, pow) == 1.0 && Luminance(BLACK, pow) == 0.0
  {
    LinearUnit(c.r as real / 255.0, pow);
    LinearUnit(c.g as real / 255.0, pow);
    LinearUnit(c.b as real / 255.0, pow);
  }

  // ---------- what luminance means for a colour ----------

  /** A grey has the linear light of its channel, which is proportional up to 10 and a power from 11 on. */
  lemma GreyLight(x: Channel, pow: Curve)
    requires IsPower24(pow)
    ensures Luminance(Rgb(x, x, x), pow) ==
      if x <= 10 then x as real / 3294.6 else pow((x as real + 14.025) / 269.025)
  {
    var c := x as real / 255.0;
    assert c <= 0.04045 <==> x <= 10;
    assert c / 12.92 == x as real / 3294.6;
    assert (c + 0.055) / 1.055 == (x as real + 14.025) / 269.025;
  }

  /** A channel alone has a fixed share of the grey of its level: red, green and blue. */
  lemma ChannelShares(x: Channel, pow: Curve)
    requires IsPower24(pow)
    ensures Luminance(Rgb(x, 0, 0), pow) == 0.2126 * Luminance(Rgb(x, x, x), pow)
    ensures Luminance(Rgb(0, x, 0), pow) == 0.7152 * Luminance(Rgb(x, x, x), pow)
    ensures Luminance(Rgb(0, 0, x), pow) == 0.0722 * Luminance(Rgb(x, x, x), pow)
  {
    LinearUnit(0.0, pow);
    assert 0 as real / 255.0 == 0.0;
  }

  lemma PrimaryLuminance(pow: Curve)
    requires IsPower24(pow)
    ensures Luminance(Rgb(255, 0, 0), pow) == 0.2126
    ensures Luminance(Rgb(0, 255, 0), pow) == 0.7152
    ensures Luminance(Rgb(0, 0, 255), pow) == 0.0722
  {
    ChannelShares(255, pow);
    LuminanceUnit(WHITE, pow);
  }

  /** Light adds up: a colour is as bright as its three channels taken alone. */
  lemma LuminanceAdds(c: Rgb, pow: Curve)
    requires IsPower24(pow)
    ensures Luminance(c, pow) ==
      Luminance(Rgb(c.r, 0, 0), pow) + Luminance(Rgb(0, c.g, 0), pow) + Luminance(Rgb(0, 0, c.b), pow)
  {
    LinearUnit(0.0, pow);
    assert 0 as real / 255.0 == 0.0;
  }

  lemma TwelfthIncreases(x: real, y: real)
    requires 0.0 <= x < y
    ensures Twelfth(x) < Twelfth(y)
  {
    var x2, y2 := x * x, y * y;
    ProductIncreases(x, y, x, y);
    var x4, y4 := x2 * x2, y2 * y2;
    ProductIncreases(x2, y2, x2, y2);
    var x8, y8 := x4 * x4, y4 * y4;
    ProductIncreases(x4, y4, x4, y4);
    ProductIncreases(x8, y8, x4, y4);
    TwelfthIs(x, x2, x4, x8);
    TwelfthIs(y, y2, y4, y8);
  }

  lemma ProductIncreases(x: real, y: real, v: real, w: real)
    requires 0.0 <= x < y && 0.0 <= v < w
    ensures 0.0 <= x * v < y * w
  {
    Scale(x, v, w);
    assert (y - x) * w > 0.0;
    assert (y - x) * w == y * w - x * w;
  }

  lemma TwelfthIs(x: real, x2: real, x4: real, x8: real)
    requires x2 == x * x && x4 == x2 * x2 && x8 == x4 * x4
    ensures Twelfth(x) == x8 * x4
  {
  }

  lemma PowerIncreases(pow: Curve, x: real, y: real)
    requires IsPower24(pow) && 0.0 <= x < y
    ensures pow(x) < pow(y)
  {
    TwelfthIncreases(x, y);
    if pow(y) <= pow(x) {
      FifthMonotone(pow(y), pow(x));
      assert false;
    }
  }

  lemma GreyIncreases(x: Channel, y: Channel, pow: Curve)
    requires IsPower24(pow) && x < y
    ensures Luminance(Rgb(x, x, x), pow) < Luminance(Rgb(y, y, y), pow)
  {
    GreyLight(x, pow);
    GreyLight(y, pow);
    if x > 10 {
      PowerIncreases(pow, (x as real + 14.025) / 269.025, (y as real + 14.025) / 269.025);
    } else if y > 10 {
      AboveThreshold(pow, (y as real + 14.025) / 269.025);
    }
  }

  /** The power takes over above the proportional part. */
  lemma AboveThreshold(pow: Curve, x: real)
    requires IsPower24(pow) && x >= 25.025 / 269.025
    ensures pow(x) > 10.0 / 3294.6
  {
    var least := 25.025 / 269.025;
    assert Fifth(10.0 / 3294.6) < Twelfth(least);
    PowerBounds(pow, least, 10.0 / 3294.6);
    if x > least {
      PowerIncreases(pow, least, x);
    }
  }

  /** Raising one channel and lowering none makes a colour brighter. */
  lemma LuminanceIncreases(c: Rgb, d: Rgb, pow: Curve)
    requires IsPower24(pow) && c.r <= d.r && c.g <= d.g && c.b <= d.b && c != d
    ensures Luminance(c, pow) < Luminance(d, pow)
  {
    LuminanceAdds(c, pow);
    LuminanceAdds(d, pow);
    ChannelIncreases(c.r, d.r, pow);
    ChannelIncreases(c.g, d.g, pow);
    ChannelIncreases(c.b, d.b, pow);
  }

  lemma ChannelIncreases(x: Channel, y: Channel, pow: Curve)
    requires IsPower24(pow) && x <= y
    ensures Luminance(Rgb(x, 0, 0), pow) <= Luminance(Rgb(y, 0, 0), pow)
    ensures Luminance(Rgb(0, x, 0), pow) <= Luminance(Rgb(0, y, 0), pow)
    ensures Luminance(Rgb(0, 0, x), pow) <= Luminance(Rgb(0, 0, y), pow)
    ensures x < y ==> Luminance(Rgb(x, 0, 0), pow) < Luminance(Rgb(y, 0, 0), pow)
    ensures x < y ==> Luminance(Rgb(0, x, 0), pow) < Luminance(Rgb(0, y, 0), pow)
    ensures x < y ==> Luminance(Rgb(0, 0, x), pow) < Luminance(Rgb(0, 0, y), pow)
  {
    ChannelShares(x, pow);
    ChannelShares(y, pow);
    if x < y {
      GreyIncreases(x, y, pow);
    }
  }

  /** _contrast_ratio */
  function Contrast(c1: string, c2: string, pow: Curve): (r: real)
    requires HexColor(c1) && HexColor(c2) && IsPower24(pow)
    ensures 1.0 <= r <= 21.0
  {
    var l1, l2 := Luminance(HexToRgb(c1), pow), Luminance(HexToRgb(c2), pow);
    LuminanceUnit(HexToRgb(c1), pow);
    LuminanceUnit(HexToRgb(c2), pow);
    RatioRange(l1, l2);
    Ratio(l1, l2)
  }

  lemma RatioRange(l1: real, l2: real)
    requires Unit(l1) && Unit(l2)
    ensures 1.0 <= Ratio(l1, l2) <= 21.0
  {
    var hi, lo := Max(l1, l2) + 0.05, Min(l1, l2) + 0.05;
    QuotientMonotone(lo, hi, lo);
    QuotientMonotone(hi, 1.05, lo);
    QuotientAntitone(1.05, 0.05, lo);
    QuotientIs(lo, lo, 1.0);
  }

  lemma QuotientMonotone(x: real, y: real, z: real)
    requires 0.0 < z && x <= y
    ensures x / z <= y / z
  {
  }

  lemma QuotientAntitone(x: real, y: real, z: real)
    requires 0.0 <= x && 0.0 < y <= z
    ensures x / z <= x / y
  {
    var p, q := x / z, x / y;
    assert p * z == x && q * y == x;
    Scale(q, y, z);
    MulCancel(p, q, z);
  }

  lemma MulCancel(p: real, q: real, z: real)
    requires 0.0 < z && p * z <= q * z
    ensures p <= q
  {
  }

  // ---------- what white and black can reach ----------

  /** No colour contrasts with a background more than white or black does. */
  lemma ExtremesContrastMost(l: real, bg: real)
    requires Unit(l) && Unit(bg)
    ensures Ratio(l, bg) <= Max(Ratio(1.0, bg), Ratio(0.0, bg))
  {
    if l >= bg {
      QuotientMonotone(l + 0.05, 1.05, bg + 0.05);
    } else {
      QuotientAntitone(bg + 0.05, 0.05, l + 0.05);
    }
  }

  /** The ratios of white and black multiply to 21, so the larger is at least the square root of 21. */
  lemma ExtremesReach(bg: real, minRatio: real)
    requires Unit(bg) && minRatio * minRatio <= 21.0
    ensures Ratio(1.0, bg) >= minRatio || Ratio(0.0, bg) >= minRatio
  {
    var w, b, d := Ratio(1.0, bg), Ratio(0.0, bg), bg + 0.05;
    assert w == 1.05 / d && b == d / 0.05;
    assert w * d == 1.05;
    assert b == 20.0 * d;
    assert w * b == 21.0 by {
      assert w * (20.0 * d) == 20.0 * (w * d);
    }
    if w < minRatio && b < minRatio {
      RatioRange(1.0, bg);
      RatioRange(0.0, bg);
      ProductBelow(w, b, minRatio);
    }
  }

  lemma ProductBelow(w: real, b: real, m: real)
    requires 0.0 < w < m && 0.0 < b < m
    ensures w * b < m * m
  {
    assert w * b < w * m;
    assert w * m < m * m;
  }

  // ---------- the computed conversions ----------

  /**
   The arithmetic of a machine, where it decides a channel: what _hex_to_hsl computes, what one clamped step of
   the lightness by a hundredth computes, and the components of hls_to_rgb times 255, before int() cuts them off.
   */
  datatype Arithmetic = Arithmetic(
    hsl: string -> (real, real, real), step: (real, bool) -> real,
    rgb255: (real, real, real) -> (real, real, real))

  /** Saturations and lightnesses are in 0..1, and no component strays a whole channel out of 0..255. */
  ghost predicate InRange(a: Arithmetic) {
    && (forall s :: HexColor(s) ==> Unit(a.hsl(s).1) && Unit(a.hsl(s).2))
    && (forall l, up :: Unit(l) ==> Unit(a.step(l, up)))
    && (forall h, s, l :: Unit(s) && Unit(l) ==> InChannels(a.rgb255(h, s, l)))
  }

  predicate InChannels(v: (real, real, real)) {
    -1.0 < v.0 < 256.0 && -1.0 < v.1 < 256.0 && -1.0 < v.2 < 256.0
  }

  /** int(v), which cuts toward zero */
  function ToChannel(v: real): Channel
    requires -1.0 < v < 256.0
  {
    if v < 0.0 then 0 else v.Floor
  }

  function HslToHex(a: Arithmetic, h: real, s: real, l: real): (r: string)
    requires InRange(a) && Unit(s) && Unit(l)
    ensures HexColor(r)
  {
    var v := a.rgb255(h, s, l);
    assert InChannels(v);
    RgbToHex(Rgb(ToChannel(v.0), ToChannel(v.1), ToChannel(v.2)))
  }

  /** The lightness `k` computed steps from the colour's own. */
  function Lightness(a: Arithmetic, fg: string, up: bool, k: nat): (l: real)
    requires InRange(a) && HexColor(fg)
    ensures Unit(l)
  {
    if k == 0 then a.hsl(fg).2 else a.step(Lightness(a, fg, up, k - 1), up)
  }

  /** The components, times 255, of the colour `k` steps from `fg`. */
  function Shade(a: Arithmetic, fg: string, up: bool, k: nat): (v: (real, real, real))
    requires InRange(a) && HexColor(fg)
    ensures InChannels(v)
  {
    var (h, s, _) := a.hsl(fg);
    a.rgb255(h, s, Lightness(a, fg, up, k))
  }

  // ---------- the exact conversions, and arithmetic that stays near them ----------

  function HexToHsl(s: string): (real, real, real)
    requires HexColor(s)
  {
    var c := HexToRgb(s);
    var (h, l, sat) := RgbToHls(c.r as real / 255.0, c.g as real / 255.0, c.b as real / 255.0);
    (h * 360.0, sat, l)
  }

  lemma HexToHslRange(s: string)
    requires HexColor(s)
    ensures var (_, sat, l) := HexToHsl(s); Unit(sat) && Unit(l)
  {
    var c := HexToRgb(s);
    RgbToHlsRange(c.r as real / 255.0, c.g as real / 255.0, c.b as real / 255.0);
  }

  /** Lightness after `k` exact clamped steps of one hundredth. */
  function Stepped(l: real, up: bool, k: nat): (r: real)
    requires Unit(l)
    ensures Unit(r)
  {
    if k == 0 then l else Step(Stepped(l, up, k - 1), up)
  }

  function Step(l: real, up: bool): real {
    Max(0.0, Min(1.0, l + (if up then 0.01 else -0.01)))
  }

  /** The exact components, in 0..1, of the colour `k` steps from `fg`. */
  function ExactShade(fg: string, up: bool, k: nat): (real, real, real)
    requires HexColor(fg)
  {
    HexToHslRange(fg);
    var (h, s, l) := HexToHsl(fg);
    HlsToRgb(h / 360.0, Stepped(l, up, k), s)
  }

  /** Less than one channel away from the exact component. */
  predicate Near(v: real, x: real) {
    x * 255.0 - 1.0 < v < x * 255.0 + 1.0
  }

  /** Whatever the rounding on the way, every colour up to a hundred steps away is met to within one channel. */
  ghost predicate Accurate(a: Arithmetic)
    requires InRange(a)
  {
    forall fg, up, k {:trigger Shade(a, fg, up, k)} :: HexColor(fg) && 0 <= k <= 100 ==>
      NearAll(Shade(a, fg, up, k), ExactShade(fg, up, k))
  }

  predicate NearAll(v: (real, real, real), x: (real, real, real)) {
    Near(v.0, x.0) && Near(v.1, x.1) && Near(v.2, x.2)
  }

  /** Arithmetic over the reals. */
  ghost function Exact(): Arithmetic {
    Arithmetic(s => if HexColor(s) then HexToHsl(s) else (0.0, 0.0, 0.0), Step,
               (h, s, l) => Times255(HlsToRgb(h / 360.0, l, s)))
  }

  function Times255(x: (real, real, real)): (real, real, real) {
    (x.0 * 255.0, x.1 * 255.0, x.2 * 255.0)
  }

  lemma ExactInRange()
    ensures InRange(Exact())
  {
    forall s | HexColor(s)
      ensures Unit(Exact().hsl(s).1) && Unit(Exact().hsl(s).2)
    {
      HexToHslRange(s);
    }
    forall h, s, l | Unit(s) && Unit(l)
      ensures InChannels(Exact().rgb255(h, s, l))
    {
      HlsToRgbRange(h / 360.0, l, s);
    }
  }

  lemma {:induction false} ExactLightness(fg: string, up: bool, k: nat)
    requires HexColor(fg) && InRange(Exact())
    ensures Unit(HexToHsl(fg).2) && Lightness(Exact(), fg, up, k) == Stepped(HexToHsl(fg).2, up, k)
  {
    HexToHslRange(fg);
    if k > 0 {
      ExactLightness(fg, up, k - 1);
    }
  }

  /** Real arithmetic is accurate. */
  lemma ExactIsAccurate()
    ensures InRange(Exact()) && Accurate(Exact())
  {
    ExactInRange();
    forall fg, up, k | HexColor(fg) && 0 <= k <= 100
      ensures NearAll(Shade(Exact(), fg, up, k), ExactShade(fg, up, k))
    {
      ExactIsShade(fg, up, k);
      TimesNear(ExactShade(fg, up, k));
    }
  }

  lemma ExactIsShade(fg: string, up: bool, k: nat)
    requires HexColor(fg) && InRange(Exact())
    ensures Shade(Exact(), fg, up, k) == Times255(ExactShade(fg, up, k))
  {
    ExactLightness(fg, up, k);
  }

  lemma TimesNear(x: (real, real, real))
    ensures NearAll(Times255(x), x)
  {
  }

  // ---------- the round trip through HSL ----------

  /** hls_to_rgb recovers the channels that rgb_to_hls was given, even through the degree scale. */
  lemma HslRecovers(s: string)
    requires HexColor(s)
    ensures var c := HexToRgb(s);
            ExactShade(s, true, 0) == (c.r as real / 255.0, c.g as real / 255.0, c.b as real / 255.0)
  {
    var c := HexToRgb(s);
    HexToHslRange(s);
    var (h, sat, l) := HexToHsl(s);
    HlsRoundTrip(c.r as real / 255.0, c.g as real / 255.0, c.b as real / 255.0, h / 360.0, l, sat);
  }

  /** A computed component less than one channel off gives the channel or the one below it. */
  lemma ChannelNear(c: Channel, v: real)
    requires -1.0 < v < 256.0 && Near(v, c as real / 255.0)
    ensures ToChannel(v) == if v >= c as real then c else if c == 0 then 0 else c - 1
  {
    assert c as real / 255.0 * 255.0 == c as real;
  }

  function Back(a: Arithmetic, s: string): (r: string)
    requires InRange(a) && HexColor(s)
    ensures HexColor(r)
  {
    var (h, sat, l) := a.hsl(s);
    HslToHex(a, h, sat, l)
  }

  predicate KeptOrOneLess(c: Channel, d: Channel) {
    d == c || d == c - 1
  }

  /** No component of the converted colour falls short of its channel, except those of channel zero. */
  predicate NoShortfall(v: (real, real, real), c: Rgb) {
    && (c.r == 0 || v.0 >= c.r as real) && (c.g == 0 || v.1 >= c.g as real) && (c.b == 0 || v.2 >= c.b as real)
  }

  /**
   A hex colour converted to HSL and back keeps each channel or loses one from it; it comes back, in lower
   case, exactly when no computed component falls short of its channel.
   */
  lemma HslHexRoundTrip(a: Arithmetic, s: string)
    requires InRange(a) && Accurate(a) && HexColor(s)
    ensures var c, d := HexToRgb(s), HexToRgb(Back(a, s));
      && KeptOrOneLess(c.r, d.r) && KeptOrOneLess(c.g, d.g) && KeptOrOneLess(c.b, d.b)
    ensures Back(a, s) == Lower(s) <==> NoShortfall(Shade(a, s, true, 0), HexToRgb(s))
  {
    var c, v := HexToRgb(s), Shade(a, s, true, 0);
    HslRecovers(s);
    ChannelNear(c.r, v.0);
    ChannelNear(c.g, v.1);
    ChannelNear(c.b, v.2);
    var d := Rgb(ToChannel(v.0), ToChannel(v.1), ToChannel(v.2));
    HexRoundTrip(d, s);
    HexRoundTrip(c, s);
  }

  /** Arithmetic that is always half a channel low is accurate, and loses one from every channel it can. */
  ghost function HalfLow(): Arithmetic {
    Exact().(rgb255 := (h, s, l) => Lowered(HlsToRgb(h / 360.0, l, s)))
  }

  function Lowered(x: (real, real, real)): (real, real, real) {
    (x.0 * 255.0 - 0.5, x.1 * 255.0 - 0.5, x.2 * 255.0 - 0.5)
  }

  lemma HalfLowInRange()
    ensures InRange(HalfLow())
  {
    ExactInRange();
    forall h, s, l | Unit(s) && Unit(l)
      ensures InChannels(HalfLow().rgb255(h, s, l))
    {
      HlsToRgbRange(h / 360.0, l, s);
    }
  }

  lemma {:induction false} HalfLowLightness(fg: string, up: bool, k: nat)
    requires HexColor(fg) && InRange(HalfLow())
    ensures Unit(HexToHsl(fg).2) && Lightness(HalfLow(), fg, up, k) == Stepped(HexToHsl(fg).2, up, k)
  {
    HexToHslRange(fg);
    if k > 0 {
      HalfLowLightness(fg, up, k - 1);
    }
  }

  /** So the bound is met: with such arithmetic no colour but black comes back. */
  lemma HalfLowLoses(s: string)
    requires HexColor(s) && HexToRgb(s) != BLACK
    ensures InRange(HalfLow()) && Accurate(HalfLow()) && Back(HalfLow(), s) != Lower(s)
  {
    HalfLowIsAccurate();
    LowIsShade(s, true, 0);
    LowShadeLoses(HalfLow(), s);
  }

  lemma LowShadeLoses(a: Arithmetic, s: string)
    requires InRange(a) && Accurate(a) && HexColor(s) && HexToRgb(s) != BLACK
    requires Shade(a, s, true, 0) == Lowered(ExactShade(s, true, 0))
    ensures Back(a, s) != Lower(s)
  {
    HslRecovers(s);
    HslHexRoundTrip(a, s);
    var c := HexToRgb(s);
    FallsShort(c.r, c.r as real / 255.0);
    FallsShort(c.g, c.g as real / 255.0);
    FallsShort(c.b, c.b as real / 255.0);
  }

  lemma FallsShort(c: Channel, x: real)
    requires x == c as real / 255.0
    ensures x * 255.0 - 0.5 < c as real
  {
  }

  lemma HalfLowIsAccurate()
    ensures InRange(HalfLow()) && Accurate(HalfLow())
  {
    HalfLowInRange();
    forall fg, up, k | HexColor(fg) && 0 <= k <= 100
      ensures NearAll(Shade(HalfLow(), fg, up, k), ExactShade(fg, up, k))
    {
      LowIsShade(fg, up, k);
      LoweredNear(ExactShade(fg, up, k));
    }
  }

  lemma LowIsShade(fg: string, up: bool, k: nat)
    requires HexColor(fg) && InRange(HalfLow())
    ensures Shade(HalfLow(), fg, up, k) == Lowered(ExactShade(fg, up, k))
  {
    HalfLowLightness(fg, up, k);
  }

  lemma LoweredNear(x: (real, real, real))
    ensures NearAll(Lowered(x), x)
  {
  }

  // ---------- the lightness search ----------

  /** The n-th colour the search tries: 100 steps lighter, then 100 steps darker. */
  function Attempt(a: Arithmetic, fg: string, n: nat): (r: string)
    requires InRange(a) && HexColor(fg) && n < 200
    ensures HexColor(r)
  {
    var v := if n < 100 then Shade(a, fg, true, n + 1) else Shade(a, fg, false, n - 100 + 1);
    RgbToHex(Rgb(ToChannel(v.0), ToChannel(v.1), ToChannel(v.2)))
  }

  /** `k` clamped steps are `k` hundredths, cut off at the end of the range. */
  lemma {:induction false} SteppedIs(l: real, k: nat)
    requires Unit(l)
    ensures Stepped(l, true, k) == Min(1.0, l + k as real * 0.01)
    ensures Stepped(l, false, k) == Max(0.0, l - k as real * 0.01)
  {
    if k > 0 {
      SteppedIs(l, k - 1);
      assert k as real * 0.01 == (k - 1) as real * 0.01 + 0.01;
    }
  }

  const WHITE_HEX := "#ffffff"
  const BLACK_HEX := "#000000"

  lemma ExtremeHex()
    ensures HexColor(WHITE_HEX) && HexColor(BLACK_HEX)
    ensures RgbToHex(WHITE) == WHITE_HEX && RgbToHex(BLACK) == BLACK_HEX
    ensures HexToRgb(WHITE_HEX) == WHITE && HexToRgb(BLACK_HEX) == BLACK
  {
  }

  /** Exactly, a hundred steps lead to white and to black. */
  lemma ExactEnds(fg: string)
    requires HexColor(fg)
    ensures ExactShade(fg, true, 100) == (1.0, 1.0, 1.0) && ExactShade(fg, false, 100) == (0.0, 0.0, 0.0)
  {
    HexToHslRange(fg);
    var (h, s, l) := HexToHsl(fg);
    SteppedIs(l, 100);
    LightnessExtremes(h / 360.0, s);
  }

  predicate NearWhite(c: Rgb) {
    c.r >= 254 && c.g >= 254 && c.b >= 254
  }

  /**
   With accurate arithmetic the hundredth lighter attempt has every channel at 254 or 255, and the hundredth
   darker one is black.
   */
  lemma LastAttempts(a: Arithmetic, fg: string)
    requires InRange(a) && Accurate(a) && HexColor(fg)
    ensures NearWhite(HexToRgb(Attempt(a, fg, 99))) && Attempt(a, fg, 199) == BLACK_HEX
  {
    ExactEnds(fg);
    LastLighter(a, fg);
    LastDarker(a, fg);
  }

  lemma LastLighter(a: Arithmetic, fg: string)
    requires InRange(a) && HexColor(fg) && NearAll(Shade(a, fg, true, 100), (1.0, 1.0, 1.0))
    ensures NearWhite(HexToRgb(Attempt(a, fg, 99)))
  {
    var v := Shade(a, fg, true, 100);
    HexRoundTrip(Rgb(ToChannel(v.0), ToChannel(v.1), ToChannel(v.2)), WHITE_HEX);
  }

  lemma LastDarker(a: Arithmetic, fg: string)
    requires InRange(a) && HexColor(fg) && NearAll(Shade(a, fg, false, 100), (0.0, 0.0, 0.0))
    ensures Attempt(a, fg, 199) == BLACK_HEX
  {
    ExtremeHex();
  }

  lemma ProductMonotone(x: real, y: real, v: real, w: real)
    requires 0.0 <= x <= y && 0.0 <= v <= w
    ensures 0.0 <= x * v <= y * w
  {
    Scale(x, v, w);
    Scale(w, x, y);
    assert x * w == w * x && y * w == w * y;
  }

  lemma FifthIs(x: real, x2: real, x4: real)
    requires x2 == x * x && x4 == x2 * x2
    ensures Fifth(x) == x4 * x
  {
  }

  lemma FifthMonotone(x: real, y: real)
    requires 0.0 <= x <= y
    ensures Fifth(x) <= Fifth(y)
  {
    var x2, y2 := x * x, y * y;
    ProductMonotone(x, y, x, y);
    var x4, y4 := x2 * x2, y2 * y2;
    ProductMonotone(x2, y2, x2, y2);
    ProductMonotone(x4, y4, x, y);
    FifthIs(x, x2, x4);
    FifthIs(y, y2, y4);
  }

  /** A value whose fifth power is below x^12 is below the power 2.4 of x, and likewise above. */
  lemma PowerBounds(pow: Curve, x: real, y: real)
    requires IsPower24(pow) && x >= 0.0 && y >= 0.0
    ensures Fifth(y) < Twelfth(x) ==> y < pow(x)
    ensures Fifth(y) > Twelfth(x) ==> y > pow(x)
  {
    assert Fifth(pow(x)) == Twelfth(x);
    if pow(x) <= y {
      FifthMonotone(pow(x), y);
    }
    if y <= pow(x) {
      FifthMonotone(y, pow(x));
    }
  }

  lemma LinearNearWhite(c: Channel, pow: Curve)
    requires IsPower24(pow) && c >= 254
    ensures SrgbToLinear(c as real / 255.0, pow) >= 0.99
  {
    if c == 254 {
      var x := (254.0 / 255.0 + 0.055) / 1.055;
      assert Fifth(0.99) < Twelfth(x);
      PowerBounds(pow, x, 0.99);
    } else {
      LinearUnit(1.0, pow);
    }
  }

  lemma LuminanceNearWhite(c: Rgb, pow: Curve)
    requires IsPower24(pow) && NearWhite(c)
    ensures Luminance(c, pow) >= 0.99
  {
    LinearNearWhite(c.r, pow);
    LinearNearWhite(c.g, pow);
    LinearNearWhite(c.b, pow);
  }

  /** The ratios of a nearly white colour and of black multiply to 20.8 at least, which leaves 4.5 within reach. */
  lemma NearExtremesReach(w: real, bg: real, minRatio: real)
    requires Unit(w) && w >= 0.99 && Unit(bg) && minRatio * minRatio <= 20.8
    ensures Ratio(w, bg) >= minRatio || Ratio(0.0, bg) >= minRatio
  {
    var d := bg + 0.05;
    var white, black := 1.04 / d, d / 0.05;
    assert Ratio(0.0, bg) == black;
    assert white * d == 1.04 && black == 20.0 * d;
    assert white * black == 20.8 by {
      assert white * (20.0 * d) == 20.0 * (white * d);
    }
    if w >= bg {
      QuotientMonotone(1.04, w + 0.05, d);
    } else {
      QuotientAntitone(1.04, 1.04, d);
    }
    if white < minRatio && black < minRatio {
      ProductBelow(white, black, minRatio);
    } else if white >= minRatio && w < bg {
      assert d >= 1.04;
      QuotientAntitone(1.04, 1.04, d);
      QuotientIs(1.04, 1.04, 1.0);
      RatioRange(w, bg);
    }
  }

  /** The best any colour can do against the background. */
  ghost function Attainable(bg: string, pow: Curve): real
    requires HexColor(bg) && IsPower24(pow)
  {
    ExtremeHex();
    Max(Contrast(WHITE_HEX, bg, pow), Contrast(BLACK_HEX, bg, pow))
  }

  lemma AttainableBounds(c: string, bg: string, pow: Curve)
    requires HexColor(c) && HexColor(bg) && IsPower24(pow)
    ensures Contrast(c, bg, pow) <= Attainable(bg, pow)
  {
    ExtremeHex();
    LuminanceUnit(HexToRgb(c), pow);
    LuminanceUnit(HexToRgb(bg), pow);
    ExtremesContrastMost(Luminance(HexToRgb(c), pow), Luminance(HexToRgb(bg), pow));
  }

  /** Any ratio whose square is at most 21 is attainable against every background. */
  lemma AttainableFloor(bg: string, minRatio: real, pow: Curve)
    requires HexColor(bg) && IsPower24(pow) && minRatio * minRatio <= 21.0
    ensures minRatio <= Attainable(bg, pow)
  {
    ExtremeHex();
    LuminanceUnit(HexToRgb(bg), pow);
    ExtremesReach(Luminance(HexToRgb(bg), pow), minRatio);
  }

  // ---------- the search, over the colours it tries and their ratios ----------

  /** The 200 colours in the order they are tried, and the contrast of each with the background. */
  datatype Trial = Trial(colors: seq<string>, ratios: seq<real>)

  ghost predicate IsTrial(t: Trial, a: Arithmetic, fg: string, bg: string, pow: Curve)
    requires InRange(a) && HexColor(fg) && HexColor(bg) && IsPower24(pow)
  {
    |t.colors| == |t.ratios| == 200 &&
    forall n {:trigger Attempt(a, fg, n)} :: 0 <= n < 200 ==>
      t.colors[n] == Attempt(a, fg, n) && t.ratios[n] == Contrast(Attempt(a, fg, n), bg, pow)
  }

  /** None of the first `tried` colours passed; `best` leads them and the colour itself. */
  ghost predicate Searching(t: Trial, fg: string, ratio: real, minRatio: real, tried: nat, best: string,
                            bestRatio: real) {
    && tried <= |t.colors| == |t.ratios| && ratio <= bestRatio < minRatio
    && ((best == fg && bestRatio == ratio)
        || exists n :: 0 <= n < tried && best == t.colors[n] && FirstBest(t, ratio, n, bestRatio))
    && forall n :: 0 <= n < tried ==> t.ratios[n] <= bestRatio
  }

  /** Colour `n` is the first whose ratio is that high. */
  ghost predicate FirstBest(t: Trial, ratio: real, n: nat, bestRatio: real) {
    n < |t.ratios| && bestRatio == t.ratios[n] && ratio < bestRatio &&
    forall m :: 0 <= m < n ==> t.ratios[m] < bestRatio
  }

  /** Colour `n` is the first that passes. */
  ghost predicate FirstPassing(t: Trial, minRatio: real, n: nat) {
    n < |t.ratios| && t.ratios[n] >= minRatio && forall m :: 0 <= m < n ==> t.ratios[m] < minRatio
  }

  /**
   What the search returns: the colour itself if it passes, else the first colour tried that passes,
   else the first of highest contrast among all of them.
   */
  ghost predicate SearchResult(t: Trial, fg: string, ratio: real, minRatio: real, r: string, rRatio: real) {
    if ratio >= minRatio then r == fg && rRatio == ratio
    else (exists n :: 0 <= n < |t.colors| == |t.ratios| &&
            FirstPassing(t, minRatio, n) && r == t.colors[n] && rRatio == t.ratios[n])
         || Searching(t, fg, ratio, minRatio, |t.colors|, r, rRatio)
  }

  /** The first attempt that passes. */
  ghost predicate FirstAttempt(a: Arithmetic, fg: string, bg: string, minRatio: real, pow: Curve, n: nat)
    requires InRange(a) && HexColor(fg) && HexColor(bg) && IsPower24(pow)
  {
    && n < 200 && Contrast(Attempt(a, fg, n), bg, pow) >= minRatio
    && forall m {:trigger Attempt(a, fg, m)} :: 0 <= m < n ==> Contrast(Attempt(a, fg, m), bg, pow) < minRatio
  }

  /** The passing colour the search settles on: the colour itself, or its first attempt that passes. */
  ghost predicate PassesFirst(a: Arithmetic, fg: string, bg: string, minRatio: real, pow: Curve, r: string)
    requires InRange(a) && HexColor(fg) && HexColor(bg) && IsPower24(pow)
  {
    if Contrast(fg, bg, pow) >= minRatio then r == fg
    else exists n: nat :: n < 200 && r == Attempt(a, fg, n) && FirstAttempt(a, fg, bg, minRatio, pow, n)
  }

  method AdjustLightnessForAA(a: Arithmetic, fg: string, bg: string, minRatio: real, pow: Curve)
    returns (r: string, ghost t: Trial)
    requires InRange(a) && HexColor(fg) && HexColor(bg) && IsPower24(pow)
    ensures HexColor(r) && IsTrial(t, a, fg, bg, pow)
    ensures SearchResult(t, fg, Contrast(fg, bg, pow), minRatio, r, Contrast(r, bg, pow))
    // a colour that passes is left alone, and otherwise the first attempt that passes is taken
    ensures Contrast(r, bg, pow) >= minRatio <==> PassesFirst(a, fg, bg, minRatio, pow, r)
    // no search reaches more than white or black does
    ensures Contrast(r, bg, pow) >= minRatio ==> minRatio <= Attainable(bg, pow)
    // with accurate arithmetic 4.5 to 1 is always reached, as is every ratio whose square is at most 20.8
    ensures Accurate(a) && minRatio * minRatio <= 20.8 ==>
      Contrast(r, bg, pow) >= minRatio && PassesFirst(a, fg, bg, minRatio, pow, r)
    ensures Accurate(a) && 0.0 <= minRatio <= 4.5 ==> PassesFirst(a, fg, bg, minRatio, pow, r)
    // and where the hundredth lighter attempt is pure white, exactly what white or black reaches
    ensures Accurate(a) && Attempt(a, fg, 99) == WHITE_HEX ==>
      (Contrast(r, bg, pow) >= minRatio <==> minRatio <= Attainable(bg, pow))
    ensures Accurate(a) && Attempt(a, fg, 99) == WHITE_HEX && minRatio * minRatio <= 21.0 ==>
      Contrast(r, bg, pow) >= minRatio
  {
    t := TrialOf(a, fg, bg, pow);
    var ratio := Contrast(fg, bg, pow);
    ghost var rRatio;
    r, rRatio := SearchAll(a, fg, bg, minRatio, pow, ratio, t);
    ResultRatio(t, a, fg, bg, minRatio, pow, r, rRatio);
    ResultAttains(t, a, fg, bg, minRatio, pow, r);
    ResultIsFirst(t, a, fg, bg, minRatio, pow, r);
    if 0.0 <= minRatio <= 4.5 {
      SquareBelow(minRatio);
    }
    if minRatio * minRatio <= 21.0 {
      AttainableFloor(bg, minRatio, pow);
    }
  }

  lemma SquareBelow(minRatio: real)
    requires 0.0 <= minRatio <= 4.5
    ensures minRatio * minRatio <= 20.8
  {
    ProductMonotone(minRatio, 4.5, minRatio, 4.5);
  }

  ghost method TrialOf(a: Arithmetic, fg: string, bg: string, pow: Curve) returns (t: Trial)
    requires InRange(a) && HexColor(fg) && HexColor(bg) && IsPower24(pow)
    ensures IsTrial(t, a, fg, bg, pow)
  {
    t := Trial(seq(200, n requires 0 <= n < 200 => Attempt(a, fg, n)),
               seq(200, n requires 0 <= n < 200 => Contrast(Attempt(a, fg, n), bg, pow)));
  }

  /** Both directions, lighter first. */
  method SearchAll(a: Arithmetic, fg: string, bg: string, minRatio: real, pow: Curve, ratio: real, ghost t: Trial)
    returns (r: string, ghost rRatio: real)
    requires InRange(a) && HexColor(fg) && HexColor(bg) && IsPower24(pow) && IsTrial(t, a, fg, bg, pow)
    ensures SearchResult(t, fg, ratio, minRatio, r, rRatio)
  {
    if ratio >= minRatio {
      return fg, ratio;
    }
    var best, bestRatio, found := fg, ratio, false;
    for direction := 0 to 2
      invariant Searching(t, fg, ratio, minRatio, direction * 100, best, bestRatio)
    {
      found, best, bestRatio := SearchDirection(a, fg, bg, minRatio, pow, direction == 0, ratio, best, bestRatio, t);
      if found {
        return best, bestRatio;
      }
    }
    return best, bestRatio;
  }

  ghost function Index(up: bool, i: nat): nat {
    if up then i else 100 + i
  }

  /** One direction of the search: up to 100 steps from the colour's own lightness. */
  method SearchDirection(a: Arithmetic, fg: string, bg: string, minRatio: real, pow: Curve, up: bool, ghost ratio: real,
                         best0: string, bestRatio0: real, ghost t: Trial)
    returns (found: bool, best: string, bestRatio: real)
    requires InRange(a) && HexColor(fg) && HexColor(bg) && IsPower24(pow) && IsTrial(t, a, fg, bg, pow)
    requires ratio < minRatio
    requires Searching(t, fg, ratio, minRatio, Index(up, 0), best0, bestRatio0)
    ensures found ==> SearchResult(t, fg, ratio, minRatio, best, bestRatio)
    ensures !found ==> Searching(t, fg, ratio, minRatio, Index(up, 100), best, bestRatio)
  {
    found, best, bestRatio := false, best0, bestRatio0;
    var testL := StartLightness(a, fg);
    for i := 0 to 100
      invariant testL == Lightness(a, fg, up, i)
      invariant Searching(t, fg, ratio, minRatio, Index(up, i), best, bestRatio)
    {
      testL := NextLightness(a, fg, up, i, testL);
      var candidate, c := TryColor(a, fg, bg, pow, up, i, testL, t);
      if c >= minRatio {
        assert FirstPassing(t, minRatio, Index(up, i));
        return true, candidate, c;
      }
      if c > bestRatio {
        best, bestRatio := candidate, c;
      }
    }
  }

  method StartLightness(a: Arithmetic, fg: string) returns (l: real)
    requires InRange(a) && HexColor(fg)
    ensures l == Lightness(a, fg, true, 0) == Lightness(a, fg, false, 0)
  {
    l := a.hsl(fg).2;
  }

  method NextLightness(a: Arithmetic, fg: string, up: bool, i: nat, l0: real) returns (l: real)
    requires InRange(a) && HexColor(fg) && l0 == Lightness(a, fg, up, i)
    ensures l == Lightness(a, fg, up, i + 1)
  {
    l := a.step(l0, up);
  }

  /** The candidate colour of one step and its contrast. */
  method TryColor(a: Arithmetic, fg: string, bg: string, pow: Curve, up: bool, i: nat, testL: real, ghost t: Trial)
    returns (candidate: string, ratio: real)
    requires InRange(a) && HexColor(fg) && HexColor(bg) && IsPower24(pow) && IsTrial(t, a, fg, bg, pow)
    requires i < 100 && testL == Lightness(a, fg, up, i + 1)
    ensures candidate == t.colors[Index(up, i)] && ratio == t.ratios[Index(up, i)]
  {
    candidate := ColorAt(a, fg, up, i, testL);
    ratio := Contrast(candidate, bg, pow);
  }

  method ColorAt(a: Arithmetic, fg: string, up: bool, i: nat, testL: real) returns (candidate: string)
    requires InRange(a) && HexColor(fg) && i < 100 && testL == Lightness(a, fg, up, i + 1)
    ensures candidate == Attempt(a, fg, Index(up, i))
  {
    var (h, s, _) := a.hsl(fg);
    candidate := HslToHex(a, h, s, testL);
  }

  lemma ResultRatio(t: Trial, a: Arithmetic, fg: string, bg: string, minRatio: real, pow: Curve, r: string,
                    rRatio: real)
    requires InRange(a) && HexColor(fg) && HexColor(bg) && IsPower24(pow) && IsTrial(t, a, fg, bg, pow)
    requires SearchResult(t, fg, Contrast(fg, bg, pow), minRatio, r, rRatio)
    ensures HexColor(r) && rRatio == Contrast(r, bg, pow)
  {
    if r != fg || rRatio != Contrast(fg, bg, pow) {
      var n :| 0 <= n < 200 && r == t.colors[n] && rRatio == t.ratios[n];
      assert r == Attempt(a, fg, n);
    }
  }

  lemma ResultIsFirst(t: Trial, a: Arithmetic, fg: string, bg: string, minRatio: real, pow: Curve, r: string)
    requires InRange(a) && HexColor(fg) && HexColor(bg) && HexColor(r) && IsPower24(pow) && IsTrial(t, a, fg, bg, pow)
    requires SearchResult(t, fg, Contrast(fg, bg, pow), minRatio, r, Contrast(r, bg, pow))
    ensures Contrast(r, bg, pow) >= minRatio <==> PassesFirst(a, fg, bg, minRatio, pow, r)
  {
    if Contrast(r, bg, pow) >= minRatio && Contrast(fg, bg, pow) < minRatio {
      var n := FirstTried(t, fg, Contrast(fg, bg, pow), minRatio, r, Contrast(r, bg, pow));
      assert r == Attempt(a, fg, n);
      assert FirstAttempt(a, fg, bg, minRatio, pow, n);
    }
  }

  lemma ResultAttains(t: Trial, a: Arithmetic, fg: string, bg: string, minRatio: real, pow: Curve, r: string)
    requires InRange(a) && HexColor(fg) && HexColor(bg) && HexColor(r) && IsPower24(pow) && IsTrial(t, a, fg, bg, pow)
    requires SearchResult(t, fg, Contrast(fg, bg, pow), minRatio, r, Contrast(r, bg, pow))
    ensures Contrast(r, bg, pow) >= minRatio ==> minRatio <= Attainable(bg, pow)
    ensures Accurate(a) && minRatio * minRatio <= 20.8 ==> Contrast(r, bg, pow) >= minRatio
    ensures Accurate(a) && Attempt(a, fg, 99) == WHITE_HEX && minRatio <= Attainable(bg, pow) ==>
      Contrast(r, bg, pow) >= minRatio
  {
    AttainableBounds(r, bg, pow);
    if Accurate(a) {
      LastAttempts(a, fg);
      AnyAttempt(t, a, fg, bg, minRatio, pow, r, 99);
      AnyAttempt(t, a, fg, bg, minRatio, pow, r, 199);
      LastAttemptsReach(a, fg, bg, minRatio, pow);
    }
  }

  /** If some attempt passes, so does the result. */
  lemma AnyAttempt(t: Trial, a: Arithmetic, fg: string, bg: string, minRatio: real, pow: Curve, r: string, n: nat)
    requires InRange(a) && HexColor(fg) && HexColor(bg) && HexColor(r) && IsPower24(pow) && IsTrial(t, a, fg, bg, pow)
    requires SearchResult(t, fg, Contrast(fg, bg, pow), minRatio, r, Contrast(r, bg, pow)) && n < 200
    ensures Contrast(Attempt(a, fg, n), bg, pow) >= minRatio ==> Contrast(r, bg, pow) >= minRatio
  {
    assert t.ratios[n] == Contrast(Attempt(a, fg, n), bg, pow);
    AnyTried(t, fg, Contrast(fg, bg, pow), minRatio, r, Contrast(r, bg, pow), n);
  }

  lemma AnyTried(t: Trial, fg: string, ratio: real, minRatio: real, r: string, rRatio: real, n: nat)
    requires SearchResult(t, fg, ratio, minRatio, r, rRatio) && n < |t.ratios| == |t.colors|
    ensures t.ratios[n] >= minRatio ==> rRatio >= minRatio
  {
  }

  /** A search that succeeds after the colour itself failed returns the first attempt that passes. */
  lemma FirstTried(t: Trial, fg: string, ratio: real, minRatio: real, r: string, rRatio: real) returns (n: nat)
    requires SearchResult(t, fg, ratio, minRatio, r, rRatio) && ratio < minRatio <= rRatio
    ensures n < |t.colors| == |t.ratios| && FirstPassing(t, minRatio, n) && r == t.colors[n]
  {
    n :| 0 <= n < |t.colors| == |t.ratios| && FirstPassing(t, minRatio, n) && r == t.colors[n];
  }

  lemma LastAttemptsReach(a: Arithmetic, fg: string, bg: string, minRatio: real, pow: Curve)
    requires InRange(a) && Accurate(a) && HexColor(fg) && HexColor(bg) && IsPower24(pow)
    ensures minRatio * minRatio <= 20.8 ==>
      Contrast(Attempt(a, fg, 99), bg, pow) >= minRatio || Contrast(Attempt(a, fg, 199), bg, pow) >= minRatio
  {
    LastAttempts(a, fg);
    ExtremeHex();
    var white := HexToRgb(Attempt(a, fg, 99));
    LuminanceNearWhite(white, pow);
    LuminanceUnit(white, pow);
    LuminanceUnit(HexToRgb(bg), pow);
    if minRatio * minRatio <= 20.8 {
      NearExtremesReach(Luminance(white, pow), Luminance(HexToRgb(bg), pow), minRatio);
    }
  }
}
