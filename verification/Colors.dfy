/**
 Hex colours, RGB and HSL as drupal_local.py and Python's colorsys define them, over the reals.
 */
module Colors {
  import opened Strings

  type Channel = c: int | 0 <= c <= 255

  datatype Rgb = Rgb(r: Channel, g: Channel, b: Channel)

  const WHITE := Rgb(255, 255, 255)
  const BLACK := Rgb(0, 0, 0)

  // ---------- hex text ----------

  /** `#` and six hexadecimal digits, the only colours the palette endpoints let through. */
  predicate HexColor(s: string) {
    |s| == 7 && s[0] == '#' && forall i :: 1 <= i < 7 ==> IsHex(s[i])
  }

  /** The short form `#rgb`, which the converter also takes. */
  predicate ShortHexColor(s: string) {
    |s| == 4 && s[0] == '#' && forall i :: 1 <= i < 4 ==> IsHex(s[i])
  }

  function HexPair(a: char, b: char): Channel
    requires IsHex(a) && IsHex(b)
  {
    HexValue(a) * 16 + HexValue(b)
  }

  function HexToRgb(s: string): Rgb
    requires HexColor(s) || ShortHexColor(s)
  {
    if |s| == 4 then Rgb(HexPair(s[1], s[1]), HexPair(s[2], s[2]), HexPair(s[3], s[3]))
    else Rgb(HexPair(s[1], s[2]), HexPair(s[3], s[4]), HexPair(s[5], s[6]))
  }

  function HexDigit(d: int): char
    requires 0 <= d < 16
  {
    (if d < 10 then 0x30 + d else 0x57 + d) as char
  }

  function RgbToHex(c: Rgb): (s: string)
    ensures HexColor(s)
  {
    ['#', HexDigit(c.r / 16), HexDigit(c.r % 16), HexDigit(c.g / 16), HexDigit(c.g % 16),
     HexDigit(c.b / 16), HexDigit(c.b % 16)]
  }

  lemma HexOfChannel(a: char, b: char)
    requires IsHex(a) && IsHex(b)
    ensures HexDigit(HexPair(a, b) / 16) == LowerChar(a) && HexDigit(HexPair(a, b) % 16) == LowerChar(b)
  {
    assert HexPair(a, b) / 16 == HexValue(a) && HexPair(a, b) % 16 == HexValue(b);
  }

  lemma ChannelOfHex(c: Channel)
    ensures HexPair(HexDigit(c / 16), HexDigit(c % 16)) == c
  {
  }

  /** Parsing and printing undo each other, up to the case of the digits. */
  lemma HexRoundTrip(c: Rgb, s: string)
    requires HexColor(s)
    ensures HexToRgb(RgbToHex(c)) == c
    ensures RgbToHex(HexToRgb(s)) == Lower(s)
  {
    ChannelOfHex(c.r);
    ChannelOfHex(c.g);
    ChannelOfHex(c.b);
    HexOfChannel(s[1], s[2]);
    HexOfChannel(s[3], s[4]);
    HexOfChannel(s[5], s[6]);
  }

  /** A three-digit colour prints as the six-digit colour with every digit doubled. */
  lemma ShortHexExpands(s: string)
    requires ShortHexColor(s)
    ensures RgbToHex(HexToRgb(s)) == Lower(['#', s[1], s[1], s[2], s[2], s[3], s[3]])
  {
    var long := ['#', s[1], s[1], s[2], s[2], s[3], s[3]];
    assert HexColor(long) && HexToRgb(s) == HexToRgb(long);
    HexRoundTrip(HexToRgb(long), long);
  }

  // ---------- colorsys ----------

  /** x % 1.0 */
  function Frac(x: real): real {
    x - x.Floor as real
  }

  lemma FracShift(x: real, k: int)
    requires 0.0 <= x - k as real < 1.0
    ensures Frac(x) == x - k as real
  {
    var f := x.Floor;
    assert f as real <= x < (f + 1) as real;
    assert f == k;
  }

  function Max(a: real, b: real): real { if a >= b then a else b }

  function Min(a: real, b: real): real { if a <= b then a else b }

  /** From one level toward the other, in sixths of the wheel. */
  function Ramp(m1: real, m2: real, t: real): real {
    m1 + (m2 - m1) * t * 6.0
  }

  function HueChannel(m1: real, m2: real, hue0: real): real {
    var hue := Frac(hue0);
    if hue < 1.0 / 6.0 then Ramp(m1, m2, hue)
    else if hue < 0.5 then m2
    else if hue < 2.0 / 3.0 then Ramp(m1, m2, 2.0 / 3.0 - hue)
    else m1
  }

  function UpperLevel(l: real, s: real): real {
    if l <= 0.5 then l * (1.0 + s) else l + s - l * s
  }

  /** hls_to_rgb */
  function HlsToRgb(h: real, l: real, s: real): (real, real, real) {
    if s == 0.0 then (l, l, l)
    else
      var m2 := UpperLevel(l, s);
      var m1 := 2.0 * l - m2;
      (HueChannel(m1, m2, h + 1.0 / 3.0), HueChannel(m1, m2, h), HueChannel(m1, m2, h - 1.0 / 3.0))
  }

  predicate Unit(x: real) { 0.0 <= x <= 1.0 }

  function Largest(r: real, g: real, b: real): real { Max(r, Max(g, b)) }

  function Smallest(r: real, g: real, b: real): real { Min(r, Min(g, b)) }

  function Saturation(maxc: real, minc: real): real
    requires 0.0 <= minc < maxc <= 1.0
  {
    if (maxc + minc) / 2.0 <= 0.5 then (maxc - minc) / (maxc + minc) else (maxc - minc) / (2.0 - maxc - minc)
  }

  /** The hue in sixths of a turn, before reduction. */
  function HueSixths(r: real, g: real, b: real, maxc: real, range: real): real
    requires range > 0.0
  {
    var rc, gc, bc := (maxc - r) / range, (maxc - g) / range, (maxc - b) / range;
    if r == maxc then bc - gc else if g == maxc then 2.0 + rc - bc else 4.0 + gc - rc
  }

  /** rgb_to_hls */
  function RgbToHls(r: real, g: real, b: real): (real, real, real)
    requires Unit(r) && Unit(g) && Unit(b)
  {
    var maxc, minc := Largest(r, g, b), Smallest(r, g, b);
    var l := (maxc + minc) / 2.0;
    if minc == maxc then (0.0, l, 0.0)
    else (Frac(HueSixths(r, g, b, maxc, maxc - minc) / 6.0), l, Saturation(maxc, minc))
  }

  // ---------- where the hues lie ----------

  /** Red, green and blue of any level above black are thirds of the wheel apart, and fully saturated. */
  lemma PrimaryHues(x: real)
    requires 0.0 < x <= 1.0
    ensures RgbToHls(x, 0.0, 0.0) == (0.0, x / 2.0, 1.0)
    ensures RgbToHls(0.0, x, 0.0) == (1.0 / 3.0, x / 2.0, 1.0)
    ensures RgbToHls(0.0, 0.0, x) == (2.0 / 3.0, x / 2.0, 1.0)
  {
    assert x / x == 1.0 && 0.0 / x == 0.0;
    FracShift(0.0, 0);
    FracShift(1.0 / 3.0, 0);
    FracShift(2.0 / 3.0, 0);
  }

  // ---------- ranges ----------

  lemma Scale(x: real, y: real, z: real)
    requires 0.0 <= x && 0.0 <= y <= z
    ensures 0.0 <= x * y <= x * z
  {
  }

  lemma Shrinks(x: real, y: real)
    requires 0.0 <= x && Unit(y)
    ensures 0.0 <= x * y <= x
  {
  }

  lemma UpperLevelIs(l: real, s: real)
    ensures UpperLevel(l, s) == if l <= 0.5 then l + l * s else l + (1.0 - l) * s
  {
  }

  lemma LevelsFrom(l: real, p: real)
    requires Unit(l) && 0.0 <= p <= (if l <= 0.5 then l else 1.0 - l)
    ensures 0.0 <= 2.0 * l - (l + p) <= l + p <= 1.0
  {
  }

  lemma UpperLevelRange(l: real, s: real)
    requires Unit(l) && Unit(s)
    ensures var m2 := UpperLevel(l, s); 0.0 <= 2.0 * l - m2 <= m2 <= 1.0
  {
    UpperLevelIs(l, s);
    var c := if l <= 0.5 then l else 1.0 - l;
    Shrinks(c, s);
    LevelsFrom(l, c * s);
  }

  lemma Between(m1: real, m2: real, t: real)
    requires m1 <= m2 && 0.0 <= t <= 1.0 / 6.0
    ensures m1 <= Ramp(m1, m2, t) <= m2
  {
    var p := (m2 - m1) * t;
    Scale(m2 - m1, 6.0 * t, 1.0);
    assert (m2 - m1) * (6.0 * t) == 6.0 * p;
  }

  lemma HueChannelRange(m1: real, m2: real, hue0: real)
    requires m1 <= m2
    ensures m1 <= HueChannel(m1, m2, hue0) <= m2
  {
    var hue := Frac(hue0);
    if hue < 1.0 / 6.0 {
      Between(m1, m2, hue);
    } else if 0.5 <= hue < 2.0 / 3.0 {
      Between(m1, m2, 2.0 / 3.0 - hue);
    }
  }

  /** For saturation and lightness in 0..1, any hue gives components in 0..1. */
  lemma HlsToRgbRange(h: real, l: real, s: real)
    requires Unit(l) && Unit(s)
    ensures var (r, g, b) := HlsToRgb(h, l, s); Unit(r) && Unit(g) && Unit(b)
  {
    UpperLevelRange(l, s);
    var m2 := UpperLevel(l, s);
    HueChannelRange(2.0 * l - m2, m2, h + 1.0 / 3.0);
    HueChannelRange(2.0 * l - m2, m2, h);
    HueChannelRange(2.0 * l - m2, m2, h - 1.0 / 3.0);
  }

  lemma QuotientIs(x: real, y: real, q: real)
    requires y > 0.0 && q * y == x
    ensures x / y == q
  {
  }

  lemma QuotientUnit(x: real, y: real)
    requires 0.0 <= x <= y && y > 0.0
    ensures Unit(x / y)
  {
  }

  lemma RgbToHlsRange(r: real, g: real, b: real)
    requires Unit(r) && Unit(g) && Unit(b)
    ensures var (h, l, s) := RgbToHls(r, g, b); Unit(h) && Unit(l) && Unit(s)
  {
    var maxc, minc := Largest(r, g, b), Smallest(r, g, b);
    if minc != maxc {
      QuotientUnit(maxc - minc, maxc + minc);
      if maxc + minc > 1.0 {
        QuotientUnit(maxc - minc, 2.0 - maxc - minc);
      }
    }
  }

  /** Lightness one is white and lightness zero is black, whatever the hue and saturation. */
  lemma LightnessExtremes(h: real, s: real)
    ensures HlsToRgb(h, 1.0, s) == (1.0, 1.0, 1.0)
    ensures HlsToRgb(h, 0.0, s) == (0.0, 0.0, 0.0)
  {
    assert UpperLevel(1.0, s) == 1.0;
    assert UpperLevel(0.0, s) == 0.0;
  }

  // ---------- HSL to RGB undoes RGB to HSL ----------

  lemma LevelsRecovered(maxc: real, minc: real)
    requires 0.0 <= minc < maxc <= 1.0
    ensures var l, s := (maxc + minc) / 2.0, Saturation(maxc, minc);
            s != 0.0 && UpperLevel(l, s) == maxc && 2.0 * l - UpperLevel(l, s) == minc
  {
    var l, s, range := (maxc + minc) / 2.0, Saturation(maxc, minc), maxc - minc;
    if l <= 0.5 {
      assert s * (maxc + minc) == range;
      assert l * (1.0 + s) == l + s * (maxc + minc) / 2.0;
    } else {
      assert s * (2.0 - maxc - minc) == range;
      assert l + s - l * s == l + s * (2.0 - maxc - minc) / 2.0;
    }
  }

  /** The four arcs of the wheel; the bounds of each belong to it as well. */
  lemma RisingArc(m1: real, m2: real, k: int, t: real)
    requires Unit(t)
    ensures HueChannel(m1, m2, k as real + t / 6.0) == m1 + (m2 - m1) * t
  {
    FracShift(k as real + t / 6.0, k);
    assert (m2 - m1) * (t / 6.0) * 6.0 == (m2 - m1) * t;
  }

  lemma HighArc(m1: real, m2: real, k: int, u: real)
    requires 1.0 / 6.0 <= u <= 0.5
    ensures HueChannel(m1, m2, k as real + u) == m2
  {
    FracShift(k as real + u, k);
  }

  lemma FallingArc(m1: real, m2: real, k: int, t: real)
    requires Unit(t)
    ensures HueChannel(m1, m2, k as real + 2.0 / 3.0 - t / 6.0) == m1 + (m2 - m1) * t
  {
    FracShift(k as real + 2.0 / 3.0 - t / 6.0, k);
    assert (m2 - m1) * (t / 6.0) * 6.0 == (m2 - m1) * t;
  }

  lemma LowArc(m1: real, m2: real, k: int, u: real)
    requires 2.0 / 3.0 <= u <= 1.0
    ensures HueChannel(m1, m2, k as real + u) == m1
  {
    if u < 1.0 {
      FracShift(k as real + u, k);
    } else {
      FracShift(k as real + u, k + 1);
      var hue := Frac(k as real + u);
      assert hue == 0.0;
      assert (m2 - m1) * hue == 0.0;
    }
  }

  /** Where a value lies between the extremes, and the complement colorsys works with. */
  lemma Position(minc: real, maxc: real, x: real)
    requires minc < maxc && minc <= x <= maxc
    ensures var t := (x - minc) / (maxc - minc);
            Unit(t) && (maxc - x) / (maxc - minc) == 1.0 - t && minc + (maxc - minc) * t == x
  {
    var range := maxc - minc;
    var t := (x - minc) / range;
    QuotientUnit(x - minc, range);
    assert t * range == x - minc;
    assert (1.0 - t) * range == maxc - x;
    QuotientIs(maxc - x, range, 1.0 - t);
  }

  /**
   The three channels at hue j/3 + t/6 (`up`) or j/3 - t/6, for j = 0, 1, 2 and any whole turns:
   the largest is channel j, and the third is on the side the hue leans to.
   */
  lemma Wheel(m1: real, m2: real, t: real, h: real, k: int, j: int, up: bool)
    requires Unit(t) && 0 <= j <= 2
    requires h == k as real + j as real / 3.0 + (if up then t / 6.0 else -t / 6.0)
    ensures var x := m1 + (m2 - m1) * t;
            (HueChannel(m1, m2, h + 1.0 / 3.0), HueChannel(m1, m2, h), HueChannel(m1, m2, h - 1.0 / 3.0)) ==
              if j == 0 then (if up then (m2, x, m1) else (m2, m1, x))
              else if j == 1 then (if up then (m1, m2, x) else (x, m2, m1))
              else (if up then (x, m1, m2) else (m1, x, m2))
  {
    var d := if up then t / 6.0 else -t / 6.0;
    // the channel at offset 1/3 is at its top, the one at 0 or 2/3 ramps, the remaining one is at the bottom
    HighArc(m1, m2, k, 1.0 / 3.0 + d);
    HighArc(m1, m2, k - 1, 1.0 / 3.0 + d);
    if up {
      RisingArc(m1, m2, k, t);
      RisingArc(m1, m2, k + 1, t);
      LowArc(m1, m2, k - 1, 2.0 / 3.0 + d);
      LowArc(m1, m2, k, 2.0 / 3.0 + d);
    } else {
      FallingArc(m1, m2, k - 1, t);
      FallingArc(m1, m2, k, t);
      LowArc(m1, m2, k - 1, 1.0 + d);
      LowArc(m1, m2, k, 1.0 + d);
    }
  }

  /** Channel `j` is largest, and the third channel `mid` is the one the hue leans to. */
  ghost predicate Arranged(r: real, g: real, b: real, maxc: real, mid: real, minc: real, j: int, up: bool) {
    && 0 <= j <= 2 && minc < maxc && minc <= mid <= maxc
    && (r, g, b) == (if j == 0 then (if up then (maxc, mid, minc) else (maxc, minc, mid))
         else if j == 1 then (if up then (minc, maxc, mid) else (mid, maxc, minc))
         else (if up then (mid, minc, maxc) else (minc, mid, maxc)))
    // ties go to the first channel
    && (j > 0 ==> r != maxc) && (j > 1 ==> g != maxc)
  }

  lemma Arrange(r: real, g: real, b: real) returns (mid: real, j: int, up: bool)
    requires !(r == g == b)
    ensures Arranged(r, g, b, Largest(r, g, b), mid, Smallest(r, g, b), j, up)
  {
    var maxc, minc := Largest(r, g, b), Smallest(r, g, b);
    j := if r == maxc then 0 else if g == maxc then 1 else 2;
    up := if j == 0 then b == minc else if j == 1 then r == minc else g == minc;
    mid := if j == 0 then (if up then g else b) else if j == 1 then (if up then b else r) else (if up then r else g);
  }

  lemma SixthsOf(r: real, g: real, b: real, maxc: real, mid: real, minc: real, j: int, up: bool)
    requires Arranged(r, g, b, maxc, mid, minc, j, up)
    ensures var t := (mid - minc) / (maxc - minc);
            HueSixths(r, g, b, maxc, maxc - minc) == 2.0 * j as real + (if up then t else -t)
  {
    Position(minc, maxc, mid);
    QuotientIs(maxc - minc, maxc - minc, 1.0);
    QuotientIs(0.0, maxc - minc, 0.0);
  }

  /** hls_to_rgb at a hue and levels of known shape. */
  lemma HlsWheel(h: real, l: real, s: real, m1: real, m2: real, t: real, x: real, k: int, j: int, up: bool)
    requires s != 0.0 && UpperLevel(l, s) == m2 && 2.0 * l - m2 == m1
    requires Unit(t) && 0 <= j <= 2 && x == m1 + (m2 - m1) * t
    requires h == k as real + j as real / 3.0 + (if up then t / 6.0 else -t / 6.0)
    ensures HlsToRgb(h, l, s) ==
            if j == 0 then (if up then (m2, x, m1) else (m2, m1, x))
            else if j == 1 then (if up then (m1, m2, x) else (x, m2, m1))
            else (if up then (x, m1, m2) else (m1, x, m2))
  {
    Wheel(m1, m2, t, h, k, j, up);
  }

  /** The components rgb_to_hls computes, in the shape hls_to_rgb takes apart. */
  lemma HlsShape(r: real, g: real, b: real, maxc: real, mid: real, minc: real, j: int, up: bool)
    returns (k: int, t: real)
    requires 0.0 <= minc && maxc <= 1.0 && Arranged(r, g, b, maxc, mid, minc, j, up)
    ensures var h6, l, s := HueSixths(r, g, b, maxc, maxc - minc), (maxc + minc) / 2.0, Saturation(maxc, minc);
            && s != 0.0 && UpperLevel(l, s) == maxc && 2.0 * l - maxc == minc
            && Unit(t) && mid == minc + (maxc - minc) * t
            && Frac(h6 / 6.0) == k as real + j as real / 3.0 + (if up then t / 6.0 else -t / 6.0)
  {
    t := (mid - minc) / (maxc - minc);
    k := HueShape(r, g, b, maxc, mid, minc, j, up, t);
    LevelsRecovered(maxc, minc);
    Position(minc, maxc, mid);
  }

  lemma HueShape(r: real, g: real, b: real, maxc: real, mid: real, minc: real, j: int, up: bool, t: real)
    returns (k: int)
    requires Arranged(r, g, b, maxc, mid, minc, j, up) && t == (mid - minc) / (maxc - minc)
    ensures Frac(HueSixths(r, g, b, maxc, maxc - minc) / 6.0)
         == k as real + j as real / 3.0 + (if up then t / 6.0 else -t / 6.0)
  {
    var h6 := HueSixths(r, g, b, maxc, maxc - minc);
    k := -(h6 / 6.0).Floor;
    SixthsOf(r, g, b, maxc, mid, minc, j, up);
    HueReduced(h6, t, j, up);
  }

  lemma HueReduced(h6: real, t: real, j: int, up: bool)
    requires h6 == 2.0 * j as real + (if up then t else -t)
    ensures Frac(h6 / 6.0) == (-(h6 / 6.0).Floor) as real + j as real / 3.0 + (if up then t / 6.0 else -t / 6.0)
  {
  }

  lemma GreyRoundTrip(x: real)
    requires Unit(x)
    ensures RgbToHls(x, x, x) == (0.0, x, 0.0) && HlsToRgb(0.0, x, 0.0) == (x, x, x)
  {
  }

  lemma Extremes(r: real, g: real, b: real)
    requires Unit(r) && Unit(g) && Unit(b)
    ensures 0.0 <= Smallest(r, g, b) <= Largest(r, g, b) <= 1.0
    ensures Smallest(r, g, b) == Largest(r, g, b) <==> r == g == b
  {
  }

  lemma HlsComponents(r: real, g: real, b: real)
    requires Unit(r) && Unit(g) && Unit(b) && !(r == g == b)
    ensures var maxc, minc := Largest(r, g, b), Smallest(r, g, b);
            && 0.0 <= minc < maxc <= 1.0
            && RgbToHls(r, g, b) ==
                 (Frac(HueSixths(r, g, b, maxc, maxc - minc) / 6.0), (maxc + minc) / 2.0, Saturation(maxc, minc))
  {
    Extremes(r, g, b);
  }

  /** colorsys round trip: converting to HSL and back is the identity on the unit cube. */
  lemma HlsRoundTrip(r: real, g: real, b: real, h: real, l: real, s: real)
    requires Unit(r) && Unit(g) && Unit(b) && (h, l, s) == RgbToHls(r, g, b)
    ensures HlsToRgb(h, l, s) == (r, g, b)
  {
    if r == g == b {
      GreyRoundTrip(r);
    } else {
      HlsComponents(r, g, b);
      var maxc, minc := Largest(r, g, b), Smallest(r, g, b);
      var mid, j, up := Arrange(r, g, b);
      var k, t := HlsShape(r, g, b, maxc, mid, minc, j, up);
      HlsWheel(h, l, s, minc, maxc, t, mid, k, j, up);
    }
  }
}
