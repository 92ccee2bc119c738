/** The palette endpoints on top of the lightness search: adjusting, harmonies, the contrast matrix. */
module PaletteEndpoints {
  import opened Strings
  import opened Colors
  import opened Palette
  import opened Rounding
  import opened Sorting

  ghost predicate AllHex(colors: seq<string>) {
    forall i :: 0 <= i < |colors| ==> HexColor(colors[i])
  }

  // ---------- the presumed background ----------

  type Lum = (string, real)

  /** Lightest first, as a descending sort on the luminance. */
  predicate Lighter(a: Lum, b: Lum) { a.1 >= b.1 }

  ghost predicate LightestFirst(colors: seq<string>, pow: Curve, k: nat)
    requires AllHex(colors)
  {
    k < |colors| &&
    (forall j :: 0 <= j < |colors| ==> Luminance(HexToRgb(colors[j]), pow) <= Luminance(HexToRgb(colors[k]), pow)) &&
    (forall j :: 0 <= j < k ==> Luminance(HexToRgb(colors[j]), pow) < Luminance(HexToRgb(colors[k]), pow))
  }

  /** The first of the lightest colours. */
  ghost predicate IsBackground(colors: seq<string>, pow: Curve, bg: string)
    requires AllHex(colors)
  {
    exists k: nat :: LightestFirst(colors, pow, k) && bg == colors[k]
  }

  method Background(colors: seq<string>, pow: Curve) returns (bg: string)
    requires colors != [] && AllHex(colors)
    ensures IsBackground(colors, pow, bg) && HexColor(bg)
  {
    var lums: seq<Lum> := [];
    for i := 0 to |colors|
      invariant |lums| == i
      invariant forall j :: 0 <= j < i ==> lums[j] == (colors[j], Luminance(HexToRgb(colors[j]), pow))
    {
      lums := lums + [(colors[i], Luminance(HexToRgb(colors[i]), pow))];
    }
    ghost var k := SortHead(lums, Lighter);
    bg := Sort(lums, Lighter)[0].0;
    assert LightestFirst(colors, pow, k);
  }

  const RED := "#ff0000"
  const BLUE := "#0000ff"

  lemma RedAndBlue()
    ensures HexColor(RED) && HexColor(BLUE) && HexToRgb(RED) == Rgb(255, 0, 0) && HexToRgb(BLUE) == Rgb(0, 0, 255)
  {
  }

  /** Of red and blue, red is the presumed background, wherever it stands. */
  lemma RedIsBackground(colors: seq<string>, pow: Curve, bg: string)
    requires IsPower24(pow) && AllHex(colors) && IsBackground(colors, pow, bg)
    requires colors == [RED, BLUE] || colors == [BLUE, RED]
    ensures bg == RED
  {
    RedAndBlue();
    PrimaryLuminance(pow);
    var k: nat :| LightestFirst(colors, pow, k) && bg == colors[k];
    assert colors[0] == RED || colors[1] == RED;
  }

  /** Red on white falls short of 4.5 to 1, and blue on white does not. */
  lemma RedOnWhite(pow: Curve)
    requires IsPower24(pow)
    ensures HexColor(RED) && HexColor(BLUE) && HexColor(WHITE_HEX)
    ensures 3.99 < Contrast(RED, WHITE_HEX, pow) < 4.0 && Contrast(BLUE, WHITE_HEX, pow) > 8.5
  {
    RedAndBlue();
    ExtremeHex();
    PrimaryLuminance(pow);
    LuminanceUnit(WHITE, pow);
    assert Ratio(0.2126, 1.0) == 1.05 / 0.2626;
    assert Ratio(0.0722, 1.0) == 1.05 / 0.1222;
  }

  // ---------- adjusting a palette ----------

  /** The background stays; any other colour becomes the first of itself and its attempts that passes. */
  ghost predicate AdjustedTo(a: Arithmetic, before: string, after: string, bg: string, pow: Curve)
    requires InRange(a) && HexColor(before) && HexColor(bg) && IsPower24(pow)
  {
    HexColor(after) && if before == bg then after == before else PassesFirst(a, before, bg, 4.5, pow, after)
  }

  /** What adjusting guarantees, with the background `bg`. */
  ghost predicate Adjusted(a: Arithmetic, before: seq<string>, after: seq<string>, bg: string, pow: Curve)
    requires InRange(a) && AllHex(before) && HexColor(bg) && IsPower24(pow)
  {
    |after| == |before| && AdjustedSoFar(a, before, after, bg, pow)
  }

  ghost predicate AdjustedSoFar(a: Arithmetic, before: seq<string>, after: seq<string>, bg: string, pow: Curve)
    requires InRange(a) && AllHex(before) && HexColor(bg) && IsPower24(pow)
  {
    |after| <= |before| && forall i :: 0 <= i < |after| ==> AdjustedTo(a, before[i], after[i], bg, pow)
  }

  lemma AdjustedPush(a: Arithmetic, before: seq<string>, after: seq<string>, bg: string, pow: Curve, c: string)
    requires InRange(a) && AllHex(before) && HexColor(bg) && IsPower24(pow)
    requires AdjustedSoFar(a, before, after, bg, pow) && |after| < |before|
    requires AdjustedTo(a, before[|after|], c, bg, pow)
    ensures AdjustedSoFar(a, before, after + [c], bg, pow)
  {
    forall i | 0 <= i < |after| + 1
      ensures AdjustedTo(a, before[i], (after + [c])[i], bg, pow)
    {
      if i < |after| {
        assert (after + [c])[i] == after[i];
      }
    }
  }

  method AdjustColors(a: Arithmetic, colors: seq<string>, pow: Curve) returns (adjusted: seq<string>, bg: string)
    requires InRange(a) && Accurate(a) && colors != [] && AllHex(colors) && IsPower24(pow)
    ensures IsBackground(colors, pow, bg) && HexColor(bg)
    ensures Adjusted(a, colors, adjusted, bg, pow)
  {
    bg := Background(colors, pow);
    adjusted := [];
    for i := 0 to |colors|
      invariant |adjusted| == i && AdjustedSoFar(a, colors, adjusted, bg, pow)
    {
      var c := AdjustOne(a, colors[i], bg, pow);
      AdjustedPush(a, colors, adjusted, bg, pow, c);
      adjusted := adjusted + [c];
    }
  }

  method AdjustOne(a: Arithmetic, c: string, bg: string, pow: Curve) returns (r: string)
    requires InRange(a) && Accurate(a) && HexColor(c) && HexColor(bg) && IsPower24(pow)
    ensures AdjustedTo(a, c, r, bg, pow)
  {
    if c == bg {
      r := c;
    } else {
      r := AdjustTo(a, c, bg, 4.5, pow);
    }
  }

  method AdjustTo(a: Arithmetic, c: string, bg: string, minRatio: real, pow: Curve) returns (r: string)
    requires InRange(a) && Accurate(a) && HexColor(c) && HexColor(bg) && IsPower24(pow)
    requires 0.0 <= minRatio <= 4.5
    ensures HexColor(r) && PassesFirst(a, c, bg, minRatio, pow, r)
  {
    ghost var t;
    r, t := AdjustLightnessForAA(a, c, bg, minRatio, pow);
  }

  /** The palette guarantee: every colour other than the background ends at 4.5 to 1 or better. */
  lemma PaletteGuarantee(a: Arithmetic, colors: seq<string>, adjusted: seq<string>, bg: string, pow: Curve)
    requires InRange(a) && AllHex(colors) && HexColor(bg) && IsPower24(pow) && Adjusted(a, colors, adjusted, bg, pow)
    ensures forall i :: 0 <= i < |colors| ==> colors[i] == bg || Contrast(adjusted[i], bg, pow) >= 4.5
    ensures forall i :: 0 <= i < |colors| && Contrast(colors[i], bg, pow) >= 4.5 ==> adjusted[i] == colors[i]
  {
    forall i | 0 <= i < |colors| && colors[i] != bg
      ensures Contrast(adjusted[i], bg, pow) >= 4.5
    {
      assert AdjustedTo(a, colors[i], adjusted[i], bg, pow);
    }
  }

  // ---------- request validation ----------

  datatype Reply = BadRequest | Colors(colors: seq<string>, background: string)

  ghost predicate Cleaned(raw: seq<string>, clean: seq<string>) {
    Pairwise(CleanedTo, raw, clean)
  }

  ghost predicate Pairwise(related: (string, string) -> bool, xs: seq<string>, ys: seq<string>) {
    |ys| == |xs| && forall i :: 0 <= i < |xs| ==> related(xs[i], ys[i])
  }

  lemma PairwisePush(related: (string, string) -> bool, xs: seq<string>, ys: seq<string>, x: string, y: string)
    requires Pairwise(related, xs, ys) && related(x, y)
    ensures Pairwise(related, xs + [x], ys + [y])
  {
  }

  predicate CleanedTo(x: string, c: string) {
    HexColor(Strip(x)) && c == Lower(Strip(x))
  }

  /** strip, check against the six-digit pattern, lower-case; the schema demands a nonempty list. */
  method CleanColors(raw: seq<string>) returns (clean: seq<string>, bad: bool)
    ensures bad <==> exists i :: 0 <= i < |raw| && !HexColor(Strip(raw[i]))
    ensures !bad ==> Cleaned(raw, clean) && AllHex(clean)
  {
    clean, bad := [], false;
    for i := 0 to |raw|
      invariant Cleaned(raw[..i], clean) && AllHex(clean)
    {
      assert raw[..i + 1] == raw[..i] + [raw[i]];
      var c := Strip(raw[i]);
      if !HexColor(c) {
        return clean, true;
      }
      LowerHex(c);
      PairwisePush(CleanedTo, raw[..i], clean, raw[i], Lower(c));
      clean := clean + [Lower(c)];
    }
    assert raw[..|raw|] == raw;
    assert forall i :: 0 <= i < |raw| ==> CleanedTo(raw[i], clean[i]);
  }

  method AdjustPalette(a: Arithmetic, raw: seq<string>, pow: Curve) returns (reply: Reply, ghost clean: seq<string>)
    requires InRange(a) && Accurate(a) && raw != [] && IsPower24(pow)
    ensures reply.BadRequest? <==> exists i :: 0 <= i < |raw| && !HexColor(Strip(raw[i]))
    ensures reply.Colors? ==> Cleaned(raw, clean) && AllHex(clean)
    ensures reply.Colors? ==> IsBackground(clean, pow, reply.background) && HexColor(reply.background)
    ensures reply.Colors? ==> Adjusted(a, clean, reply.colors, reply.background, pow)
  {
    var colors, bad := CleanColors(raw);
    clean := colors;
    if bad {
      return BadRequest, clean;
    }
    var adjusted, bg := AdjustColors(a, colors, pow);
    reply := Colors(adjusted, bg);
  }

  lemma LowerHex(c: string)
    requires HexColor(c)
    ensures HexColor(Lower(c))
  {
    forall i | 1 <= i < 7
      ensures IsHex(Lower(c)[i])
    {
      assert IsHex(c[i]);
    }
  }

  // ---------- the contrast matrix ----------

  /** round(x, 2): to the nearest hundredth, ties to the even one. */
  function Round2(x: real): real {
    RoundHalfEven(x * 100.0) as real / 100.0
  }

  datatype ContrastPair = ContrastPair(fg: string, bg: string, ratio: real, aaNormal: bool, aaLarge: bool,
    aaaNormal: bool)

  function CheckContrast(fg: string, bg: string, pow: Curve): ContrastPair
    requires HexColor(fg) && HexColor(bg) && IsPower24(pow)
  {
    var ratio := Round2(Contrast(fg, bg, pow));
    ContrastPair(fg, bg, ratio, ratio >= 4.5, ratio >= 3.0, ratio >= 7.0)
  }

  /** A rounded ratio reaches an even number of hundredths from half a hundredth below it. */
  lemma RoundedThreshold(x: real, hundredths: int)
    requires hundredths % 2 == 0
    ensures Round2(x) >= hundredths as real / 100.0 <==> x * 100.0 >= hundredths as real - 0.5
  {
    RoundsUp(x * 100.0, hundredths);
  }

  lemma RoundsUp(y: real, n: int)
    requires n % 2 == 0
    ensures RoundHalfEven(y) >= n <==> y >= n as real - 0.5
  {
    var f := y.Floor;
    if f >= n {
      assert f as real >= n as real;
    } else if f <= n - 2 {
      assert (f + 1) as real <= (n - 1) as real;
    } else {
      assert f as real == n as real - 1.0;
    }
  }

  /**
   The flags test the rounded ratio, so each passes from half a hundredth below the standard's
   threshold: true exactly from 4.495, 2.995 and 6.995.
   */
  lemma FlagThresholds(fg: string, bg: string, pow: Curve)
    requires HexColor(fg) && HexColor(bg) && IsPower24(pow)
    ensures var p, c := CheckContrast(fg, bg, pow), Contrast(fg, bg, pow);
            (p.aaNormal <==> c >= 4.495) && (p.aaLarge <==> c >= 2.995) && (p.aaaNormal <==> c >= 6.995)
  {
    var c := Contrast(fg, bg, pow);
    RoundedThreshold(c, 450);
    RoundedThreshold(c, 300);
    RoundedThreshold(c, 700);
  }

  /** A pair that fails 3 to 1 and is flagged as passing: the grey #959595 on white. */
  lemma FlaggedThoughBelow(pow: Curve) returns (fg: string, bg: string)
    requires IsPower24(pow)
    ensures HexColor(fg) && HexColor(bg)
    ensures Contrast(fg, bg, pow) < 3.0 && CheckContrast(fg, bg, pow).aaLarge
  {
    fg, bg := "#959595", "#ffffff";
    var grey := Rgb(149, 149, 149);
    assert HexToRgb(fg) == grey && HexToRgb(bg) == WHITE;
    LuminanceUnit(WHITE, pow);
    GreyLuminance(pow, grey);
    GreyRatio(Luminance(grey, pow));
    FlagThresholds(fg, bg, pow);
  }

  lemma GreyLuminance(pow: Curve, grey: Rgb)
    requires IsPower24(pow) && grey == Rgb(149, 149, 149)
    ensures 0.3 < Luminance(grey, pow) < 0.30058
  {
    var x := (149.0 / 255.0 + 0.055) / 1.055;
    assert Fifth(0.3) < Twelfth(x) < Fifth(0.30058);
    PowerBounds(pow, x, 0.3);
    PowerBounds(pow, x, 0.30058);
    assert SrgbToLinear(149.0 / 255.0, pow) == pow(x);
  }

  lemma GreyRatio(l: real)
    requires 0.3 < l < 0.30058
    ensures 2.995 <= Ratio(l, 1.0) < 3.0
  {
    var q := 1.05 / (l + 0.05);
    assert q * (l + 0.05) == 1.05;
    assert q < 3.0 by {
      if q >= 3.0 {
        Scale(l + 0.05, 3.0, q);
      }
    }
  }

  type Index2 = (nat, nat)

  predicate Before(a: Index2, b: Index2) { a.0 < b.0 || (a.0 == b.0 && a.1 < b.1) }

  /** The positions (i, j) with i < j and i < n, or i == n and j < m, each once and in order. */
  ghost predicate UpperTriangle(index: seq<Index2>, size: nat, n: nat, m: nat) {
    && (forall a, b :: 0 <= a < b < |index| ==> Before(index[a], index[b]))
    && (forall p :: p in index <==> p.0 < p.1 < size && (p.0 < n || (p.0 == n && p.1 < m)))
  }

  /** Pairs every colour with every later one; `index` says which pair stands where. */
  method ContrastMatrix(colors: seq<string>, pow: Curve)
    returns (pairs: seq<ContrastPair>, allAaPass: bool, ghost index: seq<Index2>)
    requires AllHex(colors) && IsPower24(pow)
    ensures |pairs| == |index| && UpperTriangle(index, |colors|, |colors|, 0)
    ensures PairsAt(colors, pow, pairs, index)
    ensures allAaPass <==> forall i, j :: 0 <= i < j < |colors| ==> Contrast(colors[i], colors[j], pow) >= 2.995
  {
    pairs, index := [], [];
    for i := 0 to |colors|
      invariant |pairs| == |index| && UpperTriangle(index, |colors|, i, 0)
      invariant PairsAt(colors, pow, pairs, index)
    {
      for j := 0 to |colors|
        invariant |pairs| == |index| && UpperTriangle(index, |colors|, i, j)
        invariant PairsAt(colors, pow, pairs, index)
      {
        if i >= j {
          SkipBelow(index, |colors|, i, j);
          continue;
        }
        PushIndex(index, |colors|, i, j);
        pairs := pairs + [CheckContrast(colors[i], colors[j], pow)];
        index := index + [(i, j)];
      }
      EndRow(index, |colors|, i);
    }
    allAaPass := forall k :: 0 <= k < |pairs| ==> pairs[k].aaLarge;
    AllPass(colors, pow, pairs, index);
  }

  ghost predicate PairsAt(colors: seq<string>, pow: Curve, pairs: seq<ContrastPair>, index: seq<Index2>)
    requires AllHex(colors) && IsPower24(pow)
  {
    |pairs| == |index| && forall k :: 0 <= k < |pairs| ==>
      (index[k].0 < |colors| && index[k].1 < |colors| &&
       pairs[k] == CheckContrast(colors[index[k].0], colors[index[k].1], pow))
  }

  lemma SkipBelow(index: seq<Index2>, size: nat, i: nat, j: nat)
    requires UpperTriangle(index, size, i, j) && i >= j
    ensures UpperTriangle(index, size, i, j + 1)
  {
  }

  lemma EndRow(index: seq<Index2>, size: nat, i: nat)
    requires UpperTriangle(index, size, i, size)
    ensures UpperTriangle(index, size, i + 1, 0)
  {
  }

  lemma PushIndex(index: seq<Index2>, size: nat, i: nat, j: nat)
    requires UpperTriangle(index, size, i, j) && i < j < size
    ensures UpperTriangle(index + [(i, j)], size, i, j + 1)
  {
    forall a | 0 <= a < |index|
      ensures Before(index[a], (i, j))
    {
      assert index[a] in index;
    }
    forall p
      ensures p in index + [(i, j)] <==> p in index || p == (i, j)
    {
    }
  }

  lemma AllPass(colors: seq<string>, pow: Curve, pairs: seq<ContrastPair>, index: seq<Index2>)
    requires AllHex(colors) && IsPower24(pow)
    requires PairsAt(colors, pow, pairs, index) && UpperTriangle(index, |colors|, |colors|, 0)
    ensures (forall k :: 0 <= k < |pairs| ==> pairs[k].aaLarge) <==>
            forall i, j :: 0 <= i < j < |colors| ==> Contrast(colors[i], colors[j], pow) >= 2.995
  {
    forall k | 0 <= k < |pairs|
      ensures index[k].0 < index[k].1 < |colors|
      ensures pairs[k].aaLarge <==> Contrast(colors[index[k].0], colors[index[k].1], pow) >= 2.995
    {
      assert index[k] in index;
      FlagThresholds(colors[index[k].0], colors[index[k].1], pow);
    }
    if forall k :: 0 <= k < |pairs| ==> pairs[k].aaLarge {
      forall i, j | 0 <= i < j < |colors|
        ensures Contrast(colors[i], colors[j], pow) >= 2.995
      {
        assert (i, j) in index;
        var k :| 0 <= k < |index| && index[k] == (i, j);
        assert pairs[k].aaLarge;
      }
    }
  }

  // ---------- harmonies ----------

  function Angles(harmony: string): seq<int> {
    if harmony == "complementary" then [180]
    else if harmony == "triadic" then [120, 240]
    else if harmony == "analogous" then [30, -30, 60, -60]
    else if harmony == "split-complementary" then [150, 210]
    else if harmony == "tetradic" then [90, 180, 270]
    else [180]
  }

  /** Complementary, triadic and tetradic colours divide the wheel evenly. */
  lemma EvenHarmonies(harmony: string, n: nat)
    requires harmony == "complementary" || harmony == "triadic" || harmony == "tetradic"
    requires n < |Angles(harmony)|
    ensures Angles(harmony)[n] * (|Angles(harmony)| + 1) == 360 * (n + 1)
  {
  }

  /** Analogous colours lie on both sides of the seed, split-complementary ones on both sides of its opposite. */
  lemma MirroredHarmonies()
    ensures var a := Angles("analogous"); |a| == 4 && a[0] == -a[1] == 30 && a[2] == -a[3] == 60
    ensures var s := Angles("split-complementary"); |s| == 2 && 180 - s[0] == s[1] - 180 == 30
  {
  }

  /** x % 360 on floats */
  function Mod360(x: real): real {
    Frac(x / 360.0) * 360.0
  }

  /** The seed's colour with its hue turned by `angle` degrees: same saturation, same lightness. */
  function Rotated(a: Arithmetic, seed: string, angle: int): (r: string)
    requires InRange(a) && HexColor(seed)
    ensures HexColor(r)
  {
    var (h, s, l) := a.hsl(seed);
    HslToHex(a, Mod360(h + angle as real), s, l)
  }

  /** The filler colour at position `n`, lightness kept in 0.1..0.9 and saturation in 0.2..1. */
  function Variant(a: Arithmetic, seed: string, n: nat): (r: string)
    requires InRange(a) && HexColor(seed)
    ensures HexColor(r)
  {
    var (h, s, l) := a.hsl(seed);
    var variantL := Max(0.1, Min(0.9, l + (n as real * 0.12 - 0.3)));
    var variantS := Max(0.2, Min(1.0, s - n as real * 0.05));
    HslToHex(a, Mod360(h + n as real * 37.0), variantS, variantL)
  }

  /** What stands at position `n` of a harmony. */
  function HarmonyColor(a: Arithmetic, seed: string, angles: seq<int>, n: nat): (r: string)
    requires InRange(a) && HexColor(seed)
    ensures HexColor(r)
  {
    if n == 0 then seed else if n <= |angles| then Rotated(a, seed, angles[n - 1]) else Variant(a, seed, n)
  }

  ghost predicate Harmonised(a: Arithmetic, seed: string, angles: seq<int>, colors: seq<string>)
    requires InRange(a) && HexColor(seed)
  {
    forall n :: 0 <= n < |colors| ==> colors[n] == HarmonyColor(a, seed, angles, n)
  }

  lemma HarmonyNext(a: Arithmetic, seed: string, angles: seq<int>, colors: seq<string>, c: string)
    requires InRange(a) && HexColor(seed) && Harmonised(a, seed, angles, colors)
    requires c == HarmonyColor(a, seed, angles, |colors|)
    ensures Harmonised(a, seed, angles, colors + [c])
  {
    forall n | 0 <= n < |colors| + 1
      ensures (colors + [c])[n] == HarmonyColor(a, seed, angles, n)
    {
      if n < |colors| {
        assert (colors + [c])[n] == colors[n];
      }
    }
  }

  /** The seed, its rotations, then filler variations, cut at `count` (3 to 12 by the schema). */
  method GenerateHarmony(a: Arithmetic, seed: string, harmony: string, count: nat) returns (colors: seq<string>)
    requires InRange(a) && HexColor(seed) && count >= 2
    ensures |colors| == count && AllHex(colors) && Harmonised(a, seed, Angles(harmony), colors)
  {
    colors := [seed];
    var angles := Angles(harmony);
    for k := 0 to |angles|
      invariant |colors| == k + 1 < count && Harmonised(a, seed, angles, colors)
    {
      HarmonyNext(a, seed, angles, colors, Rotated(a, seed, angles[k]));
      colors := colors + [Rotated(a, seed, angles[k])];
      if |colors| >= count {
        break;
      }
    }
    while |colors| < count
      invariant |colors| <= count && (|colors| == count || |colors| > |angles|)
      invariant Harmonised(a, seed, angles, colors)
    {
      HarmonyNext(a, seed, angles, colors, Variant(a, seed, |colors|));
      colors := colors + [Variant(a, seed, |colors|)];
    }
  }
}
