/**
 Rounding to nearest with ties to even: of one number to an integer, and of every result to 53 significant bits,
 as binary64 arithmetic does it.
 */
module Rounding {

  /** The nearest integer, and of two the even one. */
  function RoundHalfEven(y: real): int {
    var f := y.Floor;
    var d := y - f as real;
    if d < 0.5 then f else if d > 0.5 then f + 1 else if f % 2 == 0 then f else f + 1
  }

  lemma RoundNear(y: real)
    ensures RoundHalfEven(y) as real - 0.5 <= y <= RoundHalfEven(y) as real + 0.5
  {
  }

  lemma RoundInOrder(x: real, y: real)
    requires x <= y
    ensures RoundHalfEven(x) <= RoundHalfEven(y)
  {
    assert x.Floor <= y.Floor;
  }

  lemma RoundBounds(y: real, n: int)
    ensures y <= n as real ==> RoundHalfEven(y) <= n
    ensures y >= n as real ==> RoundHalfEven(y) >= n
  {
  }

  /** Nearest, and for a tie the even neighbour. */
  predicate IsNearest(y: real, n: int) {
    n as real - 0.5 < y < n as real + 0.5 || (n % 2 == 0 && n as real - 0.5 <= y <= n as real + 0.5)
  }

  // ---------- binary places ----------

  function Pow2(k: nat): (p: real)
    ensures p >= 1.0
  {
    if k == 0 then 1.0 else 2.0 * Pow2(k - 1)
  }

  const TWO52: real := 4503599627370496.0
  const TWO53: real := 9007199254740992.0

  /** `x` has 53 binary digits in front of the point once multiplied by `scale`. */
  predicate Digits(x: real, scale: real) {
    TWO52 <= Times(x, scale) < TWO53
  }

  function Times(x: real, scale: real): real {
    x * scale
  }

  function Divide(n: int, scale: real): real
    requires scale > 0.0
  {
    n as real / scale
  }

  lemma DivideBack(n: int, scale: real)
    requires scale > 0.0
    ensures Times(Divide(n, scale), scale) == n as real
  {
  }

  function Nearest(x: real, scale: real): real
    requires scale > 0.0
  {
    Divide(RoundHalfEven(Times(x, scale)), scale)
  }

  function Lifted(x: real, k: nat): real {
    Times(x, Pow2(k))
  }

  /** `k` binary places are right for `x`: 53 digits, or fewer where there are no more places than `least`. */
  predicate Fits(x: real, k: nat, least: nat) {
    0.0 <= Lifted(x, k) < TWO53 && k <= least && (TWO52 <= Lifted(x, k) || k == least)
  }

  function NearestAt(x: real, k: nat): real {
    Nearest(x, Pow2(k))
  }

  /** Rounding of the numbers from zero to 2^53, with at most `least` binary places. */
  ghost predicate RoundsTo(fl: real -> real, least: nat) {
    forall x, k {:trigger Fits(x, k, least)} :: Fits(x, k, least) ==> fl(x) == NearestAt(x, k)
  }

  /** Binary64 has 1074 binary places; more of them would change nothing here. */
  ghost predicate IsBinary64(fl: real -> real) {
    exists least :: least >= 1074 && RoundsTo(fl, least)
  }

  // ---------- the right number of places ----------

  lemma LiftedNext(x: real, k: nat)
    ensures Lifted(x, k + 1) == 2.0 * Lifted(x, k)
  {
    assert Pow2(k + 1) == 2.0 * Pow2(k);
    assert x * (2.0 * Pow2(k)) == 2.0 * (x * Pow2(k));
  }

  lemma LiftedOrder(x: real, y: real, k: nat)
    requires x <= y
    ensures Lifted(x, k) <= Lifted(y, k)
  {
    Product(y - x, Pow2(k));
    assert (y - x) * Pow2(k) == y * Pow2(k) - x * Pow2(k);
  }

  lemma Product(x: real, y: real)
    requires 0.0 <= x && 0.0 <= y
    ensures 0.0 <= x * y
  {
  }

  lemma {:induction false} LiftedLarger(x: real, a: nat, b: nat)
    requires 0.0 <= x && a < b
    ensures 0.0 <= 2.0 * Lifted(x, a) <= Lifted(x, b)
  {
    Product(x, Pow2(a));
    LiftedNext(x, b - 1);
    if a < b - 1 {
      LiftedLarger(x, a, b - 1);
    }
  }

  lemma {:induction false} PlacesFrom(x: real, least: nat, k0: nat) returns (k: nat)
    requires k0 <= least && 0.0 <= Lifted(x, k0) < TWO53
    ensures Fits(x, k, least)
    decreases least - k0
  {
    if Lifted(x, k0) < TWO52 && k0 < least {
      LiftedNext(x, k0);
      k := PlacesFrom(x, least, k0 + 1);
    } else {
      k := k0;
    }
  }

  lemma PlacesFor(x: real, least: nat) returns (k: nat)
    requires 0.0 <= x < TWO53
    ensures Fits(x, k, least)
  {
    assert Lifted(x, 0) == x;
    k := PlacesFrom(x, least, 0);
  }

  lemma Powers()
    ensures Pow2(44) == 17592186044416.0 && Pow2(45) == 35184372088832.0
  {
    assert Pow2(11) == 2048.0;
    Pow2Sum(11, 11);
    Pow2Sum(22, 22);
    assert Pow2(45) == 2.0 * Pow2(44);
  }

  lemma {:induction false} Pow2Sum(a: nat, b: nat)
    ensures Pow2(a + b) == Pow2(a) * Pow2(b)
  {
    if a > 0 {
      Pow2Sum(a - 1, b);
    }
  }

  lemma {:induction false} Pow2Order(a: nat, b: nat)
    requires a <= b
    ensures Pow2(a) <= Pow2(b)
  {
    if a < b {
      Pow2Order(a, b - 1);
    }
  }

  /** Numbers up to 128 have at least 45 places. */
  lemma ManyPlaces(x: real, k: nat, least: nat)
    requires 0.0 <= x <= 128.0 && least >= 45 && Fits(x, k, least)
    ensures Pow2(k) >= 35184372088832.0
  {
    Powers();
    if k < 45 {
      LiftedOrder(x, 128.0, k);
      Pow2Order(k, 44);
    }
    Pow2Order(45, k);
  }

  // ---------- every result is off by less than the last of its places, and in order ----------

  /** 2^-46 */
  const HALF_STEP: real := 1.0 / 70368744177664.0

  lemma InOrder(x: real, y: real, scale: real)
    requires scale > 0.0
    ensures x * scale <= y * scale ==> x <= y
  {
    if x > y {
      assert (x - y) * scale > 0.0;
    }
  }

  lemma NearestClose(x: real, scale: real, u: real)
    requires 0.0 <= Times(x, scale) && scale * u >= 0.5 && scale > 0.0
    ensures x - u <= Nearest(x, scale) <= x + u && 0.0 <= Nearest(x, scale)
  {
    RoundNear(Times(x, scale));
    RoundBounds(Times(x, scale), 0);
    DivideBack(RoundHalfEven(Times(x, scale)), scale);
    CloseTo(x, Nearest(x, scale), scale, u);
    InOrder(0.0, Nearest(x, scale), scale);
  }

  lemma CloseTo(x: real, r: real, scale: real, u: real)
    requires scale > 0.0 && scale * u >= 0.5 && Times(x, scale) - 0.5 <= Times(r, scale) <= Times(x, scale) + 0.5
    ensures x - u <= r <= x + u
  {
    assert (x + u) * scale == x * scale + scale * u && (x - u) * scale == x * scale - scale * u;
    InOrder(r, x + u, scale);
    InOrder(x - u, r, scale);
  }

  lemma FlNear(fl: real -> real, x: real)
    requires IsBinary64(fl) && 0.0 <= x <= 128.0
    ensures x - HALF_STEP <= fl(x) <= x + HALF_STEP && 0.0 <= fl(x)
  {
    var least :| least >= 1074 && RoundsTo(fl, least);
    var k := PlacesFor(x, least);
    ManyPlaces(x, k, least);
    NearestAtClose(x, k);
    assert fl(x) == NearestAt(x, k);
  }

  lemma NearestAtClose(x: real, k: nat)
    requires 0.0 <= x && Pow2(k) >= 35184372088832.0
    ensures x - HALF_STEP <= NearestAt(x, k) <= x + HALF_STEP && 0.0 <= NearestAt(x, k)
  {
    Product(x, Pow2(k));
    assert Pow2(k) * HALF_STEP >= 0.5;
    NearestClose(x, Pow2(k), HALF_STEP);
  }

  lemma SamePlaces(x: real, y: real, k: nat)
    requires x <= y
    ensures NearestAt(x, k) <= NearestAt(y, k)
  {
    LiftedOrder(x, y, k);
    RoundInOrder(Lifted(x, k), Lifted(y, k));
    QuotientInOrder(RoundHalfEven(Lifted(x, k)), RoundHalfEven(Lifted(y, k)), Pow2(k));
  }

  lemma QuotientInOrder(m: int, n: int, scale: real)
    requires m <= n && scale > 0.0
    ensures Divide(m, scale) <= Divide(n, scale)
  {
    DivideBack(m, scale);
    DivideBack(n, scale);
    InOrder(Divide(m, scale), Divide(n, scale), scale);
  }

  /** A number with more places stays at most the first one with fewer. */
  lemma MorePlaces(x: real, y: real, fine: nat, coarse: nat)
    requires coarse < fine && Lifted(x, fine) < TWO53 && TWO52 <= Lifted(y, coarse)
    ensures NearestAt(x, fine) <= NearestAt(y, coarse)
  {
    RoundBounds(Lifted(x, fine), 9007199254740992);
    RoundBounds(Lifted(y, coarse), 4503599627370496);
    Restored(x, fine);
    Restored(y, coarse);
    Apart(NearestAt(x, fine), NearestAt(y, coarse), fine, coarse);
  }

  lemma Apart(p: real, q: real, fine: nat, coarse: nat)
    requires coarse < fine && Lifted(p, fine) <= TWO53 && TWO52 <= Lifted(q, coarse)
    ensures p <= q
  {
    LiftedReflects(0.0, q, coarse);
    LiftedLarger(q, coarse, fine);
    LiftedReflects(p, q, fine);
  }

  lemma LiftedReflects(x: real, y: real, k: nat)
    ensures Lifted(x, k) <= Lifted(y, k) ==> x <= y
    ensures Lifted(0.0, k) == 0.0
  {
    InOrder(x, y, Pow2(k));
  }

  lemma Restored(x: real, k: nat)
    ensures Lifted(NearestAt(x, k), k) == RoundHalfEven(Lifted(x, k)) as real
  {
    DivideBack(RoundHalfEven(Lifted(x, k)), Pow2(k));
  }

  lemma FewerPlaces(x: real, y: real, kx: nat, ky: nat)
    requires 0.0 <= x <= y && kx < ky && TWO52 <= Lifted(x, kx)
    ensures Lifted(y, ky) >= TWO53
  {
    LiftedLarger(x, kx, ky);
    LiftedOrder(x, y, ky);
  }

  /** Rounding keeps the order. */
  lemma FlInOrder(fl: real -> real, x: real, y: real)
    requires IsBinary64(fl) && 0.0 <= x <= y < TWO53
    ensures fl(x) <= fl(y)
  {
    var least :| least >= 1074 && RoundsTo(fl, least);
    var kx := PlacesFor(x, least);
    var ky := PlacesFor(y, least);
    assert fl(x) == NearestAt(x, kx) && fl(y) == NearestAt(y, ky);
    if kx == ky {
      SamePlaces(x, y, kx);
    } else if ky < kx {
      MorePlaces(x, y, kx, ky);
    } else {
      FewerPlaces(x, y, kx, ky);
    }
  }

  predicate Whole(x: real) {
    x >= 0.0 && x == x.Floor as real
  }

  lemma {:induction false} Pow2Whole(k: nat) returns (m: int)
    ensures m > 0 && Pow2(k) == m as real
  {
    if k == 0 {
      m := 1;
    } else {
      m := Pow2Whole(k - 1);
      m := 2 * m;
    }
  }

  /** Small whole numbers are kept. */
  lemma FlWhole(fl: real -> real, x: real)
    requires IsBinary64(fl) && Whole(x) && x < TWO53
    ensures fl(x) == x
  {
    var least :| least >= 1074 && RoundsTo(fl, least);
    var k := PlacesFor(x, least);
    var m := Pow2Whole(k);
    WholeNearest(x.Floor, m);
    assert fl(x) == NearestAt(x, k);
  }

  lemma WholeNearest(n: int, m: int)
    requires m > 0
    ensures Nearest(n as real, m as real) == n as real
  {
    var y, r := Times(n as real, m as real), Nearest(n as real, m as real);
    assert y == (n * m) as real;
    RoundBounds(y, n * m);
    DivideBack(n * m, m as real);
    InOrder(r, n as real, m as real);
    InOrder(n as real, r, m as real);
  }

  // ---------- single results ----------

  ghost predicate IsScale(scale: real) {
    scale > 0.0 && exists k :: k <= 1074 && scale == Pow2(k)
  }

  /** Zero, and the numbers that have 53 digits at one of these scales. */
  ghost predicate RoundsNormal(fl: real -> real, scales: real -> bool) {
    && fl(0.0) == 0.0
    && forall x, scale {:trigger Digits(x, scale)} ::
         scales(scale) && scale > 0.0 && Digits(x, scale) ==> fl(x) == Nearest(x, scale)
  }

  lemma Normal(fl: real -> real)
    requires IsBinary64(fl)
    ensures RoundsNormal(fl, IsScale)
  {
    var least :| least >= 1074 && RoundsTo(fl, least);
    FlWhole(fl, 0.0);
    forall x, scale | IsScale(scale) && Digits(x, scale)
      ensures fl(x) == Nearest(x, scale)
    {
      var k :| k <= 1074 && scale == Pow2(k);
      assert Lifted(x, k) == Times(x, scale);
      assert Fits(x, k, least);
    }
  }

  lemma Rounds(x: real, scale: real, n: int)
    requires scale > 0.0 && IsNearest(x * scale, n)
    ensures Nearest(x, scale) == n as real / scale
  {
    var y := Times(x, scale);
    assert RoundHalfEven(y) == n;
  }

  /** The rounded value, given the power of two and the integer that is nearest. */
  lemma FlIs(fl: real -> real, scales: real -> bool, x: real, scale: real, n: int)
    requires RoundsNormal(fl, scales) && scales(scale) && scale > 0.0
    requires Digits(x, scale) && IsNearest(x * scale, n)
    ensures fl(x) == n as real / scale
  {
    Rounds(x, scale, n);
  }
}
