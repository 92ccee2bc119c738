/**
 The lexical score of the help search, with the arithmetic of a machine: every addition and the division may
 round.  The exact share of the attainable points is the reference it is measured against.
 */
module HelpScore {
  import opened Strings
  import opened Rounding

  datatype Topic = Topic(id: nat, section: string, title: string, body: string, tags: seq<string>)

  const MAX_TERMS: nat := 20

  // ---------- computed arithmetic ----------

  /** What a machine computes for a sum, a product and a quotient of the numbers written in the source. */
  datatype Floats = Floats(add: (real, real) -> real, mul: (real, real) -> real, div: (real, real) -> real)

  predicate Close(x: real, y: real, e: real) {
    y - e <= x <= y + e
  }

  /** In the range of the scores every operation is off by `e` at most; small whole numbers add exactly. */
  ghost predicate Accurate(fp: Floats, e: real) {
    && 0.0 <= e <= 0.001
    && AddsClose(fp, e) && MultipliesClose(fp, e) && DividesClose(fp, e) && AddsWhole(fp) && AddsInOrder(fp)
  }

  ghost predicate AddsClose(fp: Floats, e: real) {
    forall x, w :: 0.0 <= x <= 64.0 && 0.0 <= w <= 3.0 ==> 0.0 <= fp.add(x, w) && Close(fp.add(x, w), x + w, e)
  }

  ghost predicate MultipliesClose(fp: Floats, e: real) {
    forall x, w :: 0.0 <= x <= 1.0 && 0.0 <= w <= 1.0 ==> MultipliesAt(fp, e, x, w)
  }

  ghost predicate MultipliesAt(fp: Floats, e: real, x: real, w: real) {
    0.0 <= fp.mul(x, w) && Close(fp.mul(x, w), x * w, e)
  }

  ghost predicate DividesClose(fp: Floats, e: real) {
    forall x, y :: 0.0 <= x <= 64.0 && 2.0 <= y <= 64.0 ==> Close(fp.div(x, y), x / y, e)
  }

  ghost predicate AddsWhole(fp: Floats) {
    forall x, w :: Whole(x) && Whole(w) && x + w <= 64.0 ==> fp.add(x, w) == x + w
  }

  /** Rounding never reverses an order. */
  ghost predicate AddsInOrder(fp: Floats) {
    forall x, y, w :: 0.0 <= x <= y <= 64.0 && 0.0 <= w <= 3.0 ==> fp.add(x, w) <= fp.add(y, w)
  }

  function Plus(x: real, w: real): real { x + w }

  function Over(x: real, y: real): real { if y == 0.0 then 0.0 else x / y }

  ghost function ExactFloats(): Floats {
    Floats(Plus, Times, Over)
  }

  lemma ExactMultiplies(fp: Floats)
    requires fp.mul == Times
    ensures MultipliesClose(fp, 0.0)
  {
    forall x, w | 0.0 <= x <= 1.0 && 0.0 <= w <= 1.0
      ensures MultipliesAt(fp, 0.0, x, w)
    {
      assert fp.mul(x, w) == Times(x, w);
      Product(x, w);
    }
  }

  lemma ExactDivides(fp: Floats)
    requires fp.div == Over
    ensures DividesClose(fp, 0.0)
  {
    forall x, y | 0.0 <= x <= 64.0 && 2.0 <= y <= 64.0
      ensures Close(fp.div(x, y), x / y, 0.0)
    {
      assert fp.div(x, y) == Over(x, y);
    }
  }

  /** Exact arithmetic is accurate without any error. */
  lemma ExactFloatsAreAccurate()
    ensures Accurate(ExactFloats(), 0.0)
  {
    ExactMultiplies(ExactFloats());
    ExactDivides(ExactFloats());
  }

  // ---------- the exact share ----------

  predicate StandsAt(s: string, t: string, i: nat) {
    i + |t| <= |s| && s[i..i + |t|] == t
  }

  predicate Contains(s: string, t: string) {
    exists i: nat :: i <= |s| && StandsAt(s, t, i)
  }

  datatype Fields = Fields(title: string, body: string, tags: string)

  function Lowered(topic: Topic): Fields {
    Fields(Lower(topic.title), Lower(topic.body), Lower(Join(topic.tags, " ")))
  }

  function If(hit: bool, points: real): real {
    if hit then points else 0.0
  }

  function TermPoints(f: Fields, term: string): real {
    If(Contains(f.title, term), 1.8) + If(Contains(f.body, term), 0.8) + If(Contains(f.tags, term), 0.4)
  }

  function Points(f: Fields, terms: seq<string>): real {
    if terms == [] then 0.0 else Points(f, terms[..|terms| - 1]) + TermPoints(f, terms[|terms| - 1])
  }

  /** What a term earns in each field alone, and that terms add up. */
  lemma {:induction false} PointsOfTerms(f: Fields, a: seq<string>, b: seq<string>, term: string)
    ensures Points(f, a + b) == Points(f, a) + Points(f, b)
    ensures Contains(f.title, term) && !Contains(f.body, term) && !Contains(f.tags, term) ==> Points(f, [term]) == 1.8
    ensures !Contains(f.title, term) && Contains(f.body, term) && !Contains(f.tags, term) ==> Points(f, [term]) == 0.8
    ensures !Contains(f.title, term) && !Contains(f.body, term) && Contains(f.tags, term) ==> Points(f, [term]) == 0.4
    ensures Everywhere(f, term) ==> Points(f, [term]) == 3.0
  {
    assert [term][..0] == [];
    if b == [] {
      assert a + b == a;
    } else {
      PointsOfTerms(f, a, b[..|b| - 1], term);
      assert (a + b)[..|a + b| - 1] == a + b[..|b| - 1];
    }
  }

  /** The whole query earns three times as much in the title as in the body. */
  lemma PointsOfQuery(f: Fields, query: string)
    requires query != ""
    ensures Contains(f.title, query) && !Contains(f.body, query) ==> QueryPoints(f, query) == 1.5
    ensures !Contains(f.title, query) && Contains(f.body, query) ==> QueryPoints(f, query) == 0.5
    ensures Contains(f.title, query) && Contains(f.body, query) ==> QueryPoints(f, query) == 2.0
  {
  }

  function QueryPoints(f: Fields, query: string): real {
    if query == "" then 0.0 else If(Contains(f.title, query), 1.5) + If(Contains(f.body, query), 0.5)
  }

  function MaxPoints(terms: seq<string>, query: string): real {
    3.0 * |terms| as real + If(query != "", 2.0)
  }

  function Query(raw: string): string {
    Strip(Lower(raw))
  }

  function ShareOf(points: real, max: real): real {
    if max <= 0.0 then 0.0 else points / max
  }

  /** The share of the attainable points. */
  function Lexical(topic: Topic, terms: seq<string>, raw: string): real {
    ShareOf(Points(Lowered(topic), terms) + QueryPoints(Lowered(topic), Query(raw)), MaxPoints(terms, Query(raw)))
  }

  /** The term is in the title, the body and the tags. */
  predicate Everywhere(f: Fields, term: string) {
    Contains(f.title, term) && Contains(f.body, term) && Contains(f.tags, term)
  }

  lemma {:induction false} PointsRange(f: Fields, terms: seq<string>)
    ensures 0.0 <= Points(f, terms) <= 3.0 * |terms| as real
    ensures Points(f, terms) == 3.0 * |terms| as real <==> forall t :: t in terms ==> Everywhere(f, t)
  {
    if terms != [] {
      var init, last := terms[..|terms| - 1], terms[|terms| - 1];
      PointsRange(f, init);
      assert terms == init + [last];
      assert TermPoints(f, last) == 3.0 <==> Everywhere(f, last);
    }
  }

  lemma Scaled(share: real, max: real)
    requires max > 0.0
    ensures share < 0.0 ==> share * max < 0.0
    ensures share < 1.0 ==> share * max < max
    ensures share > 1.0 ==> share * max > max
  {
  }

  lemma Share(points: real, max: real)
    requires 0.0 <= points <= max && max > 0.0
    ensures 0.0 <= points / max <= 1.0 && (points / max == 1.0 <==> points == max)
  {
    var share := points / max;
    assert share * max == points;
    Scaled(share, max);
  }

  /** Over the reals the share is in 0..1, and 1 exactly when everything is found everywhere. */
  lemma PerfectShare(f: Fields, terms: seq<string>, query: string)
    ensures var share := ShareOf(Points(f, terms) + QueryPoints(f, query), MaxPoints(terms, query));
      0.0 <= share <= 1.0 && (share == 1.0 <==> IsPerfect(f, terms, query))
  {
    PointsMeans(f, terms, query);
    MaxPositive(terms, query);
    ShareMeans(Points(f, terms) + QueryPoints(f, query), MaxPoints(terms, query));
  }

  lemma MaxPositive(terms: seq<string>, query: string)
    ensures MaxPoints(terms, query) > 0.0 <==> terms != [] || query != ""
  {
  }

  lemma ShareMeans(points: real, max: real)
    requires 0.0 <= points <= max
    ensures 0.0 <= ShareOf(points, max) <= 1.0 && (ShareOf(points, max) == 1.0 <==> max > 0.0 && points == max)
  {
    if max > 0.0 {
      Share(points, max);
    }
  }

  /** There is something to find, and everything is found everywhere. */
  ghost predicate IsPerfect(f: Fields, terms: seq<string>, query: string) {
    (terms != [] || query != "") && Perfect(f, terms, query)
  }

  ghost predicate Perfect(f: Fields, terms: seq<string>, query: string) {
    && (forall t :: t in terms ==> Everywhere(f, t))
    && (query != "" ==> Contains(f.title, query) && Contains(f.body, query))
  }

  lemma PointsMeans(f: Fields, terms: seq<string>, query: string)
    ensures 0.0 <= Points(f, terms) + QueryPoints(f, query) <= MaxPoints(terms, query)
    ensures Points(f, terms) + QueryPoints(f, query) == MaxPoints(terms, query) <==> Perfect(f, terms, query)
  {
    PointsRange(f, terms);
  }

  function Clamp(x: real): real {
    if x < 0.0 then 0.0 else if x > 1.0 then 1.0 else x
  }

  // ---------- _lexical_score ----------

  function AddIf(fp: Floats, points: real, hit: bool, w: real): real {
    if hit then fp.add(points, w) else points
  }

  function AddTerm(fp: Floats, f: Fields, term: string, points: real): real {
    var title := AddIf(fp, points, Contains(f.title, term), 1.8);
    var body := AddIf(fp, title, Contains(f.body, term), 0.8);
    AddIf(fp, body, Contains(f.tags, term), 0.4)
  }

  function AddTerms(fp: Floats, f: Fields, terms: seq<string>): real {
    if terms == [] then 0.0 else AddTerm(fp, f, terms[|terms| - 1], AddTerms(fp, f, terms[..|terms| - 1]))
  }

  function AddQuery(fp: Floats, f: Fields, query: string, points: real): real {
    if query == "" then points
    else
      var title := AddIf(fp, points, Contains(f.title, query), 1.5);
      AddIf(fp, title, Contains(f.body, query), 0.5)
  }

  function MaxOfTerms(fp: Floats, n: nat): real {
    if n == 0 then 0.0 else fp.add(MaxOfTerms(fp, n - 1), 3.0)
  }

  function ComputedMax(fp: Floats, n: nat, query: string): real {
    if query == "" then MaxOfTerms(fp, n) else fp.add(MaxOfTerms(fp, n), 2.0)
  }

  function ComputedPoints(fp: Floats, f: Fields, terms: seq<string>, query: string): real {
    AddQuery(fp, f, query, AddTerms(fp, f, terms))
  }

  function ComputedShare(fp: Floats, points: real, max: real): (score: real)
    ensures 0.0 <= score <= 1.0
  {
    if max <= 0.0 then 0.0 else Clamp(fp.div(points, max))
  }

  /** The score as computed; the clamp keeps it in 0..1 whatever the arithmetic does. */
  function Computed(fp: Floats, topic: Topic, terms: seq<string>, raw: string): (score: real)
    ensures 0.0 <= score <= 1.0
  {
    ComputedShare(fp, ComputedPoints(fp, Lowered(topic), terms, Query(raw)), ComputedMax(fp, |terms|, Query(raw)))
  }

  method LexicalScore(fp: Floats, topic: Topic, terms: seq<string>, raw: string) returns (score: real)
    ensures score == Computed(fp, topic, terms, raw)
  {
    var f, query := Lowered(topic), Query(raw);
    var points, max := SumPoints(fp, f, terms);
    if query != "" {
      max := fp.add(max, 2.0);
      if Contains(f.title, query) {
        points := fp.add(points, 1.5);
      }
      if Contains(f.body, query) {
        points := fp.add(points, 0.5);
      }
    }
    score := if max <= 0.0 then 0.0 else Clamp(fp.div(points, max));
  }

  method SumPoints(fp: Floats, f: Fields, terms: seq<string>) returns (points: real, max: real)
    ensures points == AddTerms(fp, f, terms) && max == MaxOfTerms(fp, |terms|)
  {
    points, max := 0.0, 0.0;
    var i := 0;
    while i < |terms|
      invariant i <= |terms| && points == AddTerms(fp, f, terms[..i]) && max == MaxOfTerms(fp, i)
    {
      max := fp.add(max, 3.0);
      points := AddOne(fp, f, terms[i], points);
      assert terms[..i + 1][..i] == terms[..i];
      i := i + 1;
    }
    assert terms[..i] == terms;
  }

  method AddOne(fp: Floats, f: Fields, term: string, points0: real) returns (points: real)
    ensures points == AddTerm(fp, f, term, points0)
  {
    points := points0;
    if Contains(f.title, term) {
      points := fp.add(points, 1.8);
    }
    if Contains(f.body, term) {
      points := fp.add(points, 0.8);
    }
    if Contains(f.tags, term) {
      points := fp.add(points, 0.4);
    }
  }

  // ---------- how far the computed score is from the exact share ----------

  /** Computed points after `n` additions at most: off by `e` for each of them. */
  ghost predicate Drift(points: real, exact: real, n: real, e: real) {
    0.0 <= points && 0.0 <= exact <= 62.0 && 0.0 <= n <= 62.0 && Close(points, exact, n * e)
  }

  lemma DriftBounded(points: real, exact: real, n: real, e: real)
    requires Drift(points, exact, n, e) && 0.0 <= e <= 0.001
    ensures points <= 63.0
  {
    ProductSmall(n, e);
  }

  lemma ProductSmall(n: real, e: real)
    requires 0.0 <= n <= 62.0 && 0.0 <= e <= 0.001
    ensures n * e <= 0.062
  {
    Product(62.0 - n, e);
    assert (62.0 - n) * e == 62.0 * e - n * e;
  }

  /** One addition more: the error grows by `e`. */
  lemma AddIfDrifts(fp: Floats, e: real, points: real, exact: real, n: real, hit: bool, w: real)
    requires AddsClose(fp, e) && 0.0 <= e <= 0.001 && Drift(points, exact, n, e)
    requires 0.0 <= w <= 3.0 && exact + w <= 62.0 && n + 1.0 <= 62.0
    ensures Drift(AddIf(fp, points, hit, w), exact + If(hit, w), n + 1.0, e)
  {
    DriftBounded(points, exact, n, e);
    assert (n + 1.0) * e == n * e + e;
  }

  lemma AddTermDrifts(fp: Floats, e: real, f: Fields, term: string, points: real, exact: real, n: real)
    requires AddsClose(fp, e) && 0.0 <= e <= 0.001 && Drift(points, exact, n, e)
    requires exact + 3.0 <= 62.0 && n + 3.0 <= 62.0
    ensures Drift(AddTerm(fp, f, term, points), exact + TermPoints(f, term), n + 3.0, e)
  {
    ThreeDrift(fp, e, points, exact, n, Contains(f.title, term), Contains(f.body, term), Contains(f.tags, term));
  }

  lemma ThreeDrift(fp: Floats, e: real, points: real, exact: real, n: real, a: bool, b: bool, c: bool)
    requires AddsClose(fp, e) && 0.0 <= e <= 0.001 && Drift(points, exact, n, e)
    requires exact + 3.0 <= 62.0 && n + 3.0 <= 62.0
    ensures Drift(AddIf(fp, AddIf(fp, AddIf(fp, points, a, 1.8), b, 0.8), c, 0.4),
                  exact + (If(a, 1.8) + If(b, 0.8) + If(c, 0.4)), n + 3.0, e)
  {
    var p1 := AddIf(fp, points, a, 1.8);
    var p2 := AddIf(fp, p1, b, 0.8);
    var x1 := exact + If(a, 1.8);
    var x2 := x1 + If(b, 0.8);
    AddIfDrifts(fp, e, points, exact, n, a, 1.8);
    AddIfDrifts(fp, e, p1, x1, n + 1.0, b, 0.8);
    AddIfDrifts(fp, e, p2, x2, n + 2.0, c, 0.4);
    assert n + 1.0 + 1.0 == n + 2.0 && n + 2.0 + 1.0 == n + 3.0;
  }

  lemma {:induction false} AddTermsDrift(fp: Floats, e: real, f: Fields, terms: seq<string>)
    requires AddsClose(fp, e) && 0.0 <= e <= 0.001 && |terms| <= MAX_TERMS
    ensures Drift(AddTerms(fp, f, terms), Points(f, terms), 3.0 * |terms| as real, e)
  {
    if terms != [] {
      var init := terms[..|terms| - 1];
      AddTermsDrift(fp, e, f, init);
      PointsAtMost(f, init);
      AddTermDrifts(fp, e, f, terms[|terms| - 1], AddTerms(fp, f, init), Points(f, init), 3.0 * |init| as real);
      assert 3.0 * |init| as real + 3.0 == 3.0 * |terms| as real;
    }
  }

  lemma PointsAtMost(f: Fields, terms: seq<string>)
    ensures 0.0 <= Points(f, terms) <= 3.0 * |terms| as real
  {
    PointsRange(f, terms);
  }

  lemma ComputedPointsDrift(fp: Floats, e: real, f: Fields, terms: seq<string>, query: string)
    requires AddsClose(fp, e) && 0.0 <= e <= 0.001 && |terms| <= MAX_TERMS
    ensures Drift(ComputedPoints(fp, f, terms, query), Points(f, terms) + QueryPoints(f, query),
                  MaxPoints(terms, query), e)
  {
    AddTermsDrift(fp, e, f, terms);
    PointsAtMost(f, terms);
    if query != "" {
      TwoDrift(fp, e, AddTerms(fp, f, terms), Points(f, terms), 3.0 * |terms| as real,
               Contains(f.title, query), Contains(f.body, query));
    }
  }

  lemma TwoDrift(fp: Floats, e: real, points: real, exact: real, n: real, a: bool, b: bool)
    requires AddsClose(fp, e) && 0.0 <= e <= 0.001 && Drift(points, exact, n, e)
    requires exact <= n <= 60.0
    ensures Drift(AddIf(fp, AddIf(fp, points, a, 1.5), b, 0.5), exact + (If(a, 1.5) + If(b, 0.5)), n + 2.0, e)
  {
    var p1, x1 := AddIf(fp, points, a, 1.5), exact + If(a, 1.5);
    AddIfDrifts(fp, e, points, exact, n, a, 1.5);
    AddIfDrifts(fp, e, p1, x1, n + 1.0, b, 0.5);
    assert n + 1.0 + 1.0 == n + 2.0;
  }

  lemma {:induction false} MaxIsExact(fp: Floats, n: nat)
    requires AddsWhole(fp) && n <= MAX_TERMS
    ensures MaxOfTerms(fp, n) == 3.0 * n as real
  {
    if n > 0 {
      MaxIsExact(fp, n - 1);
      WholeProduct(n - 1);
      assert Whole(3.0);
    }
  }

  lemma WholeProduct(n: nat)
    ensures Whole(3.0 * n as real)
  {
    assert 3.0 * n as real == (3 * n) as real;
  }

  lemma ComputedMaxIsExact(fp: Floats, terms: seq<string>, query: string)
    requires AddsWhole(fp) && |terms| <= MAX_TERMS
    ensures ComputedMax(fp, |terms|, query) == MaxPoints(terms, query)
  {
    MaxIsExact(fp, |terms|);
    WholeProduct(|terms|);
    assert Whole(2.0);
  }

  /** A quotient whose numerator is off by `max * e` is off by `e`, and dividing adds another `e`. */
  lemma QuotientClose(fp: Floats, e: real, points: real, exact: real, max: real)
    requires DividesClose(fp, e) && 0.0 <= e <= 0.001 && 2.0 <= max && Drift(points, exact, max, e)
    ensures Close(fp.div(points, max), exact / max, 2.0 * e)
  {
    DriftBounded(points, exact, max, e);
    ShareClose(points, exact, max, e);
    assert Close(fp.div(points, max), points / max, e);
  }

  lemma ShareClose(points: real, exact: real, max: real, e: real)
    requires max > 0.0 && Close(points, exact, max * e)
    ensures Close(points / max, exact / max, e)
  {
    var q, r := points / max, exact / max;
    assert q * max == points && r * max == exact;
    InOrder(q, r + e, max);
    InOrder(r - e, q, max);
    assert (r + e) * max == exact + max * e && (r - e) * max == exact - max * e;
  }

  lemma ClampClose(x: real, y: real, d: real)
    requires Close(x, y, d) && 0.0 <= y <= 1.0
    ensures Close(Clamp(x), y, d)
  {
  }

  /** The computed score is within twice the error of one operation of the exact share. */
  lemma ScoreIsClose(fp: Floats, e: real, topic: Topic, terms: seq<string>, raw: string)
    requires Accurate(fp, e) && |terms| <= MAX_TERMS
    ensures Close(Computed(fp, topic, terms, raw), Lexical(topic, terms, raw), 2.0 * e)
  {
    ShareIsClose(fp, e, Lowered(topic), terms, Query(raw));
  }

  function ExactShare(f: Fields, terms: seq<string>, query: string): real {
    ShareOf(Points(f, terms) + QueryPoints(f, query), MaxPoints(terms, query))
  }

  function ShareAsComputed(fp: Floats, f: Fields, terms: seq<string>, query: string): real {
    ComputedShare(fp, ComputedPoints(fp, f, terms, query), ComputedMax(fp, |terms|, query))
  }

  lemma ShareIsClose(fp: Floats, e: real, f: Fields, terms: seq<string>, query: string)
    requires Accurate(fp, e) && |terms| <= MAX_TERMS
    ensures Close(ShareAsComputed(fp, f, terms, query), ExactShare(f, terms, query), 2.0 * e)
  {
    ComputedMaxIsExact(fp, terms, query);
    ComputedPointsDrift(fp, e, f, terms, query);
    PointsBounds(f, terms, query);
    ShareDrifts(fp, e, ComputedPoints(fp, f, terms, query), Points(f, terms) + QueryPoints(f, query),
                MaxPoints(terms, query));
  }

  lemma ShareDrifts(fp: Floats, e: real, points: real, exact: real, max: real)
    requires DividesClose(fp, e) && 0.0 <= e <= 0.001 && Drift(points, exact, max, e) && exact <= max
    requires max >= 2.0 || max == 0.0
    ensures Close(ComputedShare(fp, points, max), ShareOf(exact, max), 2.0 * e)
  {
    if max > 0.0 {
      QuotientClose(fp, e, points, exact, max);
      ShareMeans(exact, max);
      ClampClose(fp.div(points, max), exact / max, 2.0 * e);
    }
  }

  lemma PointsBounds(f: Fields, terms: seq<string>, query: string)
    ensures 0.0 <= Points(f, terms) + QueryPoints(f, query) <= MaxPoints(terms, query)
  {
    PointsRange(f, terms);
  }

  /** Everything is found everywhere exactly when the computed score reaches 1 up to that error. */
  lemma PerfectScore(fp: Floats, e: real, f: Fields, terms: seq<string>, query: string)
    requires Accurate(fp, e) && |terms| <= MAX_TERMS
    ensures IsPerfect(f, terms, query) <==> ShareAsComputed(fp, f, terms, query) >= 1.0 - 2.0 * e
  {
    ShareIsClose(fp, e, f, terms, query);
    PerfectShare(f, terms, query);
    if !IsPerfect(f, terms, query) {
      ImperfectShare(f, terms, query);
    }
  }

  /** One miss costs at least 0.4 of at most 62 points. */
  lemma ImperfectShare(f: Fields, terms: seq<string>, query: string)
    requires |terms| <= MAX_TERMS && !IsPerfect(f, terms, query)
    ensures ExactShare(f, terms, query) <= 0.995
  {
    var points, max := Points(f, terms) + QueryPoints(f, query), MaxPoints(terms, query);
    MaxPositive(terms, query);
    if max > 0.0 {
      PointsGap(f, terms, query);
      ShareAtMost(points, max);
    }
  }

  lemma ShareAtMost(points: real, max: real)
    requires 0.0 < max <= 62.0 && points <= max - 0.4
    ensures points / max <= 0.995
  {
    var q := points / max;
    assert q * max == points;
    assert 0.995 * max >= points;
    InOrder(q, 0.995, max);
  }

  lemma PointsGap(f: Fields, terms: seq<string>, query: string)
    requires !Perfect(f, terms, query)
    ensures Points(f, terms) + QueryPoints(f, query) <= MaxPoints(terms, query) - 0.4
  {
    PointsRange(f, terms);
    if !(forall t :: t in terms ==> Everywhere(f, t)) {
      TermsGap(f, terms);
    }
  }

  lemma {:induction false} TermsGap(f: Fields, terms: seq<string>)
    requires !(forall t :: t in terms ==> Everywhere(f, t))
    ensures Points(f, terms) <= 3.0 * |terms| as real - 0.4
  {
    var init, last := terms[..|terms| - 1], terms[|terms| - 1];
    assert terms == init + [last];
    PointsRange(f, init);
    if Everywhere(f, last) {
      TermsGap(f, init);
    }
  }
}
