/** Python's sorted(): what it promises, and an insertion sort that keeps the promise. */
module Sorting {

  ghost predicate Total<T(!new)>(le: (T, T) -> bool) {
    forall a, b :: le(a, b) || le(b, a)
  }

  ghost predicate Transitive<T(!new)>(le: (T, T) -> bool) {
    forall a, b, c :: le(a, b) && le(b, c) ==> le(a, c)
  }

  ghost predicate Antisymmetric<T(!new)>(le: (T, T) -> bool) {
    forall a, b :: le(a, b) && le(b, a) ==> a == b
  }

  ghost predicate Sorted<T>(xs: seq<T>, le: (T, T) -> bool) {
    forall i, j :: 0 <= i < j < |xs| ==> le(xs[i], xs[j])
  }

  function Insert<T>(x: T, xs: seq<T>, le: (T, T) -> bool): seq<T> {
    if xs == [] || le(x, xs[0]) then [x] + xs else [xs[0]] + Insert(x, xs[1..], le)
  }

  function Sort<T>(xs: seq<T>, le: (T, T) -> bool): seq<T> {
    if xs == [] then [] else Insert(xs[0], Sort(xs[1..], le), le)
  }

  lemma {:induction false} InsertKeeps<T>(x: T, xs: seq<T>, le: (T, T) -> bool)
    ensures multiset(Insert(x, xs, le)) == multiset(xs) + multiset{x}
  {
    if xs != [] && !le(x, xs[0]) {
      InsertKeeps(x, xs[1..], le);
      assert xs == [xs[0]] + xs[1..];
    }
  }

  lemma {:induction false} InsertSorted<T(!new)>(x: T, xs: seq<T>, le: (T, T) -> bool)
    requires Total(le) && Transitive(le) && Sorted(xs, le)
    ensures Sorted(Insert(x, xs, le), le)
  {
    if xs != [] {
      if le(x, xs[0]) {
        forall j | 0 <= j < |xs|
          ensures le(x, xs[j])
        {
          assert j > 0 ==> le(xs[0], xs[j]);
        }
      } else {
        var rest := Insert(x, xs[1..], le);
        InsertSorted(x, xs[1..], le);
        InsertKeeps(x, xs[1..], le);
        forall j | 0 <= j < |rest|
          ensures le(xs[0], rest[j])
        {
          assert rest[j] in multiset(rest);
          assert rest[j] == x || rest[j] in xs[1..];
        }
      }
    }
  }

  lemma {:induction false} SortKeeps<T>(xs: seq<T>, le: (T, T) -> bool)
    ensures multiset(Sort(xs, le)) == multiset(xs) && |Sort(xs, le)| == |xs|
  {
    if xs != [] {
      SortKeeps(xs[1..], le);
      InsertKeeps(xs[0], Sort(xs[1..], le), le);
      assert xs == [xs[0]] + xs[1..];
      assert |multiset(Sort(xs, le))| == |multiset(xs)|;
    }
  }

  lemma {:induction false} SortSorts<T(!new)>(xs: seq<T>, le: (T, T) -> bool)
    requires Total(le) && Transitive(le)
    ensures Sorted(Sort(xs, le), le)
  {
    if xs != [] {
      SortSorts(xs[1..], le);
      InsertSorted(xs[0], Sort(xs[1..], le), le);
    }
  }

  lemma LeastFirst<T(!new)>(xs: seq<T>, x: T, le: (T, T) -> bool)
    requires Sorted(xs, le) && x in multiset(xs)
    ensures x == xs[0] || le(xs[0], x)
  {
    var i :| 0 <= i < |xs| && xs[i] == x;
  }

  lemma TailMultiset<T>(xs: seq<T>)
    requires xs != []
    ensures multiset(xs[1..]) == multiset(xs) - multiset{xs[0]}
  {
    assert xs == [xs[0]] + xs[1..];
  }

  /** Under an antisymmetric order, a multiset has one sorted arrangement. */
  lemma {:induction false} SortedUnique<T(!new)>(xs: seq<T>, ys: seq<T>, le: (T, T) -> bool)
    requires Antisymmetric(le)
    requires Sorted(xs, le) && Sorted(ys, le) && multiset(xs) == multiset(ys)
    ensures xs == ys
  {
    if xs == [] {
      assert |multiset(ys)| == 0;
    } else {
      assert xs[0] in multiset(xs);
      assert ys[0] in multiset(ys);
      LeastFirst(ys, xs[0], le);
      LeastFirst(xs, ys[0], le);
      TailMultiset(xs);
      TailMultiset(ys);
      SortedUnique(xs[1..], ys[1..], le);
      assert xs == [xs[0]] + xs[1..] && ys == [ys[0]] + ys[1..];
    }
  }

  lemma SortedAlready<T(!new)>(xs: seq<T>, le: (T, T) -> bool)
    requires Total(le) && Transitive(le) && Antisymmetric(le) && Sorted(xs, le)
    ensures Sort(xs, le) == xs
  {
    SortKeeps(xs, le);
    SortSorts(xs, le);
    SortedUnique(Sort(xs, le), xs, le);
  }

  /** The sort is stable at its head: it starts with the first element that precedes all others. */
  lemma {:induction false} SortHead<T(!new)>(xs: seq<T>, le: (T, T) -> bool) returns (k: nat)
    requires xs != [] && Total(le) && Transitive(le)
    ensures k < |xs| && Sort(xs, le) != [] && Sort(xs, le)[0] == xs[k]
    ensures forall j :: 0 <= j < |xs| ==> le(xs[k], xs[j])
    ensures forall j :: 0 <= j < k ==> !le(xs[j], xs[k])
  {
    if |xs| == 1 {
      k := 0;
      assert Sort(xs[1..], le) == [];
    } else {
      var i := SortHead(xs[1..], le);
      assert forall j :: 0 < j < |xs| ==> xs[j] == xs[1..][j - 1];
      k := if le(xs[0], xs[i + 1]) then 0 else i + 1;
    }
  }

  // ---------- Python's order on strings and on pairs of strings ----------

  predicate StringLe(a: string, b: string) {
    a == [] || (b != [] && (a[0] < b[0] || (a[0] == b[0] && StringLe(a[1..], b[1..]))))
  }

  /** At the first difference the smaller character decides, and a prefix comes first. */
  lemma {:induction false} StringLeMeans(a: string, b: string)
    ensures StringLe(a, b) <==> a <= b || exists k: nat :: DiffersAt(a, b, k) && a[k] < b[k]
  {
    if a != [] && b != [] {
      if a[0] == b[0] {
        StringLeMeans(a[1..], b[1..]);
        assert a == [a[0]] + a[1..] && b == [b[0]] + b[1..];
        forall k: nat
          ensures DiffersAt(a[1..], b[1..], k) <==> DiffersAt(a, b, k + 1)
          ensures !DiffersAt(a, b, 0)
        {
          DiffersLater(a, b, k);
        }
        if exists k: nat :: DiffersAt(a, b, k) && a[k] < b[k] {
          var k: nat :| DiffersAt(a, b, k) && a[k] < b[k];
          assert DiffersAt(a, b, k - 1 + 1) && a[1..][k - 1] < b[1..][k - 1];
        }
        if exists k: nat :: DiffersAt(a[1..], b[1..], k) && a[1..][k] < b[1..][k] {
          var k: nat :| DiffersAt(a[1..], b[1..], k) && a[1..][k] < b[1..][k];
          assert DiffersAt(a, b, k + 1) && a[k + 1] < b[k + 1];
        }
      } else {
        assert DiffersAt(a, b, 0);
        forall k: nat | DiffersAt(a, b, k)
          ensures k == 0
        {
          if k > 0 {
            SameStart(a, b, k);
            assert false;
          }
        }
      }
    }
  }

  lemma SameStart(a: string, b: string, k: nat)
    requires 0 < k <= |a| && k <= |b| && a[..k] == b[..k]
    ensures a[0] == b[0]
  {
    assert a[..k][0] == b[..k][0];
  }

  lemma DiffersLater(a: string, b: string, k: nat)
    requires a != [] && b != [] && a[0] == b[0]
    ensures DiffersAt(a[1..], b[1..], k) <==> DiffersAt(a, b, k + 1)
  {
    if k < |a| - 1 && k < |b| - 1 {
      assert a[..k + 1] == [a[0]] + a[1..][..k] && b[..k + 1] == [b[0]] + b[1..][..k];
      assert a[1..][..k] == a[..k + 1][1..] && b[1..][..k] == b[..k + 1][1..];
    }
  }

  /** The first difference of two texts. */
  ghost predicate DiffersAt(a: string, b: string, k: nat) {
    k < |a| && k < |b| && a[..k] == b[..k] && a[k] != b[k]
  }

  /** Python's order on pairs of strings. */
  predicate PairLe(p: (string, string), q: (string, string)) {
    if p.0 != q.0 then StringLe(p.0, q.0) else StringLe(p.1, q.1)
  }

  lemma {:induction false} StringLeAntisymmetric(a: string, b: string)
    requires StringLe(a, b) && StringLe(b, a)
    ensures a == b
  {
    if a != [] && b != [] {
      StringLeAntisymmetric(a[1..], b[1..]);
      assert a == [a[0]] + a[1..] && b == [b[0]] + b[1..];
    }
  }

  lemma {:induction false} StringLeTransitive(a: string, b: string, c: string)
    requires StringLe(a, b) && StringLe(b, c)
    ensures StringLe(a, c)
  {
    if a != [] && a[0] == b[0] == c[0] {
      StringLeTransitive(a[1..], b[1..], c[1..]);
    }
  }

  lemma {:induction false} StringLeTotal(a: string, b: string)
    ensures StringLe(a, b) || StringLe(b, a)
  {
    if a != [] && b != [] {
      StringLeTotal(a[1..], b[1..]);
    }
  }

  lemma PairOrder()
    ensures Total(PairLe) && Transitive(PairLe) && Antisymmetric(PairLe)
  {
    forall p, q
      ensures PairLe(p, q) || PairLe(q, p)
      ensures PairLe(p, q) && PairLe(q, p) ==> p == q
    {
      StringLeTotal(p.0, q.0);
      StringLeTotal(p.1, q.1);
      if PairLe(p, q) && PairLe(q, p) {
        if p.0 != q.0 {
          StringLeAntisymmetric(p.0, q.0);
        } else {
          StringLeAntisymmetric(p.1, q.1);
        }
      }
    }
    forall p, q, r | PairLe(p, q) && PairLe(q, r)
      ensures PairLe(p, r)
    {
      PairLeTransitive(p, q, r);
    }
  }

  lemma PairLeTransitive(p: (string, string), q: (string, string), r: (string, string))
    requires PairLe(p, q) && PairLe(q, r)
    ensures PairLe(p, r)
  {
    if p.0 == q.0 == r.0 {
      StringLeTransitive(p.1, q.1, r.1);
    } else if p.0 != q.0 && q.0 != r.0 {
      StringLeTransitive(p.0, q.0, r.0);
      if p.0 == r.0 {
        StringLeAntisymmetric(p.0, q.0);
      }
    }
  }
}
