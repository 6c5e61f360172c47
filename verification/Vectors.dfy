/** Model-update vectors, squared Euclidean distance, and the parallel-axis identity Multi-Krum rests on. */
module Vectors {
  type Vec = seq<real>

  ghost predicate SameLength(vs: seq<Vec>, len: nat) {
    forall i :: 0 <= i < |vs| ==> |vs[i]| == len
  }

  function Dot(a: Vec, b: Vec): real
    requires |a| == |b|
  {
    if a == [] then 0.0
    else Dot(a[..|a| - 1], b[..|b| - 1]) + a[|a| - 1] * b[|b| - 1]
  }

  function SqDist(a: Vec, b: Vec): real
    requires |a| == |b|
  {
    if a == [] then 0.0
    else
      var d := a[|a| - 1] - b[|b| - 1];
      SqDist(a[..|a| - 1], b[..|b| - 1]) + d * d
  }

  method SquaredEuclideanDistance(a: Vec, b: Vec) returns (s: real)
    requires |a| == |b|
    ensures s == SqDist(a, b)
  {
    s := 0.0;
    for i := 0 to |a|
      invariant s == SqDist(a[..i], b[..i])
    {
      assert a[..i + 1][..i] == a[..i] && b[..i + 1][..i] == b[..i];
      s := s + (a[i] - b[i]) * (a[i] - b[i]);
    }
    assert a[..|a|] == a && b[..|b|] == b;
  }

  lemma {:induction false} SqDistSymmetric(a: Vec, b: Vec)
    requires |a| == |b|
    ensures SqDist(a, b) == SqDist(b, a)
  {
    if a != [] {
      SqDistSymmetric(a[..|a| - 1], b[..|b| - 1]);
      var d := a[|a| - 1] - b[|b| - 1];
      assert d * d == (-d) * (-d);
    }
  }

  lemma {:induction false} SqDistSelf(a: Vec)
    ensures SqDist(a, a) == 0.0
  {
    if a != [] {
      SqDistSelf(a[..|a| - 1]);
    }
  }

  lemma SnocEqualIff<T>(a: seq<T>, b: seq<T>)
    requires |a| == |b| > 0
    ensures a == b <==> a[..|a| - 1] == b[..|a| - 1] && a[|a| - 1] == b[|a| - 1]
  {
    assert a == a[..|a| - 1] + [a[|a| - 1]] && b == b[..|a| - 1] + [b[|a| - 1]];
  }

  lemma {:induction false} SqDistPositive(a: Vec, b: Vec)
    requires |a| == |b|
    ensures SqDist(a, b) >= 0.0 && (SqDist(a, b) == 0.0 <==> a == b)
  {
    if a != [] {
      var m := |a| - 1;
      var rest, square := LastSquare(a, b);
      SqDistPositive(a[..m], b[..m]);
      SnocEqualIff(a, b);
    }
  }

  lemma LastSquare(a: Vec, b: Vec) returns (rest: real, square: real)
    requires |a| == |b| > 0
    ensures rest == SqDist(a[..|a| - 1], b[..|b| - 1]) && SqDist(a, b) == rest + square
    ensures square >= 0.0 && (square == 0.0 <==> a[|a| - 1] == b[|b| - 1])
  {
    var x, y := a[|a| - 1], b[|b| - 1];
    rest := SqDist(a[..|a| - 1], b[..|b| - 1]);
    square := Squared(x - y);
    assert x - y == 0.0 <==> x == y;
  }

  lemma MulPositive(x: real, y: real) returns (p: real)
    requires x > 0.0 && y > 0.0
    ensures p == x * y && p > 0.0
  {
    p := x * y;
  }

  lemma SquareOfNegative(d: real) returns (square: real)
    requires d < 0.0
    ensures square == d * d && square > 0.0
  {
    square := MulPositive(-d, -d);
  }

  lemma Squared(d: real) returns (square: real)
    ensures square == d * d && square >= 0.0
    ensures d != 0.0 ==> square > 0.0
    ensures d == 0.0 ==> square == 0.0
  {
    if d > 0.0 {
      square := MulPositive(d, d);
    } else if d < 0.0 {
      square := SquareOfNegative(d);
    } else {
      square := 0.0;
    }
  }

  /** |a - b|^2 = a.a - 2 a.b + b.b */
  lemma {:induction false} SqDistByDot(a: Vec, b: Vec)
    requires |a| == |b|
    ensures SqDist(a, b) == Dot(a, a) - 2.0 * Dot(a, b) + Dot(b, b)
  {
    if a != [] {
      SqDistByDot(a[..|a| - 1], b[..|b| - 1]);
      Square(a[|a| - 1], b[|b| - 1]);
    }
  }

  lemma Square(p: real, q: real)
    ensures (p - q) * (p - q) == p * p - 2.0 * (p * q) + q * q
  {
  }

  function Add(a: Vec, b: Vec): (c: Vec)
    requires |a| == |b|
    ensures |c| == |a|
  {
    seq(|a|, i requires 0 <= i < |a| => a[i] + b[i])
  }

  function Scale(r: real, a: Vec): (c: Vec)
    ensures |c| == |a|
  {
    seq(|a|, i requires 0 <= i < |a| => r * a[i])
  }

  function Zero(len: nat): (c: Vec)
    ensures |c| == len
  {
    seq(len, _ => 0.0)
  }

  lemma {:induction false} DotAdd(x: Vec, a: Vec, b: Vec)
    requires |x| == |a| == |b|
    ensures Dot(x, Add(a, b)) == Dot(x, a) + Dot(x, b)
  {
    if x != [] {
      var m := |x| - 1;
      assert Add(a, b)[..m] == Add(a[..m], b[..m]);
      DotAdd(x[..m], a[..m], b[..m]);
      assert x[m] * (a[m] + b[m]) == x[m] * a[m] + x[m] * b[m];
    }
  }

  lemma {:induction false} DotScale(x: Vec, r: real, a: Vec)
    requires |x| == |a|
    ensures Dot(x, Scale(r, a)) == r * Dot(x, a)
  {
    if x != [] {
      var m := |x| - 1;
      forall i | 0 <= i < m ensures Scale(r, a)[..m][i] == Scale(r, a[..m])[i] {
        assert a[..m][i] == a[i];
      }
      assert Scale(r, a)[..m] == Scale(r, a[..m]);
      DotScale(x[..m], r, a[..m]);
      assert x[m] * (r * a[m]) == r * (x[m] * a[m]);
    }
  }

  lemma {:induction false} DotZero(x: Vec)
    ensures Dot(x, Zero(|x|)) == 0.0
  {
    if x != [] {
      assert Zero(|x|)[..|x| - 1] == Zero(|x| - 1);
      DotZero(x[..|x| - 1]);
    }
  }

  /** The sum of the first `m` vectors. */
  function Total(vs: seq<Vec>, m: nat, len: nat): (c: Vec)
    requires m <= |vs| && SameLength(vs, len)
    ensures |c| == len
  {
    if m == 0 then Zero(len) else Add(Total(vs, m - 1, len), vs[m - 1])
  }

  /** The sum of the squared norms of the first `m` vectors. */
  function NormTotal(vs: seq<Vec>, m: nat): real
    requires m <= |vs|
  {
    if m == 0 then 0.0 else NormTotal(vs, m - 1) + Dot(vs[m - 1], vs[m - 1])
  }

  function Centroid(vs: seq<Vec>, len: nat): (c: Vec)
    requires vs != [] && SameLength(vs, len)
    ensures |c| == len
  {
    Scale(1.0 / |vs| as real, Total(vs, |vs|, len))
  }

  /** The sum of the squared distances from `x` to the first `m` vectors. */
  function DistTotal(x: Vec, vs: seq<Vec>, m: nat): real
    requires m <= |vs| && SameLength(vs, |x|)
  {
    if m == 0 then 0.0 else DistTotal(x, vs, m - 1) + SqDist(x, vs[m - 1])
  }

  /** n copies of `r` added up; see TimesIsProduct. */
  function Times(n: nat, r: real): real {
    if n == 0 then 0.0 else Times(n - 1, r) + r
  }

  lemma {:induction false} TimesIsProduct(n: nat, r: real)
    ensures Times(n, r) == n as real * r
  {
    if n > 0 {
      TimesIsProduct(n - 1, r);
      assert ((n - 1) as real + 1.0) * r == (n - 1) as real * r + r;
    }
  }

  lemma {:induction false} DistTotalByDot(x: Vec, vs: seq<Vec>, m: nat)
    requires m <= |vs| && SameLength(vs, |x|)
    ensures DistTotal(x, vs, m) == Times(m, Dot(x, x)) - 2.0 * Dot(x, Total(vs, m, |x|)) + NormTotal(vs, m)
  {
    if m == 0 {
      DotZero(x);
    } else {
      DistTotalByDot(x, vs, m - 1);
      SqDistByDot(x, vs[m - 1]);
      DotAdd(x, Total(vs, m - 1, |x|), vs[m - 1]);
    }
  }

  lemma {:induction false} TimesLinear(n: nat, s: real, a: real, b: real, c: real)
    requires s == a - 2.0 * b + c
    ensures Times(n, s) == Times(n, a) - 2.0 * Times(n, b) + Times(n, c)
  {
    if n > 0 {
      TimesLinear(n - 1, s, a, b, c);
    }
  }

  lemma ScaledTimesCount(x: Vec, n: nat, r: real, total: Vec)
    requires n > 0 && n as real * r == 1.0 && |x| == |total|
    ensures Times(n, Dot(x, Scale(r, total))) == Dot(x, total)
  {
    DotScale(x, r, total);
    Undivide(n, r, Dot(x, total), Dot(x, Scale(r, total)));
  }

  lemma Reciprocal(n: nat)
    requires n > 0
    ensures n as real * (1.0 / n as real) == 1.0
  {
  }

  lemma Undivide(n: nat, r: real, t: real, m: real)
    requires n as real * r == 1.0 && m == r * t
    ensures Times(n, m) == t
  {
    TimesIsProduct(n, m);
    assert n as real * (r * t) == (n as real * r) * t;
  }

  lemma CentroidTimesCount(x: Vec, vs: seq<Vec>)
    requires vs != [] && SameLength(vs, |x|)
    ensures Times(|vs|, Dot(x, Centroid(vs, |x|))) == Dot(x, Total(vs, |vs|, |x|))
  {
    Reciprocal(|vs|);
    ScaledTimesCount(x, |vs|, 1.0 / |vs| as real, Total(vs, |vs|, |x|));
  }

  /** The identity about any point that has the defining property of the centroid. */
  lemma ParallelAxisAt(x: Vec, vs: seq<Vec>, mean: Vec)
    requires SameLength(vs, |x|) && |mean| == |x|
    requires Times(|vs|, Dot(x, mean)) == Dot(x, Total(vs, |vs|, |x|))
    ensures DistTotal(x, vs, |vs|)
         == Times(|vs|, SqDist(x, mean)) + (NormTotal(vs, |vs|) - Times(|vs|, Dot(mean, mean)))
  {
    DistTotalByDot(x, vs, |vs|);
    SqDistByDot(x, mean);
    TimesLinear(|vs|, SqDist(x, mean), Dot(x, x), Dot(x, mean), Dot(mean, mean));
  }

  /** The part of the distance sum that does not depend on the vector it is measured from. */
  function Spread(vs: seq<Vec>, len: nat): real
    requires vs != [] && SameLength(vs, len)
  {
    NormTotal(vs, |vs|) - Times(|vs|, Dot(Centroid(vs, len), Centroid(vs, len)))
  }

  /**
    The parallel-axis identity: the distances to all vectors are n times the distance to their mean, plus a constant.
   */
  lemma ParallelAxis(x: Vec, vs: seq<Vec>)
    requires vs != [] && SameLength(vs, |x|)
    ensures DistTotal(x, vs, |vs|) == Times(|vs|, SqDist(x, Centroid(vs, |x|))) + Spread(vs, |x|)
  {
    CentroidTimesCount(x, vs);
    ParallelAxisAt(x, vs, Centroid(vs, |x|));
  }

  lemma TimesReflectsOrder(n: nat, a: real, b: real)
    requires n > 0 && Times(n, a) <= Times(n, b)
    ensures a <= b
  {
    TimesIsProduct(n, a);
    TimesIsProduct(n, b);
  }

  lemma AsProduct(n: nat, r: real) returns (product: real)
    ensures product == Times(n, r) && product == n as real * r
  {
    TimesIsProduct(n, r);
    product := n as real * r;
  }
}
