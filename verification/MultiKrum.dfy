/** Multi-Krum selection and averaging of agents/aggregator/server.js, plain and reputation-weighted. */
module MultiKrum {
  import opened Options
  import opened Vectors
  import opened Ranking

  // ---------- Scores ----------

  /** The plain score: summed squared distance to every other update. */
  function Score(us: seq<Vec>, len: nat, i: nat, m: nat): real
    requires SameLength(us, len) && i < |us| && m <= |us|
  {
    if m == 0 then 0.0
    else Score(us, len, i, m - 1) + if m - 1 == i then 0.0 else SqDist(us[i], us[m - 1])
  }

  /** The weighted score divides each distance by the product of the two weights. */
  function WeightedScore(us: seq<Vec>, len: nat, w: seq<real>, i: nat, m: nat): real
    requires SameLength(us, len) && i < |us| == |w| && m <= |us|
    requires Positive(w)
  {
    if m == 0 then 0.0
    else WeightedScore(us, len, w, i, m - 1)
         + if m - 1 == i then 0.0 else SqDist(us[i], us[m - 1]) / Product(w, i, m - 1)
  }

  ghost predicate Positive(w: seq<real>) {
    forall i :: 0 <= i < |w| ==> w[i] > 0.0
  }

  function Product(w: seq<real>, i: nat, j: nat): (p: real)
    requires Positive(w) && i < |w| && j < |w|
    ensures p > 0.0
  {
    w[i] * w[j]
  }

  function Scores(us: seq<Vec>, len: nat): (s: seq<real>)
    requires SameLength(us, len)
    ensures |s| == |us| && forall i :: 0 <= i < |us| ==> s[i] == Score(us, len, i, |us|)
  {
    seq(|us|, i requires 0 <= i < |us| => Score(us, len, i, |us|))
  }

  function WeightedScores(us: seq<Vec>, len: nat, w: seq<real>): (s: seq<real>)
    requires SameLength(us, len) && |us| == |w| && Positive(w)
    ensures |s| == |us| && forall i :: 0 <= i < |us| ==> s[i] == WeightedScore(us, len, w, i, |us|)
  {
    seq(|us|, i requires 0 <= i < |us| => WeightedScore(us, len, w, i, |us|))
  }

  ghost predicate IsDistanceMatrix(dists: array2<real>, us: seq<Vec>, len: nat)
    requires SameLength(us, len)
    reads dists
  {
    && dists.Length0 == dists.Length1 == |us|
    && forall i, j :: 0 <= i < |us| && 0 <= j < |us| ==> dists[i, j] == SqDist(us[i], us[j])
  }

  /** The inner loop: row and column `i` from the diagonal on. */
  method FillFrom(dists: array2<real>, us: seq<Vec>, len: nat, i: nat)
    requires SameLength(us, len) && dists.Length0 == dists.Length1 == |us| && i < |us|
    modifies dists
    ensures forall j :: i < j < |us| ==> dists[i, j] == SqDist(us[i], us[j]) && dists[j, i] == SqDist(us[j], us[i])
    ensures forall a, b :: 0 <= a < |us| && 0 <= b < |us| && !(a == i < b) && !(b == i < a) ==>
      dists[a, b] == old(dists[a, b])
  {
    for j := i + 1 to |us|
      invariant forall b :: i < b < j ==> dists[i, b] == SqDist(us[i], us[b]) && dists[b, i] == SqDist(us[b], us[i])
      invariant forall a, b :: 0 <= a < |us| && 0 <= b < |us| && !(a == i < b) && !(b == i < a) ==>
        dists[a, b] == old(dists[a, b])
    {
      var dist := SquaredEuclideanDistance(us[i], us[j]);
      SqDistSymmetric(us[i], us[j]);
      dists[i, j] := dist;
      dists[j, i] := dist;
    }
  }

  /** Only the part above the diagonal is computed; it is mirrored, and the diagonal stays zero. */
  method BuildPairwiseDistanceMatrix(us: seq<Vec>, len: nat) returns (dists: array2<real>)
    requires SameLength(us, len)
    ensures fresh(dists) && IsDistanceMatrix(dists, us, len)
  {
    var n := |us|;
    dists := new real[n, n]((_, _) => 0.0);
    for i := 0 to n
      invariant forall a, b :: 0 <= a < n && 0 <= b < n && a != b && (a < i || b < i) ==>
        dists[a, b] == SqDist(us[a], us[b])
      invariant forall a :: 0 <= a < n ==> dists[a, a] == 0.0
    {
      FillFrom(dists, us, len, i);
    }
    forall a | 0 <= a < n ensures SqDist(us[a], us[a]) == 0.0 {
      SqDistSelf(us[a]);
    }
  }

  /** The inner loop: adds up row `i` of the matrix in cell `i`. */
  method AddRow(cells: array<real>, dists: array2<real>, us: seq<Vec>, len: nat, i: nat)
    requires SameLength(us, len) && IsDistanceMatrix(dists, us, len) && i < |us| == cells.Length
    requires cells[i] == 0.0
    modifies cells
    ensures cells[i] == Score(us, len, i, |us|)
    ensures forall a :: 0 <= a < cells.Length && a != i ==> cells[a] == old(cells[a])
  {
    for j := 0 to |us|
      invariant cells[i] == Score(us, len, i, j)
      invariant forall a :: 0 <= a < cells.Length && a != i ==> cells[a] == old(cells[a])
    {
      if i != j {
        cells[i] := cells[i] + dists[i, j];
      }
    }
  }

  method PlainScores(us: seq<Vec>, len: nat) returns (scores: seq<real>)
    requires SameLength(us, len)
    ensures scores == Scores(us, len)
  {
    var n := |us|;
    var cells := new real[n](_ => 0.0);
    var dists := BuildPairwiseDistanceMatrix(us, len);
    for i := 0 to n
      modifies cells
      invariant forall a :: 0 <= a < i ==> cells[a] == Score(us, len, a, n)
      invariant forall a :: i <= a < n ==> cells[a] == 0.0
    {
      AddRow(cells, dists, us, len, i);
    }
    scores := cells[..];
  }

  /** The inner loop: adds up row `i` of the matrix in cell `i`. */
  method AddWeightedRow(cells: array<real>, dists: array2<real>, us: seq<Vec>, len: nat, w: seq<real>, i: nat)
    requires SameLength(us, len) && IsDistanceMatrix(dists, us, len)
    requires i < |us| == cells.Length && |us| == |w| && Positive(w)
    requires cells[i] == 0.0
    modifies cells
    ensures cells[i] == WeightedScore(us, len, w, i, |us|)
    ensures forall a :: 0 <= a < cells.Length && a != i ==> cells[a] == old(cells[a])
  {
    for j := 0 to |us|
      invariant cells[i] == WeightedScore(us, len, w, i, j)
      invariant forall a :: 0 <= a < cells.Length && a != i ==> cells[a] == old(cells[a])
    {
      if i != j {
        var weight := Product(w, i, j);
        cells[i] := cells[i] + dists[i, j] / weight;
      }
    }
  }

  method ReputationScores(us: seq<Vec>, len: nat, w: seq<real>) returns (scores: seq<real>)
    requires SameLength(us, len) && |us| == |w| && Positive(w)
    ensures scores == WeightedScores(us, len, w)
  {
    var n := |us|;
    var cells := new real[n](_ => 0.0);
    var dists := BuildPairwiseDistanceMatrix(us, len);
    for i := 0 to n
      modifies cells
      invariant forall a :: 0 <= a < i ==> cells[a] == WeightedScore(us, len, w, a, n)
      invariant forall a :: i <= a < n ==> cells[a] == 0.0
    {
      AddWeightedRow(cells, dists, us, len, w, i);
    }
    scores := cells[..];
  }

  // ---------- Selection ----------

  /** `Math.max(1, n - f - 2)`, and a slice never takes more than there are. */
  function PickCount(n: nat, f: int): (pick: nat)
    requires n > 0
    ensures 1 <= pick <= n
  {
    if n - f - 2 <= 1 then 1 else if n - f - 2 > n then n else n - f - 2
  }

  /** How many are picked: n - f - 2, at least one and at most all. */
  lemma PickCountClamps(n: nat, f: int)
    requires n > 0
    ensures f <= -2 ==> PickCount(n, f) == n
    ensures -2 <= f <= n - 3 ==> PickCount(n, f) == n - f - 2
    ensures f >= n - 3 ==> PickCount(n, f) == 1
  {
  }

  function Chosen(us: seq<Vec>, len: nat, f: int): (idxs: seq<nat>)
    requires us != [] && SameLength(us, len)
    ensures |idxs| == PickCount(|us|, f)
  {
    Rank(Scores(us, len))[..PickCount(|us|, f)]
  }

  function WeightedChosen(us: seq<Vec>, len: nat, w: seq<real>, f: int): (idxs: seq<nat>)
    requires us != [] && SameLength(us, len) && |us| == |w| && Positive(w)
    ensures |idxs| == PickCount(|us|, f)
  {
    Rank(WeightedScores(us, len, w))[..PickCount(|us|, f)]
  }

  /** The tolerance the weighted variant derives: at most a third of the updates beyond two. */
  function Tolerance(n: nat, fOverride: Option<int>): int
    requires n >= 2
  {
    var maxF := (n - 2) / 3;
    match fOverride
    case None => if 1 < maxF then 1 else maxF
    case Some(f) => if f < 0 then 0 else if f < maxF then f else maxF
  }

  /** The derived tolerance never exceeds a third of the updates beyond two, so twice as many are always kept. */
  lemma ToleranceLeavesTwiceAsMany(n: nat, fOverride: Option<int>)
    requires n >= 2
    ensures var f := Tolerance(n, fOverride);
      && 0 <= f && 3 * f + 2 <= n && PickCount(n, f) >= 2 * f
      && (fOverride.Some? && fOverride.value >= 0 && 3 * fOverride.value + 2 <= n ==> f == fOverride.value)
      && (fOverride.Some? && fOverride.value < 0 ==> f == 0)
      && (fOverride.Some? && fOverride.value >= 0 && 3 * fOverride.value + 2 > n ==> 3 * f + 5 > n)
      && (fOverride.None? ==> f == if n >= 5 then 1 else 0)
  {
  }

  lemma {:induction false} ScoreIsDistTotal(us: seq<Vec>, len: nat, i: nat, m: nat)
    requires SameLength(us, len) && i < |us| && m <= |us|
    ensures Score(us, len, i, m) == DistTotal(us[i], us, m)
  {
    if m > 0 {
      ScoreIsDistTotal(us, len, i, m - 1);
      SqDistSelf(us[i]);
    }
  }

  lemma ScoreByTimes(us: seq<Vec>, len: nat, i: nat)
    requires SameLength(us, len) && i < |us|
    ensures Score(us, len, i, |us|) == Times(|us|, SqDist(us[i], Centroid(us, len))) + Spread(us, len)
  {
    ScoreIsDistTotal(us, len, i, |us|);
    ParallelAxis(us[i], us);
  }

  /** n times the distance to the centroid, plus a constant that is the same for every update. */
  lemma ScoreMeasuresDistanceToCentroid(us: seq<Vec>, len: nat, i: nat) returns (distance: real)
    requires SameLength(us, len) && i < |us|
    ensures distance == SqDist(us[i], Centroid(us, len))
    ensures Score(us, len, i, |us|) == |us| as real * distance + Spread(us, len)
  {
    ScoreByTimes(us, len, i);
    distance := SqDist(us[i], Centroid(us, len));
    var product := AsProduct(|us|, distance);
  }

  /** Multi-Krum selects the updates nearest to the mean of all updates. */
  lemma ChosenAreNearestToCentroid(us: seq<Vec>, len: nat, f: int, c: nat, u: nat)
    requires us != [] && SameLength(us, len) && u < |us|
    requires c in Chosen(us, len, f) && u !in Chosen(us, len, f)
    ensures c < |us| && SqDist(us[c], Centroid(us, len)) <= SqDist(us[u], Centroid(us, len))
  {
    FrontScoresLowest(Scores(us, len), PickCount(|us|, f), c, u);
    ScoreByTimes(us, len, c);
    ScoreByTimes(us, len, u);
    TimesReflectsOrder(|us|, SqDist(us[c], Centroid(us, len)), SqDist(us[u], Centroid(us, len)));
  }

  // ---------- Averages ----------

  ghost predicate InRange(idxs: seq<nat>, n: nat) {
    forall p :: 0 <= p < |idxs| ==> idxs[p] < n
  }

  /** Coordinate `k` of the sum of the chosen updates. */
  function CoordSum(us: seq<Vec>, len: nat, idxs: seq<nat>, k: nat): real
    requires SameLength(us, len) && InRange(idxs, |us|) && k < len
  {
    if idxs == [] then 0.0 else CoordSum(us, len, idxs[..|idxs| - 1], k) + us[idxs[|idxs| - 1]][k]
  }

  function WeightedCoordSum(us: seq<Vec>, len: nat, w: seq<real>, idxs: seq<nat>, k: nat): real
    requires SameLength(us, len) && InRange(idxs, |us|) && |us| == |w| && k < len
  {
    if idxs == [] then 0.0
    else WeightedCoordSum(us, len, w, idxs[..|idxs| - 1], k) + us[idxs[|idxs| - 1]][k] * w[idxs[|idxs| - 1]]
  }

  function WeightSum(w: seq<real>, idxs: seq<nat>): real
    requires InRange(idxs, |w|)
  {
    if idxs == [] then 0.0 else WeightSum(w, idxs[..|idxs| - 1]) + w[idxs[|idxs| - 1]]
  }

  function Ratio(a: real, d: real): real
    requires d != 0.0
  {
    a / d
  }

  ghost predicate IsAverage(out: Vec, us: seq<Vec>, len: nat, idxs: seq<nat>)
    requires SameLength(us, len) && InRange(idxs, |us|) && idxs != []
  {
    |out| == len && forall k :: 0 <= k < len ==> out[k] == Ratio(CoordSum(us, len, idxs, k), |idxs| as real)
  }

  ghost predicate IsWeightedAverage(out: Vec, us: seq<Vec>, len: nat, w: seq<real>, idxs: seq<nat>)
    requires SameLength(us, len) && InRange(idxs, |us|) && |us| == |w| && WeightSum(w, idxs) != 0.0
  {
    && |out| == len
    && forall k :: 0 <= k < len ==> out[k] == Ratio(WeightedCoordSum(us, len, w, idxs, k), WeightSum(w, idxs))
  }

  lemma {:induction false} WeightSumPositive(w: seq<real>, idxs: seq<nat>)
    requires InRange(idxs, |w|) && Positive(w)
    ensures WeightSum(w, idxs) >= 0.0 && (idxs != [] ==> WeightSum(w, idxs) > 0.0)
  {
    if idxs != [] {
      WeightSumPositive(w, idxs[..|idxs| - 1]);
    }
  }

  // ---------- The two selectors ----------

  /** The plain selector: the mean of the updates with the lowest scores; null for an empty batch. */
  method SimpleMultiKrum(us: seq<Vec>, f: int := 1) returns (r: Option<Vec>)
    requires us != [] ==> SameLength(us, |us[0]|)
    ensures us == [] ==> r == None
    ensures |us| == 1 ==> r == Some(us[0])
    ensures |us| >= 2 ==> r.Some? && IsAverage(r.value, us, |us[0]|, Chosen(us, |us[0]|, f))
  {
    var n := |us|;
    if n == 0 { return None; }
    if n == 1 { return Some(us[0]); }
    var len := |us[0]|;
    var scores := PlainScores(us, len);
    var chosen := Rank(scores)[..PickCount(n, f)];
    var sums := SumChosen(us, len, chosen);
    r := Some(seq(len, k requires 0 <= k < len => Ratio(sums[k], |chosen| as real)));
  }

  method SumChosen(us: seq<Vec>, len: nat, chosen: seq<nat>) returns (sums: seq<real>)
    requires SameLength(us, len) && InRange(chosen, |us|)
    ensures |sums| == len && forall k :: 0 <= k < len ==> sums[k] == CoordSum(us, len, chosen, k)
  {
    var out := new real[len](_ => 0.0);
    for p := 0 to |chosen|
      invariant forall k :: 0 <= k < len ==> out[k] == CoordSum(us, len, chosen[..p], k)
    {
      assert chosen[..p + 1][..p] == chosen[..p];
      AddVector(out, us[chosen[p]]);
    }
    assert chosen[..|chosen|] == chosen;
    sums := out[..];
  }

  /** The innermost loop: adds `v` to the running sums. */
  method AddVector(out: array<real>, v: Vec)
    requires |v| == out.Length
    modifies out
    ensures forall k :: 0 <= k < out.Length ==> out[k] == old(out[k]) + v[k]
  {
    for k := 0 to out.Length
      invariant forall a :: 0 <= a < k ==> out[a] == old(out[a]) + v[a]
      invariant forall a :: k <= a < out.Length ==> out[a] == old(out[a])
    {
      out[k] := out[k] + v[k];
    }
  }

  /** Its weighted counterpart. */
  method AddScaledVector(out: array<real>, v: Vec, w: real)
    requires |v| == out.Length
    modifies out
    ensures forall k :: 0 <= k < out.Length ==> out[k] == old(out[k]) + v[k] * w
  {
    for k := 0 to out.Length
      invariant forall a :: 0 <= a < k ==> out[a] == old(out[a]) + v[a] * w
      invariant forall a :: k <= a < out.Length ==> out[a] == old(out[a])
    {
      out[k] := out[k] + v[k] * w;
    }
  }

  method WeightedSumChosen(us: seq<Vec>, len: nat, w: seq<real>, chosen: seq<nat>)
    returns (sums: seq<real>, denom: real)
    requires SameLength(us, len) && InRange(chosen, |us|) && |us| == |w|
    ensures |sums| == len && forall k :: 0 <= k < len ==> sums[k] == WeightedCoordSum(us, len, w, chosen, k)
    ensures denom == WeightSum(w, chosen)
  {
    var out := new real[len](_ => 0.0);
    denom := 0.0;
    for p := 0 to |chosen|
      invariant forall k :: 0 <= k < len ==> out[k] == WeightedCoordSum(us, len, w, chosen[..p], k)
      invariant denom == WeightSum(w, chosen[..p])
    {
      assert chosen[..p + 1][..p] == chosen[..p];
      denom := denom + w[chosen[p]];
      AddScaledVector(out, us[chosen[p]], w[chosen[p]]);
    }
    assert chosen[..|chosen|] == chosen;
    sums := out[..];
  }

  datatype Selection = Selection(aggregate: Option<Vec>, selectedIndices: seq<nat>, scores: seq<real>)

  /** The weighted selector, given the weights that the reputation tracker assigns. */
  method WeightedMultiKrum(us: seq<Vec>, w: seq<real>, fOverride: Option<int>) returns (r: Selection)
    requires us != [] ==> SameLength(us, |us[0]|)
    requires |us| == |w| && Positive(w)
    ensures us == [] ==> r == Selection(None, [], [])
    ensures |us| == 1 ==> r == Selection(Some(us[0]), [0], [0.0])
    ensures |us| >= 2 ==>
      && r.scores == WeightedScores(us, |us[0]|, w)
      && r.selectedIndices == WeightedChosen(us, |us[0]|, w, Tolerance(|us|, fOverride))
      && WeightSum(w, r.selectedIndices) > 0.0
      && r.aggregate.Some? && IsWeightedAverage(r.aggregate.value, us, |us[0]|, w, r.selectedIndices)
  {
    var n := |us|;
    if n == 0 { return Selection(None, [], []); }
    if n == 1 { return Selection(Some(us[0]), [0], [0.0]); }
    var len := |us[0]|;
    var f := Tolerance(n, fOverride);
    var scores := ReputationScores(us, len, w);
    var selected := Rank(scores)[..PickCount(n, f)];
    var sums, denom := WeightedSumChosen(us, len, w, selected);
    WeightSumPositive(w, selected);
    var aggregate := seq(len, k requires 0 <= k < len => Ratio(sums[k], denom));
    r := Selection(Some(aggregate), selected, scores);
  }

  // ---------- Properties of the averages ----------

  /** Every coordinate of a weighted average lies between the bounds of the chosen updates in that coordinate. */
  lemma WeightedAverageInHull(us: seq<Vec>, len: nat, w: seq<real>, idxs: seq<nat>, k: nat, lo: real, hi: real)
    requires SameLength(us, len) && InRange(idxs, |us|) && |us| == |w| && Positive(w) && k < len && idxs != []
    requires forall i :: i in idxs ==> lo <= us[i][k] <= hi
    ensures WeightSum(w, idxs) > 0.0
    ensures lo <= Ratio(WeightedCoordSum(us, len, w, idxs, k), WeightSum(w, idxs)) <= hi
  {
    var s, d := WeightedSumBounds(us, len, w, idxs, k, lo, hi);
    WeightSumPositive(w, idxs);
    DivideBounds(s, d, lo, hi);
  }

  ghost predicate Within(s: real, d: real, lo: real, hi: real) {
    lo * d <= s <= hi * d
  }

  lemma DivideBounds(s: real, d: real, lo: real, hi: real)
    requires d > 0.0 && Within(s, d, lo, hi)
    ensures lo <= Ratio(s, d) <= hi
  {
    assert s == (s / d) * d;
  }

  lemma {:induction false} WeightedSumBounds(
    us: seq<Vec>, len: nat, w: seq<real>, idxs: seq<nat>, k: nat, lo: real, hi: real)
    returns (s: real, d: real)
    requires SameLength(us, len) && InRange(idxs, |us|) && |us| == |w| && Positive(w) && k < len
    requires forall i :: i in idxs ==> lo <= us[i][k] <= hi
    ensures s == WeightedCoordSum(us, len, w, idxs, k) && d == WeightSum(w, idxs)
    ensures Within(s, d, lo, hi)
  {
    s, d := 0.0, 0.0;
    if idxs != [] {
      var init, i := idxs[..|idxs| - 1], idxs[|idxs| - 1];
      s, d := WeightedSumBounds(us, len, w, init, k, lo, hi);
      s, d := AddBounds(s, d, us[i][k], w[i], lo, hi);
    }
  }

  lemma AddBounds(s: real, d: real, x: real, w: real, lo: real, hi: real) returns (s': real, d': real)
    requires Within(s, d, lo, hi) && lo <= x <= hi && w > 0.0
    ensures s' == s + x * w && d' == d + w && Within(s', d', lo, hi)
  {
    assert (x - lo) * w >= 0.0 && (hi - x) * w >= 0.0;
    assert lo * (d + w) <= s + x * w <= hi * (d + w);
    s', d' := s + x * w, d + w;
  }

  // ---------- How the weights enter the scores ----------

  /** `b` is `x` times `a`. */
  ghost predicate Scales(x: real, a: real, b: real) {
    x * a == b
  }

  lemma OwnTerm(a: real, b: real, x: real, y: real, d: real, p: real) returns (s: real, t: real)
    requires x > 0.0 && y > 0.0 && p != 0.0 && Scales(x, a, b) && Scales(x, y, p)
    ensures s == a + d / p && t == b + d / y && Scales(x, s, t)
  {
    var term := d / p;
    s, t := a + term, b + d / y;
    assert term * p == d;
    assert (x * term) * y == term * (x * y);
    assert d / y == x * term;
    assert x * (a + term) == x * a + x * term;
  }

  /** The last term of a score, as plain numbers. */
  lemma LastTerm(us: seq<Vec>, len: nat, w: seq<real>, i: nat, m: nat) returns (before: real, d: real, p: real)
    requires SameLength(us, len) && i < |us| == |w| && 0 < m <= |us| && m - 1 != i && Positive(w)
    ensures before == WeightedScore(us, len, w, i, m - 1) && d == SqDist(us[i], us[m - 1])
    ensures p == Product(w, i, m - 1) && p > 0.0 && Scales(w[i], w[m - 1], p)
    ensures WeightedScore(us, len, w, i, m) == before + d / p
  {
    before, d, p := WeightedScore(us, len, w, i, m - 1), SqDist(us[i], us[m - 1]), Product(w, i, m - 1);
  }

  lemma LastTermAlone(us: seq<Vec>, len: nat, w: seq<real>, i: nat, m: nat) returns (before: real, d: real)
    requires SameLength(us, len) && i < |us| == |w| && 0 < m <= |us| && m - 1 != i && Positive(w) && w[i] == 1.0
    ensures before == WeightedScore(us, len, w, i, m - 1) && d == SqDist(us[i], us[m - 1])
    ensures WeightedScore(us, len, w, i, m) == before + d / w[m - 1]
  {
    var p;
    before, d, p := LastTerm(us, len, w, i, m);
    assert p == w[m - 1];
  }

  lemma {:induction false} OwnWeightScales(us: seq<Vec>, len: nat, w: seq<real>, v: seq<real>, i: nat, m: nat)
    returns (score: real, unweighted: real)
    requires SameLength(us, len) && i < |us| == |w| && m <= |us| && Positive(w) && Positive(v) && v == w[i := 1.0]
    ensures score == WeightedScore(us, len, w, i, m) && unweighted == WeightedScore(us, len, v, i, m)
    ensures Scales(w[i], score, unweighted)
  {
    score, unweighted := 0.0, 0.0;
    if m > 0 {
      score, unweighted := OwnWeightScales(us, len, w, v, i, m - 1);
      if m - 1 != i {
        var a, d, p := LastTerm(us, len, w, i, m);
        var b, d' := LastTermAlone(us, len, v, i, m);
        score, unweighted := OwnTerm(a, b, w[i], w[m - 1], d, p);
      }
    }
  }

  /** An update's own weight divides its whole score. */
  lemma OwnWeightDividesScore(us: seq<Vec>, len: nat, w: seq<real>, i: nat) returns (score: real)
    requires SameLength(us, len) && i < |us| == |w| && Positive(w)
    ensures Positive(w[i := 1.0]) && score == WeightedScore(us, len, w, i, |us|)
    ensures w[i] * score == WeightedScore(us, len, w[i := 1.0], i, |us|)
  {
    var unweighted;
    score, unweighted := OwnWeightScales(us, len, w, w[i := 1.0], i, |us|);
  }

  lemma Reciprocals(share: real, own: real, y: real, d: real, p: real) returns (part: real)
    requires own > 0.0 && y > 0.0 && share * own == d && Scales(own, y, p)
    ensures p != 0.0 && part == d / p && part == share * (1.0 / y)
  {
    var r := 1.0 / y;
    assert r * y == 1.0;
    assert (share * r) * (own * y) == (share * own) * (r * y);
    part := share * r;
    assert part * p == d;
  }

  /** What a term loses when the other weight in its denominator changes from `y` to `x`. */
  function Gain(d: real, own: real, y: real, x: real): real
    requires own != 0.0 && y != 0.0 && x != 0.0
  {
    d / own * (1.0 / y - 1.0 / x)
  }

  lemma GainIs(d: real, own: real, y: real, x: real) returns (gain: real)
    requires own != 0.0 && y != 0.0 && x != 0.0
    ensures gain == Gain(d, own, y, x) && gain == d / own * (1.0 / y - 1.0 / x)
  {
    gain := Gain(d, own, y, x);
  }

  lemma OneTerm(d: real, own: real, y: real, x: real, p: real, q: real)
    requires own > 0.0 && y > 0.0 && x > 0.0 && Scales(own, y, p) && Scales(own, x, q)
    ensures p != 0.0 && q != 0.0 && d / p - d / q == Gain(d, own, y, x)
  {
    var share := d / own;
    assert share * own == d;
    var a := Reciprocals(share, own, y, d, p);
    var b := Reciprocals(share, own, x, d, q);
    assert share * (1.0 / y - 1.0 / x) == share * (1.0 / y) - share * (1.0 / x);
  }

  lemma ChangedTerm(d: real, own: real, y: real, x: real, p: real, q: real, gain: real)
    requires own > 0.0 && y > 0.0 && x > 0.0 && Scales(own, y, p) && Scales(own, x, q) && gain == Gain(d, own, y, x)
    ensures p != 0.0 && q != 0.0 && d / p - d / q == gain
  {
    OneTerm(d, own, y, x, p, q);
  }

  lemma SameTerm(d: real, own: real, y: real, p: real, q: real)
    requires Scales(own, y, p) && Scales(own, y, q) && p != 0.0
    ensures q != 0.0 && d / p == d / q
  {
  }

  lemma {:induction false} OtherWeightScales(
    us: seq<Vec>, len: nat, w: seq<real>, v: seq<real>, i: nat, j: nat, gain: real, m: nat)
    requires SameLength(us, len) && i < |us| == |w| == |v| && j < |us| && j != i && m <= |us|
    requires Positive(w) && Positive(v) && v == w[j := v[j]] && gain == Gain(SqDist(us[i], us[j]), w[i], w[j], v[j])
    ensures WeightedScore(us, len, w, i, m) - WeightedScore(us, len, v, i, m) == if j < m then gain else 0.0
  {
    if m > 0 {
      OtherWeightScales(us, len, w, v, i, j, gain, m - 1);
      if m - 1 != i {
        var a, d, p := LastTerm(us, len, w, i, m);
        var b, d', q := LastTerm(us, len, v, i, m);
        if m - 1 == j {
          ChangedTerm(d, w[i], w[j], v[j], p, q, gain);
        } else {
          SameTerm(d, w[i], w[m - 1], p, q);
        }
      }
    }
  }

  /** Another update's weight enters through the distance to that update alone, and inversely. */
  lemma OtherWeightEntersOnce(us: seq<Vec>, len: nat, w: seq<real>, i: nat, j: nat, x: real)
    returns (d: real, gain: real)
    requires SameLength(us, len) && i < |us| == |w| && j < |us| && j != i && Positive(w) && x > 0.0
    ensures Positive(w[j := x])
    ensures d == SqDist(us[i], us[j]) && gain == d / w[i] * (1.0 / w[j] - 1.0 / x)
    ensures WeightedScore(us, len, w, i, |us|) - WeightedScore(us, len, w[j := x], i, |us|) == gain
  {
    d := SqDist(us[i], us[j]);
    gain := GainIs(d, w[i], w[j], x);
    OtherWeightScales(us, len, w, w[j := x], i, j, gain, |us|);
  }

  lemma GainPositive(d: real, own: real, y: real, x: real)
    requires d > 0.0 && own > 0.0 && 0.0 < y < x
    ensures Gain(d, own, y, x) > 0.0
  {
    var share, diff := d / own, 1.0 / y - 1.0 / x;
    assert share * own == d;
    ReciprocalFalls(y, x);
    assert share > 0.0 && share * diff > 0.0;
  }

  lemma ReciprocalFalls(y: real, x: real)
    requires 0.0 < y < x
    ensures 1.0 / y > 1.0 / x
  {
    var a, b := 1.0 / y, 1.0 / x;
    assert a * y == 1.0 && b * x == 1.0;
    assert b * (x - y) > 0.0;
    assert (a - b) * y > 0.0;
  }

  /** The more reputable its neighbours, the lower the score of an update: distances to them count for less. */
  lemma ReputableNeighbourLowersScore(us: seq<Vec>, len: nat, w: seq<real>, i: nat, j: nat, x: real)
    requires SameLength(us, len) && i < |us| == |w| && j < |us| && j != i && Positive(w)
    requires us[i] != us[j] && x > w[j]
    ensures Positive(w[j := x])
    ensures WeightedScore(us, len, w[j := x], i, |us|) < WeightedScore(us, len, w, i, |us|)
  {
    SqDistPositive(us[i], us[j]);
    var gain := Gain(SqDist(us[i], us[j]), w[i], w[j], x);
    GainPositive(SqDist(us[i], us[j]), w[i], w[j], x);
    OtherWeightScales(us, len, w, w[j := x], i, j, gain, |us|);
  }

  // ---------- Equal weights ----------

  ghost predicate AllEqual(w: seq<real>, c: real) {
    forall i :: 0 <= i < |w| ==> w[i] == c
  }

  lemma {:induction false} EqualWeightsScaleScores(
    us: seq<Vec>, len: nat, w: seq<real>, c: real, sq: real, i: nat, m: nat)
    requires SameLength(us, len) && i < |us| == |w| && m <= |us| && c > 0.0 && AllEqual(w, c)
    requires sq == c * c && sq > 0.0
    ensures WeightedScore(us, len, w, i, m) == Score(us, len, i, m) / sq
  {
    if m > 0 {
      EqualWeightsScaleScores(us, len, w, c, sq, i, m - 1);
      if m - 1 != i {
        var before, d, p := LastTerm(us, len, w, i, m);
        assert p == sq;
        DivideSum(Score(us, len, i, m - 1), d, sq);
      }
    }
  }

  lemma DivideSum(a: real, b: real, d: real)
    requires d != 0.0
    ensures a / d + b / d == (a + b) / d
  {
  }

  lemma DivideOrder(a: real, b: real, d: real)
    requires d > 0.0
    ensures a <= b <==> a / d <= b / d
  {
    assert a == (a / d) * d && b == (b / d) * d;
  }

  lemma EqualWeightsSameRank(us: seq<Vec>, len: nat, w: seq<real>, c: real)
    requires SameLength(us, len) && |us| == |w| && c > 0.0 && AllEqual(w, c)
    ensures Rank(WeightedScores(us, len, w)) == Rank(Scores(us, len))
  {
    var s, t := Scores(us, len), WeightedScores(us, len, w);
    var sq := MulPositive(c, c);
    forall i, j | 0 <= i < |s| && 0 <= j < |s| ensures AlikeAt(s, t, i, j) {
      EqualWeightsScaleScores(us, len, w, c, sq, i, |us|);
      EqualWeightsScaleScores(us, len, w, c, sq, j, |us|);
      DivideOrder(s[i], s[j], sq);
    }
    SameOrderSameRank(s, t, |s|);
  }

  /**
    With all weights equal and the default tolerances, the two variants select the same indices in the same
    order exactly when there are not four updates; with four, the weighted variant takes one more.
   */
  lemma EqualWeightsSelectAlike(us: seq<Vec>, len: nat, w: seq<real>, c: real)
    requires |us| >= 2 && SameLength(us, len) && |us| == |w| && c > 0.0 && AllEqual(w, c)
    ensures WeightedChosen(us, len, w, Tolerance(|us|, None)) == Chosen(us, len, 1) <==> |us| != 4
  {
    EqualWeightsSameRank(us, len, w, c);
    assert |us| == 4 ==> PickCount(4, Tolerance(4, None)) == 2 && PickCount(4, 1) == 1;
  }

  /** The plain and the weighted sums, given as values so that the scaling is stated on plain reals. */
  lemma {:induction false} EqualWeightsScaleSums(us: seq<Vec>, len: nat, w: seq<real>, c: real, idxs: seq<nat>, k: nat)
    returns (plain: real, weighted: real, weights: real)
    requires SameLength(us, len) && InRange(idxs, |us|) && |us| == |w| && AllEqual(w, c) && k < len
    ensures plain == CoordSum(us, len, idxs, k)
    ensures weighted == WeightedCoordSum(us, len, w, idxs, k) && weights == WeightSum(w, idxs)
    ensures weighted == plain * c && weights == |idxs| as real * c
  {
    plain, weighted, weights := 0.0, 0.0, 0.0;
    if idxs != [] {
      var init, x := idxs[..|idxs| - 1], us[idxs[|idxs| - 1]][k];
      plain, weighted, weights := EqualWeightsScaleSums(us, len, w, c, init, k);
      assert (plain + x) * c == plain * c + x * c;
      assert (|init| as real + 1.0) * c == |init| as real * c + c;
      plain, weighted, weights := plain + x, weighted + x * c, weights + c;
    }
  }

  lemma EqualWeightsSameCoordinate(us: seq<Vec>, len: nat, w: seq<real>, c: real, idxs: seq<nat>, k: nat)
    requires SameLength(us, len) && InRange(idxs, |us|) && |us| == |w| && c > 0.0 && AllEqual(w, c) && k < len
    requires idxs != []
    ensures WeightSum(w, idxs) > 0.0
    ensures Ratio(WeightedCoordSum(us, len, w, idxs, k), WeightSum(w, idxs))
         == Ratio(CoordSum(us, len, idxs, k), |idxs| as real)
  {
    var plain, weighted, weights := EqualWeightsScaleSums(us, len, w, c, idxs, k);
    CancelFactor(plain, |idxs| as real, c, weighted, weights);
  }

  /** ... and then they return the same aggregate. */
  lemma EqualWeightsAggregateAlike(
    us: seq<Vec>, len: nat, w: seq<real>, c: real, idxs: seq<nat>, plain: Vec, weighted: Vec)
    requires SameLength(us, len) && InRange(idxs, |us|) && |us| == |w| && c > 0.0 && AllEqual(w, c) && idxs != []
    requires WeightSum(w, idxs) != 0.0
    requires IsAverage(plain, us, len, idxs) && IsWeightedAverage(weighted, us, len, w, idxs)
    ensures plain == weighted
  {
    forall k | 0 <= k < len ensures plain[k] == weighted[k] {
      EqualWeightsSameCoordinate(us, len, w, c, idxs, k);
    }
  }

  /**
    Both together: with equal weights and default tolerances the weighted variant refines the plain one, except for
    four updates.
   */
  lemma EqualWeightsRefinePlain(us: seq<Vec>, len: nat, w: seq<real>, c: real, plain: Vec, weighted: Vec)
    requires |us| >= 2 && |us| != 4 && SameLength(us, len) && |us| == |w| && c > 0.0 && AllEqual(w, c)
    requires IsAverage(plain, us, len, Chosen(us, len, 1))
    requires WeightSum(w, WeightedChosen(us, len, w, Tolerance(|us|, None))) != 0.0
    requires IsWeightedAverage(weighted, us, len, w, WeightedChosen(us, len, w, Tolerance(|us|, None)))
    ensures WeightedChosen(us, len, w, Tolerance(|us|, None)) == Chosen(us, len, 1)
    ensures plain == weighted
  {
    EqualWeightsSelectAlike(us, len, w, c);
    EqualWeightsAggregateAlike(us, len, w, c, Chosen(us, len, 1), plain, weighted);
  }

  lemma CancelFactor(a: real, d: real, c: real, ac: real, dc: real)
    requires d > 0.0 && c > 0.0 && ac == a * c && dc == d * c
    ensures dc > 0.0 && Ratio(ac, dc) == Ratio(a, d)
  {
    var q := a / d;
    assert a == q * d;
    assert ac == q * dc;
  }

  /** The plain mean of the chosen updates lies between their bounds, too. */
  lemma AverageInHull(us: seq<Vec>, len: nat, idxs: seq<nat>, k: nat, lo: real, hi: real)
    requires SameLength(us, len) && InRange(idxs, |us|) && k < len && idxs != []
    requires forall i :: i in idxs ==> lo <= us[i][k] <= hi
    ensures lo <= Ratio(CoordSum(us, len, idxs, k), |idxs| as real) <= hi
  {
    var ones := seq(|us|, _ => 1.0);
    WeightedAverageInHull(us, len, ones, idxs, k, lo, hi);
    EqualWeightsSameCoordinate(us, len, ones, 1.0, idxs, k);
  }
}
