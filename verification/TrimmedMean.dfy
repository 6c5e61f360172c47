/** The coordinate-wise trimmed mean of agents/aggregator/server.js and its Byzantine guarantee. */
module TrimmedMean {
  import opened OrderStatistics
  import QuickSelect

  /** The fraction the server trims at each end; no caller passes another one. */
  const DEFAULT_TRIM_FRACTION := 0.2

  ghost predicate Rectangular(updates: seq<seq<real>>, len: nat) {
    forall i :: 0 <= i < |updates| ==> |updates[i]| == len
  }

  function Column(updates: seq<seq<real>>, k: nat): (col: seq<real>)
    requires forall i :: 0 <= i < |updates| ==> k < |updates[i]|
    ensures |col| == |updates|
    ensures forall i :: 0 <= i < |updates| ==> col[i] == updates[i][k]
  {
    seq(|updates|, i requires 0 <= i < |updates| => updates[i][k])
  }

  function TrimCount(n: nat, trimFraction: real): int {
    (n as real * trimFraction).Floor
  }

  predicate Trims(n: nat, toTrim: int) {
    toTrim > 0 && toTrim * 2 < n
  }

  /** Reference: sort the column, drop `toTrim` values at each end, and average the rest. */
  ghost function TrimmedMeanOf(col: seq<real>, toTrim: int): real
    requires col != []
  {
    if Trims(|col|, toTrim) then
      Sum(Sort(col)[toTrim..|col| - toTrim]) / (|col| - 2 * toTrim) as real
    else
      Sum(col) / |col| as real
  }

  lemma MiddleSlice(whole: seq<real>, a: seq<real>, b: seq<real>, c: seq<real>, i: nat, j: nat)
    requires whole == a + (b + c) && i == |a| && j == |a| + |b|
    ensures |whole| == |a| + |b| + |c| && whole[i..j] == b
  {
  }

  lemma BelowConcat(a: seq<real>, b: seq<real>, c: seq<real>)
    requires Below(a, b) && Below(a, c)
    ensures Below(a, b + c)
  {
  }

  lemma SortOfThree(left: seq<real>, mid: seq<real>, right: seq<real>)
    requires Below(left, mid) && Below(left, right) && Below(mid, right)
    ensures Sort(left + (mid + right)) == Sort(left) + (Sort(mid) + Sort(right))
  {
    BelowConcat(left, mid, right);
    SplitSort(left, mid + right);
    SplitSort(mid, right);
  }

  /** The middle one of three ordered segments of a column holds exactly its ranks of the sorted column. */
  lemma MiddleOfSplit(left: seq<real>, mid: seq<real>, right: seq<real>, col: seq<real>, lo: nat, hi: nat)
    requires multiset(left + (mid + right)) == multiset(col)
    requires Below(left, mid) && Below(left, right) && Below(mid, right)
    requires lo == |left| && hi == |left| + |mid|
    ensures hi <= |col| && Sort(col)[lo..hi] == Sort(mid)
  {
    SortOfThree(left, mid, right);
    SortDeterminedByValues(left + (mid + right), col);
    MiddleSlice(Sort(col), Sort(left), Sort(mid), Sort(right), lo, hi);
  }

  lemma SelectionSplits(s: seq<real>, lo: nat, hi: nat)
    requires lo <= hi < |s|
    requires QuickSelect.SelectedAt(s, hi, lo, |s| - 1)
    requires forall i, j :: 0 <= i < lo <= j < |s| ==> s[i] <= s[j]
    ensures Below(s[..lo], s[lo..hi + 1]) && Below(s[..lo], s[hi + 1..]) && Below(s[lo..hi + 1], s[hi + 1..])
  {
    forall i, j | lo <= i <= hi < j < |s| ensures s[i] <= s[j] {
      assert s[i] <= s[hi] <= s[j];
    }
  }

  lemma ThreeParts(s: seq<real>, lo: nat, hi: nat)
    requires lo <= hi < |s|
    ensures s[lo..] == s[lo..hi + 1] + s[hi + 1..]
    ensures s[..lo] + (s[lo..hi + 1] + s[hi + 1..]) == s
  {
  }

  method SumRange(col: array<real>, from: nat, to: nat) returns (sum: real)
    requires from <= to <= col.Length
    ensures sum == Sum(col[from..to])
  {
    sum := 0.0;
    for j := from to to
      invariant sum == Sum(col[from..j])
    {
      assert col[from..j + 1][..j - from] == col[from..j];
      sum := sum + col[j];
    }
  }

  /** Two in-place selections split the column into three ordered segments: the ranks `lo` to `hi` are in place. */
  method SelectMiddle(col: array<real>, lo: nat, hi: nat)
    requires lo <= hi < col.Length
    modifies col
    ensures multiset(col[..]) == multiset(old(col[..]))
    ensures col[..] == col[..lo] + (col[lo..hi + 1] + col[hi + 1..])
    ensures Below(col[..lo], col[lo..hi + 1]) && Below(col[..lo], col[hi + 1..])
    ensures Below(col[lo..hi + 1], col[hi + 1..])
  {
    QuickSelect.QuickSelect(col, lo, 0, col.Length - 1);
    ghost var once := col[..];
    QuickSelect.QuickSelect(col, hi, lo, col.Length - 1);
    ghost var twice := col[..];
    SecondSelectKeepsFirst(once, twice, lo);
    SelectionSplits(twice, lo, hi);
    ThreeParts(twice, lo, hi);
    assert col[..lo] == twice[..lo] && col[lo..hi + 1] == twice[lo..hi + 1] && col[hi + 1..] == twice[hi + 1..];
  }

  /** The cells `lo` to `hi` then hold exactly the ranks `lo` to `hi` of the sorted column, and are added up. */
  method SumMiddle(col: array<real>, lo: nat, hi: nat) returns (sum: real)
    requires lo <= hi < col.Length
    modifies col
    ensures multiset(col[..]) == multiset(old(col[..]))
    ensures multiset(col[lo..hi + 1]) == multiset(Sort(old(col[..]))[lo..hi + 1])
    ensures sum == Sum(Sort(old(col[..]))[lo..hi + 1])
  {
    ghost var orig := col[..];
    SelectMiddle(col, lo, hi);
    MiddleOfSplit(col[..lo], col[lo..hi + 1], col[hi + 1..], orig, lo, hi + 1);
    SumPermutation(col[lo..hi + 1], Sort(col[lo..hi + 1]));
    sum := SumRange(col, lo, hi + 1);
  }

  /** One coordinate of the trimmed mean, on a private copy of the column. */
  method TrimColumn(col: array<real>, toTrim: int) returns (mean: real)
    requires col.Length > 0
    modifies col
    ensures mean == TrimmedMeanOf(old(col[..]), toTrim)
  {
    ghost var orig := col[..];
    var n := col.Length;
    var sum: real;
    if toTrim > 0 && toTrim * 2 < n {
      var lo, hi := toTrim, n - toTrim - 1;
      sum := SumMiddle(col, lo, hi);
      mean := sum / (hi - lo + 1) as real;
    } else {
      sum := SumRange(col, 0, n);
      assert col[0..n] == orig;
      mean := sum / n as real;
    }
  }

  lemma SecondSelectKeepsFirst(once: seq<real>, twice: seq<real>, lo: nat)
    requires lo < |once| && QuickSelect.SelectedAt(once, lo, 0, |once| - 1)
    requires QuickSelect.Rearranged(once, twice, lo, |once| - 1)
    ensures forall i, j :: 0 <= i < lo <= j < |twice| ==> twice[i] <= twice[j]
  {
    forall i, j | 0 <= i < lo <= j < |twice| ensures twice[i] <= twice[j] {
      var j' := QuickSelect.CameFrom(once, twice, lo, |once| - 1, j);
    }
  }

  method CopyColumn(updates: seq<seq<real>>, k: nat) returns (col: array<real>)
    requires forall i :: 0 <= i < |updates| ==> k < |updates[i]|
    ensures fresh(col) && col[..] == Column(updates, k)
  {
    col := new real[|updates|](i requires 0 <= i < |updates| => updates[i][k]);
  }

  method TrimCoordinate(updates: seq<seq<real>>, k: nat, toTrim: int) returns (mean: real)
    requires updates != []
    requires forall i :: 0 <= i < |updates| ==> k < |updates[i]|
    ensures mean == TrimmedMeanOf(Column(updates, k), toTrim)
  {
    var col := CopyColumn(updates, k);
    mean := TrimColumn(col, toTrim);
  }

  method TrimAll(updates: seq<seq<real>>, toTrim: int) returns (out: seq<real>)
    requires updates != [] && Rectangular(updates, |updates[0]|)
    ensures |out| == |updates[0]|
    ensures forall i :: 0 <= i < |out| ==> out[i] == TrimmedMeanOf(Column(updates, i), toTrim)
  {
    out := [];
    for i := 0 to |updates[0]|
      invariant |out| == i
      invariant forall k :: 0 <= k < i ==> out[k] == TrimmedMeanOf(Column(updates, k), toTrim)
    {
      var mean := TrimCoordinate(updates, i, toTrim);
      out := out + [mean];
    }
  }

  method TrimmedMean(updates: seq<seq<real>>, trimFraction: real := DEFAULT_TRIM_FRACTION) returns (out: seq<real>)
    requires updates != [] && Rectangular(updates, |updates[0]|)
    ensures |out| == |updates[0]|
    ensures forall i :: 0 <= i < |out| ==>
      out[i] == TrimmedMeanOf(Column(updates, i), TrimCount(|updates|, trimFraction))
  {
    out := TrimAll(updates, TrimCount(|updates|, trimFraction));
  }

  lemma DefaultTrimsOneFifth(n: nat)
    ensures TrimCount(n, DEFAULT_TRIM_FRACTION) == n / 5
    ensures Trims(n, n / 5) <==> n >= 5
  {
    assert n == 5 * (n / 5) + n % 5;
  }

  /**
    Byzantine resilience of one coordinate: if at most `toTrim` entries are outside the honest set and the
    trim leaves something over, the result lies between any bounds of the honest entries.
   */
  lemma ByzantineBound(col: seq<real>, toTrim: nat, honest: set<nat>, lo: real, hi: real)
    requires toTrim * 2 < |col| <= |honest| + toTrim
    requires forall i :: i in honest ==> i < |col| && lo <= col[i] <= hi
    ensures lo <= TrimmedMeanOf(col, toTrim) <= hi
  {
    var mid := Sort(col)[toTrim..|col| - toTrim];
    MiddleSumBounds(col, toTrim, honest, lo, hi, mid);
    MeanBounds(Sum(mid), |mid|, lo, hi);
    if toTrim == 0 {
      assert mid == Sort(col);
      SumPermutation(col, Sort(col));
    }
  }

  lemma MiddleSumBounds(col: seq<real>, toTrim: nat, honest: set<nat>, lo: real, hi: real, mid: seq<real>)
    requires toTrim * 2 < |col| <= |honest| + toTrim
    requires forall i :: i in honest ==> i < |col| && lo <= col[i] <= hi
    requires mid == Sort(col)[toTrim..|col| - toTrim]
    ensures |mid| as real * lo <= Sum(mid) <= |mid| as real * hi
  {
    forall j | 0 <= j < |mid| ensures lo <= mid[j] <= hi {
      MiddleRankIsBounded(col, toTrim, honest, lo, hi, toTrim + j);
    }
    SumBounds(mid, lo, hi);
  }

  lemma MeanBounds(sum: real, n: nat, lo: real, hi: real)
    requires n > 0 && n as real * lo <= sum <= n as real * hi
    ensures lo <= sum / n as real <= hi
  {
    var d := n as real;
    assert sum == d * (sum / d);
  }

  /** The server's guarantee: floor(n/5) arbitrary update vectors cannot push any coordinate out of the honest range. */
  lemma ByzantineResilience(updates: seq<seq<real>>, honest: set<nat>, k: nat, lo: real, hi: real)
    requires updates != [] && Rectangular(updates, |updates[0]|) && k < |updates[0]|
    requires forall i :: i in honest ==> i < |updates| && lo <= updates[i][k] <= hi
    requires |updates| - |honest| <= |updates| / 5
    ensures lo <= TrimmedMeanOf(Column(updates, k), TrimCount(|updates|, DEFAULT_TRIM_FRACTION)) <= hi
  {
    DefaultTrimsOneFifth(|updates|);
    ByzantineBound(Column(updates, k), |updates| / 5, honest, lo, hi);
  }

  function Copies(x: real, n: nat): (s: seq<real>)
    ensures |s| == n && forall i :: 0 <= i < n ==> s[i] == x
  {
    seq(n, _ => x)
  }

  lemma SortCopies(x: real, n: nat)
    ensures Sort(Copies(x, n)) == Copies(x, n)
  {
    SortedUnique(Sort(Copies(x, n)), Copies(x, n));
  }

  lemma SortedIsBounded(s: seq<real>, lo: real, hi: real)
    requires forall i :: 0 <= i < |s| ==> lo <= s[i] <= hi
    ensures forall i :: 0 <= i < |s| ==> lo <= Sort(s)[i] <= hi
  {
    forall i | 0 <= i < |s| ensures lo <= Sort(s)[i] <= hi {
      var j := InMultiset(Sort(s), s, i);
    }
  }

  /** Enough equal entries above all honest ones are all trimmed but one. */
  lemma OneSurvives(good: seq<real>, t: nat, x: real, hi: real)
    requires t <= |good| && hi <= x && forall i :: 0 <= i < |good| ==> good[i] <= hi
    ensures var col := good + Copies(x, t + 1);
      |Sort(col)| == |good| + t + 1 && Sort(col)[t..|col| - t] == Sort(good)[t..] + [x]
  {
    var bad := Copies(x, t + 1);
    SplitSort(good, bad);
    SortCopies(x, t + 1);
    assert (Sort(good) + bad)[t..|good| + 1] == Sort(good)[t..] + [x];
  }

  lemma SurvivorSum(rest: seq<real>, m: nat, x: real, lo: real, hi: real, left: seq<real>)
    requires |rest| == m && (forall i :: 0 <= i < m ==> lo <= rest[i] <= hi) && left == rest + [x]
    ensures Sum(left) >= m as real * lo + x
  {
    SumBounds(rest, lo, hi);
    SumSnoc(rest, x);
  }

  /** A value that lifts the mean of itself and `m` values not below `lo` above `hi`. */
  function LiftingValue(m: nat, lo: real, hi: real): real {
    (m + 1) as real * hi - m as real * lo + 1.0
  }

  lemma LiftingValueIsHigh(m: nat, lo: real, hi: real)
    requires lo <= hi
    ensures hi <= LiftingValue(m, lo, hi)
  {
    assert m as real * (hi - lo) >= 0.0;
  }

  lemma MeanIsLifted(m: nat, lo: real, hi: real, sum: real, d: real)
    requires sum >= m as real * lo + LiftingValue(m, lo, hi) && d == (m + 1) as real
    ensures sum / d > hi
  {
    var q := sum / d;
    assert q * d == sum && sum >= d * hi + 1.0;
    assert (q - hi) * d > 0.0;
  }

  /** The mean of what is left of the column, which is also the plain mean when nothing is trimmed. */
  lemma MeanOfLeft(col: seq<real>, toTrim: nat, left: seq<real>)
    requires 2 * toTrim < |col| && left == Sort(col)[toTrim..|col| - toTrim]
    ensures TrimmedMeanOf(col, toTrim) == Sum(left) / (|col| - 2 * toTrim) as real
  {
    if toTrim == 0 {
      assert left == Sort(col);
      SumPermutation(col, left);
    }
  }

  /**
    The bound is tight: whatever the honest entries, `toTrim` + 1 dishonest ones can push the trimmed mean above
    all of them.
   */
  lemma OneMoreIsNotTolerated(good: seq<real>, toTrim: nat, lo: real, hi: real) returns (bad: seq<real>)
    requires toTrim <= |good| && lo <= hi && forall i :: 0 <= i < |good| ==> lo <= good[i] <= hi
    ensures |bad| == toTrim + 1 && TrimmedMeanOf(good + bad, toTrim) > hi
  {
    var m := |good| - toTrim;
    var x := LiftingValue(m, lo, hi);
    bad := Copies(x, toTrim + 1);
    LiftingValueIsHigh(m, lo, hi);
    OneSurvives(good, toTrim, x, hi);
    SortedIsBounded(good, lo, hi);
    var left := Sort(good + bad)[toTrim..|good + bad| - toTrim];
    SurvivorSum(Sort(good)[toTrim..], m, x, lo, hi, left);
    MeanIsLifted(m, lo, hi, Sum(left), (m + 1) as real);
    MeanOfLeft(good + bad, toTrim, left);
  }

  function AllBut(first: real, n: nat): seq<real>
    requires n > 0
  {
    [first] + seq(n - 1, _ => 0.0)
  }

  lemma {:induction false} SumZeros(s: seq<real>)
    requires forall i :: 0 <= i < |s| ==> s[i] == 0.0
    ensures Sum(s) == 0.0
  {
    if s != [] {
      SumZeros(s[..|s| - 1]);
    }
  }

  /**
    The guarantee needs the guard: for every trim fraction that would leave nothing over, the code falls back
    to the plain mean, and one bad entry among zeros moves it.
   */
  lemma OverTrimmingIsNotResilient(n: nat, toTrim: nat)
    requires n >= 2 && n <= toTrim * 2
    ensures forall i :: 1 <= i < n ==> AllBut(1.0, n)[i] == 0.0
    ensures TrimmedMeanOf(AllBut(1.0, n), toTrim) > 0.0
  {
    var zeros := seq(n - 1, _ => 0.0);
    SumConcat([1.0], zeros);
    SumZeros(zeros);
    assert [1.0][..0] == [];
    assert Sum(AllBut(1.0, n)) == 1.0;
  }

  /** The order in which the updates were buffered does not matter. */
  lemma PermutationInvariant(col: seq<real>, col': seq<real>, toTrim: int)
    requires col != [] && multiset(col) == multiset(col')
    ensures |col'| == |col| && TrimmedMeanOf(col, toTrim) == TrimmedMeanOf(col', toTrim)
  {
    assert |multiset(col)| == |multiset(col')|;
    SortDeterminedByValues(col, col');
    SumPermutation(col, col');
  }

  lemma ColumnSplit(updates: seq<seq<real>>, len: nat, k: nat, p: nat)
    requires Rectangular(updates, len) && k < len && p < |updates|
    ensures Rectangular(RemoveAt(updates, p), len)
    ensures multiset(Column(updates, k)) == multiset(Column(RemoveAt(updates, p), k)) + multiset{updates[p][k]}
  {
    assert Column(RemoveAt(updates, p), k) == RemoveAt(Column(updates, k), p);
    RemoveOne(Column(updates, k), p);
  }

  /** Permuting the update vectors permutes every column. */
  lemma {:induction false} ColumnOfPermutation(updates: seq<seq<real>>, updates': seq<seq<real>>, len: nat, k: nat)
    requires multiset(updates) == multiset(updates')
    requires Rectangular(updates, len) && Rectangular(updates', len) && k < len
    ensures multiset(Column(updates, k)) == multiset(Column(updates', k))
  {
    assert |multiset(updates)| == |multiset(updates')|;
    if updates != [] {
      assert updates[0] in multiset(updates');
      var p :| 0 <= p < |updates'| && updates'[p] == updates[0];
      var rest, rest' := RemoveAt(updates, 0), RemoveAt(updates', p);
      RemoveOne(updates, 0);
      RemoveOne(updates', p);
      ColumnSplit(updates, len, k, 0);
      ColumnSplit(updates', len, k, p);
      ColumnOfPermutation(rest, rest', len, k);
    }
  }

  lemma TrimmedMeanIgnoresOrder(updates: seq<seq<real>>, updates': seq<seq<real>>, k: nat, trimFraction: real)
    requires updates != [] && updates' != [] && multiset(updates) == multiset(updates')
    requires Rectangular(updates, |updates[0]|) && Rectangular(updates', |updates[0]|) && k < |updates[0]|
    ensures |updates'| == |updates|
    ensures TrimmedMeanOf(Column(updates, k), TrimCount(|updates|, trimFraction))
         == TrimmedMeanOf(Column(updates', k), TrimCount(|updates'|, trimFraction))
  {
    assert |multiset(updates)| == |multiset(updates')|;
    ColumnOfPermutation(updates, updates', |updates[0]|, k);
    PermutationInvariant(Column(updates, k), Column(updates', k), TrimCount(|updates|, trimFraction));
  }
}
