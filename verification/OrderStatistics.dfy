/**
  Order statistics of a column of reals: sorting, sums, and the rank argument that bounds
  the middle of a sorted column by its honest entries.  This is the reference the in-place
  selection of `TrimmedMean` is proved against.
 */
module OrderStatistics {

  ghost predicate Sorted(s: seq<real>) {
    forall i, j :: 0 <= i <= j < |s| ==> s[i] <= s[j]
  }

  function Sum(s: seq<real>): real {
    if s == [] then 0.0 else Sum(s[..|s| - 1]) + s[|s| - 1]
  }

  lemma {:induction false} InsertSorted(x: real, s: seq<real>) returns (r: seq<real>)
    requires Sorted(s)
    ensures Sorted(r) && multiset(r) == multiset(s) + multiset{x}
    ensures |r| == |s| + 1 && r[|s|] == if s == [] || s[|s| - 1] <= x then x else s[|s| - 1]
  {
    if s == [] || s[|s| - 1] <= x {
      r := s + [x];
    } else {
      var init := InsertSorted(x, s[..|s| - 1]);
      DropLast(s);
      r := init + [s[|s| - 1]];
    }
  }

  ghost predicate IsSorting(s: seq<real>, r: seq<real>) {
    Sorted(r) && multiset(r) == multiset(s)
  }

  /** Insertion sort: every sequence has a sorted arrangement. */
  lemma {:induction false} SortingExists(s: seq<real>)
    ensures exists r :: IsSorting(s, r)
  {
    if s == [] {
      assert IsSorting(s, []);
    } else {
      SortingExists(s[..|s| - 1]);
      var r :| IsSorting(s[..|s| - 1], r);
      DropLast(s);
      var r' := InsertSorted(s[|s| - 1], r);
      assert IsSorting(s, r');
    }
  }

  /** The sorted arrangement; SortedUnique shows that there is only one. */
  ghost function Sort(s: seq<real>): (r: seq<real>)
    ensures IsSorting(s, r) && |r| == |s|
  {
    SortingExists(s);
    var r :| IsSorting(s, r);
    assert |multiset(r)| == |multiset(s)|;
    r
  }

  lemma DropLast(s: seq<real>)
    requires s != []
    ensures multiset(s) == multiset(s[..|s| - 1]) + multiset{s[|s| - 1]}
    ensures multiset(s[..|s| - 1]) == multiset(s) - multiset{s[|s| - 1]}
  {
    assert s == s[..|s| - 1] + [s[|s| - 1]];
  }

  lemma InMultiset(s: seq<real>, t: seq<real>, i: nat) returns (j: nat)
    requires multiset(s) == multiset(t) && i < |s|
    ensures j < |t| && t[j] == s[i]
  {
    assert s[i] in multiset(s);
    assert s[i] in multiset(t);
    j :| j < |t| && t[j] == s[i];
  }

  lemma SameLast(s: seq<real>, t: seq<real>)
    requires Sorted(s) && Sorted(t) && multiset(s) == multiset(t)
    ensures |s| == |t|
    ensures s != [] ==> s[|s| - 1] == t[|s| - 1]
  {
    assert |s| == |multiset(s)| == |multiset(t)| == |t|;
    if s != [] {
      var i := InMultiset(s, t, |s| - 1);
      var j := InMultiset(t, s, |s| - 1);
    }
  }

  /** A multiset has one sorted arrangement. */
  lemma {:induction false} SortedUnique(s: seq<real>, t: seq<real>)
    requires Sorted(s) && Sorted(t) && multiset(s) == multiset(t)
    ensures s == t
  {
    SameLast(s, t);
    if s != [] {
      DropLast(s);
      DropLast(t);
      SortedUnique(s[..|s| - 1], t[..|t| - 1]);
      SnocEqual(s, t);
    }
  }

  lemma SnocEqual(s: seq<real>, t: seq<real>)
    requires |s| == |t| > 0 && s[..|s| - 1] == t[..|t| - 1] && s[|s| - 1] == t[|t| - 1]
    ensures s == t
  {
    assert s == s[..|s| - 1] + [s[|s| - 1]] && t == t[..|t| - 1] + [t[|t| - 1]];
  }

  lemma {:induction false} SumConcat(s: seq<real>, t: seq<real>)
    ensures Sum(s + t) == Sum(s) + Sum(t)
  {
    if t == [] {
      assert s + t == s;
    } else {
      var m := |t| - 1;
      assert (s + t)[..|s| + m] == s + t[..m];
      SumConcat(s, t[..m]);
    }
  }

  lemma {:induction false} SumPermutation(s: seq<real>, t: seq<real>)
    requires multiset(s) == multiset(t)
    ensures Sum(s) == Sum(t)
  {
    assert |s| == |multiset(s)| == |multiset(t)| == |t|;
    if s != [] {
      var p := InMultiset(s, t, |s| - 1);
      DropLast(s);
      RemoveOne(t, p);
      SumWithout(t, p);
      SumPermutation(s[..|s| - 1], RemoveAt(t, p));
    }
  }

  function RemoveAt<T>(s: seq<T>, p: nat): (r: seq<T>)
    requires p < |s|
    ensures |r| == |s| - 1
  {
    s[..p] + s[p + 1..]
  }

  lemma SplitAround<T>(s: seq<T>, p: nat)
    requires p < |s|
    ensures s == s[..p] + [s[p]] + s[p + 1..]
  {
  }

  lemma RemoveOne<T>(s: seq<T>, p: nat)
    requires p < |s|
    ensures multiset(RemoveAt(s, p)) == multiset(s) - multiset{s[p]}
  {
    SplitAround(s, p);
  }

  lemma SumSnoc(s: seq<real>, x: real)
    ensures Sum(s + [x]) == Sum(s) + x
  {
    assert (s + [x])[..|s|] == s;
  }

  lemma SumAround(before: seq<real>, x: real, after: seq<real>, whole: seq<real>, rest: seq<real>)
    requires whole == before + [x] + after && rest == before + after
    ensures Sum(whole) == Sum(rest) + x
  {
    SumConcat(before + [x], after);
    SumConcat(before, after);
    SumSnoc(before, x);
  }

  lemma SumWithout(t: seq<real>, p: nat)
    requires p < |t|
    ensures Sum(t) == Sum(RemoveAt(t, p)) + t[p]
  {
    SplitAround(t, p);
    SumAround(t[..p], t[p], t[p + 1..], t, RemoveAt(t, p));
  }

  lemma SortDeterminedByValues(s: seq<real>, t: seq<real>)
    requires multiset(s) == multiset(t)
    ensures Sort(s) == Sort(t)
  {
    SortedUnique(Sort(s), Sort(t));
  }

  /** The mean of values that all lie in an interval lies in that interval. */
  lemma {:induction false} SumBounds(s: seq<real>, lo: real, hi: real)
    requires forall i :: 0 <= i < |s| ==> lo <= s[i] <= hi
    ensures |s| as real * lo <= Sum(s) <= |s| as real * hi
  {
    if s != [] {
      var m := |s| - 1;
      SumBounds(s[..m], lo, hi);
      assert |s| as real == m as real + 1.0;
    }
  }

  ghost predicate Below(a: seq<real>, b: seq<real>) {
    forall i, j :: 0 <= i < |a| && 0 <= j < |b| ==> a[i] <= b[j]
  }

  lemma StaysBelow(a: seq<real>, b: seq<real>, a': seq<real>, b': seq<real>)
    requires Below(a, b)
    requires multiset(a) == multiset(a') && multiset(b) == multiset(b')
    ensures Below(a', b')
  {
    forall i, j | 0 <= i < |a'| && 0 <= j < |b'| ensures a'[i] <= b'[j] {
      var i' := InMultiset(a', a, i);
      var j' := InMultiset(b', b, j);
    }
  }

  lemma SortedConcat(a: seq<real>, b: seq<real>)
    requires Sorted(a) && Sorted(b) && Below(a, b)
    ensures Sorted(a + b)
  {
  }

  /** Sorting a column that is already split into two ordered segments sorts each segment on its own. */
  lemma SplitSort(a: seq<real>, b: seq<real>)
    requires Below(a, b)
    ensures Sort(a + b) == Sort(a) + Sort(b)
  {
    StaysBelow(a, b, Sort(a), Sort(b));
    SortedConcat(Sort(a), Sort(b));
    SortedUnique(Sort(a + b), Sort(a) + Sort(b));
  }

  /** The honest entries of a column, as a multiset of the values they carry. */
  lemma {:induction false} HonestValues(col: seq<real>, honest: set<nat>, lo: real, hi: real)
    returns (h: multiset<real>)
    requires forall i :: i in honest ==> i < |col| && lo <= col[i] <= hi
    ensures h <= multiset(col) && |h| == |honest|
    ensures forall x :: x in h ==> lo <= x <= hi
  {
    if col == [] {
      assert forall i :: i !in honest;
      h := multiset{};
    } else {
      var m := |col| - 1;
      assert col == col[..m] + [col[m]];
      h := HonestValues(col[..m], honest - {m}, lo, hi);
      if m in honest {
        h := h + multiset{col[m]};
      } else {
        assert honest - {m} == honest;
      }
    }
  }

  lemma DisjointParts(a: multiset<real>, b: multiset<real>, whole: multiset<real>)
    requires a <= whole && b <= whole
    requires forall x :: x in a ==> x !in b
    ensures |a| + |b| <= |whole|
  {
    forall x ensures (a + b)[x] <= whole[x] {
      assert a[x] == 0 || b[x] == 0 by {
        if x in a {
        }
      }
    }
    assert whole == (a + b) + (whole - (a + b));
  }

  /**
    The counting argument for Byzantine inputs: with at most `t` dishonest entries, the ranks
    from `t` up to but not including `|col| - t` of the sorted column lie between the honest bounds.
   */
  lemma MiddleRankIsBounded(col: seq<real>, t: nat, honest: set<nat>, lo: real, hi: real, j: nat)
    requires forall i :: i in honest ==> i < |col| && lo <= col[i] <= hi
    requires |col| <= |honest| + t
    requires t <= j < |col| - t
    ensures lo <= Sort(col)[j] <= hi
  {
    var h := HonestValues(col, honest, lo, hi);
    RankIsBounded(Sort(col), t, h, lo, hi, j);
  }

  lemma SplitAt(s: seq<real>, k: nat)
    requires k <= |s|
    ensures multiset(s) == multiset(s[..k]) + multiset(s[k..])
  {
    assert s == s[..k] + s[k..];
  }

  lemma RankIsBounded(s: seq<real>, t: nat, h: multiset<real>, lo: real, hi: real, j: nat)
    requires Sorted(s) && h <= multiset(s) && forall x :: x in h ==> lo <= x <= hi
    requires |s| <= |h| + t && t <= j < |s| - t
    ensures lo <= s[j] <= hi
  {
    SplitAt(s, j);
    SplitAt(s, j + 1);
    Tail(s, s[j..], j);
    Head(s, s[..j + 1], j);
    if hi < s[j] {
      TooManyOutside(s, s[j..], s[..j], h, lo, hi);
      assert false;
    }
    if s[j] < lo {
      TooManyOutside(s, s[..j + 1], s[j + 1..], h, lo, hi);
      assert false;
    }
  }

  lemma Tail(s: seq<real>, part: seq<real>, j: nat)
    requires Sorted(s) && j < |s| && part == s[j..]
    ensures forall i :: 0 <= i < |part| ==> s[j] <= part[i]
  {
  }

  lemma Head(s: seq<real>, part: seq<real>, j: nat)
    requires Sorted(s) && j < |s| && part == s[..j + 1]
    ensures forall i :: 0 <= i < |part| ==> part[i] <= s[j]
  {
  }

  /** A part of `s` that misses the interval [lo, hi] altogether leaves room for the honest values. */
  lemma TooManyOutside(s: seq<real>, part: seq<real>, rest: seq<real>, h: multiset<real>, lo: real, hi: real)
    requires multiset(s) == multiset(part) + multiset(rest)
    requires h <= multiset(s) && forall x :: x in h ==> lo <= x <= hi
    requires forall i :: 0 <= i < |part| ==> !(lo <= part[i] <= hi)
    ensures |part| + |h| <= |s|
  {
    forall x | x in multiset(part) ensures x !in h {
      var i :| 0 <= i < |part| && part[i] == x;
    }
    DisjointParts(multiset(part), h, multiset(s));
  }
}
