/** Index selection by a stable ascending sort of scores, as the two Multi-Krum variants do it. */
module Ranking {

  /** Strict order of a stable ascending sort: by score, ties by original position. */
  predicate Before(scores: seq<real>, a: nat, b: nat)
    requires a < |scores| && b < |scores|
  {
    scores[a] < scores[b] || (scores[a] == scores[b] && a < b)
  }

  ghost predicate Indices(scores: seq<real>, r: seq<nat>) {
    forall p :: 0 <= p < |r| ==> r[p] < |scores|
  }

  ghost predicate Ascending(scores: seq<real>, r: seq<nat>)
    requires Indices(scores, r)
  {
    forall p, q :: 0 <= p < q < |r| ==> Before(scores, r[p], r[q])
  }

  /** What the language standard promises of a stable sort of the index list. */
  ghost predicate IsStableSort(scores: seq<real>, r: seq<nat>) {
    && |r| == |scores|
    && Indices(scores, r)
    && Ascending(scores, r)
    && forall i :: 0 <= i < |scores| ==> i in r
  }

  function InsertIndex(scores: seq<real>, r: seq<nat>, i: nat): (t: seq<nat>)
    requires i < |scores| && Indices(scores, r)
    ensures Indices(scores, t) && |t| == |r| + 1
  {
    if r == [] || scores[r[|r| - 1]] <= scores[i] then r + [i]
    else InsertIndex(scores, r[..|r| - 1], i) + [r[|r| - 1]]
  }

  function RankFirst(scores: seq<real>, m: nat): (r: seq<nat>)
    requires m <= |scores|
    ensures Indices(scores, r) && |r| == m
  {
    if m == 0 then [] else InsertIndex(scores, RankFirst(scores, m - 1), m - 1)
  }

  function Rank(scores: seq<real>): (r: seq<nat>)
    ensures Indices(scores, r) && |r| == |scores|
  {
    RankFirst(scores, |scores|)
  }

  lemma {:induction false} InsertIndexAscends(scores: seq<real>, r: seq<nat>, i: nat)
    requires i < |scores| && Indices(scores, r) && Ascending(scores, r)
    requires forall p :: 0 <= p < |r| ==> r[p] < i
    ensures Ascending(scores, InsertIndex(scores, r, i))
    ensures forall x :: x in InsertIndex(scores, r, i) <==> x in r || x == i
  {
    if r != [] && scores[i] < scores[r[|r| - 1]] {
      var init, last := r[..|r| - 1], r[|r| - 1];
      InsertIndexAscends(scores, init, i);
      assert r == init + [last];
      var t := InsertIndex(scores, init, i);
      forall p | 0 <= p < |t| ensures Before(scores, t[p], last) {
        assert t[p] in init || t[p] == i;
      }
    }
  }

  lemma {:induction false} RankFirstIsSorted(scores: seq<real>, m: nat)
    requires m <= |scores|
    ensures Ascending(scores, RankFirst(scores, m))
    ensures forall x :: x in RankFirst(scores, m) <==> 0 <= x < m
  {
    if m > 0 {
      RankFirstIsSorted(scores, m - 1);
      MembersBelow(RankFirst(scores, m - 1), m - 1);
      InsertIndexAscends(scores, RankFirst(scores, m - 1), m - 1);
    }
  }

  lemma MembersBelow(r: seq<nat>, m: nat)
    requires forall x :: x in r ==> x < m
    ensures forall p :: 0 <= p < |r| ==> r[p] < m
  {
    assert forall p :: 0 <= p < |r| ==> r[p] in r;
  }

  /** `Rank` is a stable sort, and the only one. */
  lemma RankIsTheStableSort(scores: seq<real>, r: seq<nat>)
    ensures IsStableSort(scores, r) <==> r == Rank(scores)
  {
    RankFirstIsSorted(scores, |scores|);
    if IsStableSort(scores, r) {
      forall x ensures x in r <==> x in Rank(scores) {
        if x in r {
          var p :| 0 <= p < |r| && r[p] == x;
        }
      }
      AscendingUnique(scores, r, Rank(scores));
    }
  }

  lemma {:induction false} AscendingUnique(scores: seq<real>, r: seq<nat>, t: seq<nat>)
    requires Indices(scores, r) && Indices(scores, t) && Ascending(scores, r) && Ascending(scores, t)
    requires |r| == |t| && forall x :: x in r <==> x in t
    ensures r == t
  {
    if r != [] {
      SameLastIndex(scores, r, t);
      DropLastIndex(scores, r);
      DropLastIndex(scores, t);
      var r', t' := r[..|r| - 1], t[..|t| - 1];
      forall x ensures x in r' <==> x in t' {
        assert x in r <==> x in t;
      }
      AscendingUnique(scores, r', t');
      assert r == r' + [r[|r| - 1]] && t == t' + [t[|t| - 1]];
    }
  }

  lemma DropLastIndex(scores: seq<real>, r: seq<nat>)
    requires Indices(scores, r) && Ascending(scores, r) && r != []
    ensures forall x :: x in r[..|r| - 1] <==> x in r && x != r[|r| - 1]
  {
    assert r == r[..|r| - 1] + [r[|r| - 1]];
  }

  lemma SameLastIndex(scores: seq<real>, r: seq<nat>, t: seq<nat>)
    requires Indices(scores, r) && Indices(scores, t) && Ascending(scores, r) && Ascending(scores, t)
    requires r != [] && t != [] && forall x :: x in r <==> x in t
    ensures r[|r| - 1] == t[|t| - 1]
  {
    assert r[|r| - 1] in t && t[|t| - 1] in r;
    var p :| 0 <= p < |r| && r[p] == t[|t| - 1];
    var q :| 0 <= q < |t| && t[q] == r[|r| - 1];
  }

  /** A front segment of the ranking holds the lowest scores: nothing left out scores lower than anything picked. */
  lemma FrontScoresLowest(scores: seq<real>, pick: nat, c: nat, u: nat)
    requires pick <= |scores| && u < |scores|
    requires c in Rank(scores)[..pick] && u !in Rank(scores)[..pick]
    ensures c < |scores| && scores[c] <= scores[u]
  {
    var r := Rank(scores);
    RankFirstIsSorted(scores, |scores|);
    assert u in r;
    var p :| 0 <= p < pick && r[p] == c;
    var q :| 0 <= q < |r| && r[q] == u;
    assert Before(scores, r[p], r[q]);
  }

  ghost predicate AlikeAt(s: seq<real>, t: seq<real>, i: nat, j: nat)
    requires |s| == |t| && i < |s| && j < |s|
  {
    s[i] <= s[j] <==> t[i] <= t[j]
  }

  ghost predicate Alike(s: seq<real>, t: seq<real>) {
    |s| == |t| && forall i, j :: 0 <= i < |s| && 0 <= j < |s| ==> AlikeAt(s, t, i, j)
  }

  /** Two score lists that compare alike are ranked alike. */
  lemma {:induction false} SameOrderSameRank(s: seq<real>, t: seq<real>, m: nat)
    requires Alike(s, t) && m <= |s|
    ensures RankFirst(s, m) == RankFirst(t, m)
  {
    if m > 0 {
      SameOrderSameRank(s, t, m - 1);
      SameOrderSameInsert(s, t, RankFirst(s, m - 1), m - 1);
    }
  }

  lemma {:induction false} SameOrderSameInsert(s: seq<real>, t: seq<real>, r: seq<nat>, i: nat)
    requires Alike(s, t) && i < |s| && Indices(s, r)
    ensures Indices(t, r) && InsertIndex(s, r, i) == InsertIndex(t, r, i)
  {
    if r != [] {
      var init, last := r[..|r| - 1], r[|r| - 1];
      SameOrderSameInsert(s, t, init, i);
      assert AlikeAt(s, t, last, i);
    }
  }
}
