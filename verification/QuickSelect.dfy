/** The in-place Hoare selection of agents/aggregator/server.js, on an array of reals. */
module QuickSelect {
  import opened OrderStatistics

  /** `after` is `before` with the cells from `left` to `right` (inclusive) permuted and all others untouched. */
  ghost predicate Rearranged(before: seq<real>, after: seq<real>, left: int, right: int) {
    && |after| == |before|
    && multiset(after) == multiset(before)
    && forall i :: 0 <= i < |before| && !(left <= i <= right) ==> after[i] == before[i]
  }

  /**
    Within [left, right], everything before position `k` is at most, and everything after it at least, the value
    there.
   */
  ghost predicate SelectedAt(s: seq<real>, k: int, left: int, right: int)
    requires 0 <= left <= k <= right < |s|
  {
    && (forall i :: left <= i <= k ==> s[i] <= s[k])
    && (forall j :: k <= j <= right ==> s[k] <= s[j])
  }

  /** A rearranged range holds the same multiset of values as before. */
  lemma SameInRange(before: seq<real>, after: seq<real>, left: int, right: int)
    requires Rearranged(before, after, left, right)
    requires 0 <= left <= right < |before|
    ensures multiset(after[left..right + 1]) == multiset(before[left..right + 1])
  {
    assert after[..left] == before[..left];
    assert after[right + 1..] == before[right + 1..];
    SplitMultiset(before, left, right);
    SplitMultiset(after, left, right);
    CancelOuter(multiset(before[..left]), multiset(before[right + 1..]),
                multiset(after[left..right + 1]), multiset(before[left..right + 1]));
  }

  lemma SplitMultiset(s: seq<real>, left: int, right: int)
    requires 0 <= left <= right < |s|
    ensures multiset(s) == multiset(s[..left]) + multiset(s[left..right + 1]) + multiset(s[right + 1..])
  {
    assert s == s[..left] + s[left..right + 1] + s[right + 1..];
  }

  lemma CancelOuter(l: multiset<real>, r: multiset<real>, a: multiset<real>, b: multiset<real>)
    requires l + a + r == l + b + r
    ensures a == b
  {
    assert a == (l + a + r) - l - r && b == (l + b + r) - l - r;
  }

  /** A rearranged cell holds a value that was somewhere in the rearranged range before. */
  lemma CameFrom(before: seq<real>, after: seq<real>, left: int, right: int, j: int) returns (i: int)
    requires Rearranged(before, after, left, right)
    requires 0 <= left <= j <= right < |before|
    ensures left <= i <= right && after[j] == before[i]
  {
    SameInRange(before, after, left, right);
    var k := InMultiset(after[left..right + 1], before[left..right + 1], j - left);
    i := left + k;
  }

  function Swapped(s: seq<real>, i: nat, j: nat): (r: seq<real>)
    requires i < |s| && j < |s|
    ensures |r| == |s|
  {
    s[i := s[j]][j := s[i]]
  }

  method Swap(arr: array<real>, i: nat, j: nat)
    requires i < arr.Length && j < arr.Length
    modifies arr
    ensures arr[..] == Swapped(old(arr[..]), i, j)
  {
    arr[i], arr[j] := arr[j], arr[i];
  }

  /** The state of the partition loop: cells before `store` are below the pivot, cells from there to `i` are not. */
  ghost predicate Parted(orig: seq<real>, s: seq<real>, left: nat, right: nat, store: nat, i: nat, pivot: real) {
    && left <= store <= i <= right < |s|
    && Rearranged(orig, s, left, right) && s[right] == pivot
    && (forall j :: left <= j < store ==> s[j] < pivot)
    && (forall j :: store <= j < i ==> pivot <= s[j])
  }

  lemma SwapRearranges(orig: seq<real>, s: seq<real>, left: nat, right: nat, i: nat, j: nat)
    requires Rearranged(orig, s, left, right)
    requires left <= i <= right < |s| && left <= j <= right
    ensures Rearranged(orig, Swapped(s, i, j), left, right)
  {
  }

  lemma SwapExtendsParted(orig: seq<real>, s: seq<real>, left: nat, right: nat, store: nat, i: nat, pivot: real)
    requires Parted(orig, s, left, right, store, i, pivot) && i < right && s[i] < pivot
    ensures Parted(orig, Swapped(s, store, i), left, right, store + 1, i + 1, pivot)
  {
    SwapRearranges(orig, s, left, right, store, i);
  }

  lemma SwapSelects(orig: seq<real>, s: seq<real>, left: nat, right: nat, store: nat, pivot: real)
    requires Parted(orig, s, left, right, store, right, pivot)
    ensures var t := Swapped(s, right, store);
      && Rearranged(orig, t, left, right) && SelectedAt(t, store, left, right) && t[store] == pivot
      && forall i :: left <= i < store ==> t[i] < t[store]
  {
    SwapRearranges(orig, s, left, right, right, store);
  }

  method Partition(arr: array<real>, left: nat, right: nat, pivotIndex: nat) returns (storeIndex: nat)
    requires left <= pivotIndex <= right < arr.Length
    modifies arr
    ensures Rearranged(old(arr[..]), arr[..], left, right)
    ensures left <= storeIndex <= right && arr[storeIndex] == old(arr[pivotIndex])
    ensures SelectedAt(arr[..], storeIndex, left, right)
    ensures forall i :: left <= i < storeIndex ==> arr[i] < arr[storeIndex]
  {
    ghost var orig := arr[..];
    var pivotValue := arr[pivotIndex];
    Swap(arr, pivotIndex, right);
    storeIndex := left;
    ghost var s := Swapped(orig, pivotIndex, right);
    SwapRearranges(orig, orig, left, right, pivotIndex, right);
    for i := left to right
      invariant s == arr[..]
      invariant Parted(orig, s, left, right, storeIndex, i, pivotValue)
    {
      if arr[i] < pivotValue {
        SwapExtendsParted(orig, s, left, right, storeIndex, i, pivotValue);
        Swap(arr, storeIndex, i);
        s := Swapped(s, storeIndex, i);
        storeIndex := storeIndex + 1;
      }
    }
    SwapSelects(orig, s, left, right, storeIndex, pivotValue);
    Swap(arr, right, storeIndex);
    assert arr[..] == Swapped(s, right, storeIndex);
  }

  /**
    Everything settled to the left of `left` is below, and everything settled to the right of `right` is above, the
    rest.
   */
  ghost predicate Settled(s: seq<real>, first: int, last: int, left: int, right: int)
    requires 0 <= first <= left && right <= last < |s|
  {
    && (forall i, j :: first <= i < left <= j <= last ==> s[i] <= s[j])
    && (forall i, j :: first <= i <= right < j <= last ==> s[i] <= s[j])
  }

  lemma PartitionKeepsSettled(before: seq<real>, after: seq<real>, first: int, last: int, left: int, right: int)
    requires 0 <= first <= left <= right <= last < |before|
    requires Settled(before, first, last, left, right)
    requires Rearranged(before, after, left, right)
    ensures Settled(after, first, last, left, right)
  {
    forall i, j | first <= i < left <= j <= last ensures after[i] <= after[j] {
      if j <= right {
        var j' := CameFrom(before, after, left, right, j);
      }
    }
    forall i, j | first <= i <= right < j <= last ensures after[i] <= after[j] {
      if left <= i {
        var i' := CameFrom(before, after, left, right, i);
      }
    }
  }

  /** The search interval shrinks to one side of the pivot's final place. */
  lemma NarrowSettled(s: seq<real>, first: int, last: int, left: int, right: int, p: int)
    requires 0 <= first <= left <= p <= right <= last < |s|
    requires Settled(s, first, last, left, right)
    requires SelectedAt(s, p, left, right)
    ensures Settled(s, first, last, left, p - 1) && Settled(s, first, last, p + 1, right)
    ensures SelectedAt(s, p, first, last)
  {
  }

  lemma RearrangedTrans(a: seq<real>, b: seq<real>, c: seq<real>, first: int, last: int, left: int, right: int)
    requires Rearranged(a, b, first, last) && Rearranged(b, c, left, right)
    requires first <= left && right <= last
    ensures Rearranged(a, c, first, last)
  {
  }

  /** A rank outside the interval is searched for in vain; the interval is then merely permuted. */
  method QuickSelect(arr: array<real>, k: int, first: nat, last: int)
    requires last < arr.Length
    modifies arr
    ensures Rearranged(old(arr[..]), arr[..], first, last)
    ensures first <= k <= last ==> SelectedAt(arr[..], k, first, last)
  {
    var left: nat := first;
    var right: int := last;
    while left <= right
      invariant first <= left && right <= last
      invariant Rearranged(old(arr[..]), arr[..], first, last)
      invariant first <= k <= last ==> left <= k <= right && Settled(arr[..], first, last, left, right)
      decreases right - left
    {
      ghost var before := arr[..];
      var pivotIndex := left + (right - left) / 2;
      var pivotFinal := Partition(arr, left, right, pivotIndex);
      RearrangedTrans(old(arr[..]), before, arr[..], first, last, left, right);
      if first <= k <= last {
        PartitionKeepsSettled(before, arr[..], first, last, left, right);
        NarrowSettled(arr[..], first, last, left, right, pivotFinal);
      }
      if pivotFinal == k {
        return;
      }
      if k < pivotFinal {
        right := pivotFinal as int - 1;
      } else {
        left := pivotFinal + 1;
      }
    }
  }
}
