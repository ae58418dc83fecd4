/**
 * The in-place quicksort of user/arrayOperations_quicksort.c: any pivot, and a partition loop whose
 * two indices stay put after an exchange.
 */
module QuickSort {

  /** t is s with the elements of [lo, hi) rearranged and all others in place. */
  ghost predicate Rearranged(s: seq<int>, t: seq<int>, lo: nat, hi: nat) {
    && lo <= hi <= |s| == |t|
    && (forall k :: 0 <= k < lo ==> t[k] == s[k])
    && (forall k :: hi <= k < |s| ==> t[k] == s[k])
    && multiset(t[lo..hi]) == multiset(s[lo..hi])
  }

  ghost predicate Sorted(s: seq<int>, lo: int, hi: int)
    requires 0 <= lo && hi <= |s|
  {
    forall j, k :: lo <= j < k < hi ==> s[j] <= s[k]
  }

  lemma RearrangedSame(s: seq<int>, lo: nat, hi: nat)
    requires lo <= hi <= |s|
    ensures Rearranged(s, s, lo, hi)
  {
  }

  lemma RearrangedTransitive(s: seq<int>, t: seq<int>, u: seq<int>, lo: nat, hi: nat)
    requires Rearranged(s, t, lo, hi) && Rearranged(t, u, lo, hi)
    ensures Rearranged(s, u, lo, hi)
  {
  }

  /** A rearrangement of a part is one of the whole. */
  lemma RearrangedWithin(s: seq<int>, t: seq<int>, lo: nat, hi: nat, from: nat, to: nat)
    requires Rearranged(s, t, lo, hi) && from <= lo && hi <= to <= |s|
    ensures Rearranged(s, t, from, to)
  {
    assert s[from..to] == s[from..lo] + s[lo..hi] + s[hi..to];
    assert t[from..to] == t[from..lo] + t[lo..hi] + t[hi..to];
    assert s[from..lo] == t[from..lo] && s[hi..to] == t[hi..to];
  }

  lemma SwapRearranges(s: seq<int>, i: nat, j: nat, lo: nat, hi: nat)
    requires lo <= i < hi <= |s| && lo <= j < hi
    ensures Rearranged(s, Swapped(s, i, j), lo, hi)
  {
    var t := Swapped(s, i, j);
    var part := s[lo..hi];
    assert t[lo..hi] == part[i - lo := part[j - lo]][j - lo := part[i - lo]];
  }

  /** Rearranging keeps the bounds of the part. */
  lemma BoundsKept(s: seq<int>, t: seq<int>, lo: nat, hi: nat, low: int, high: int)
    requires Rearranged(s, t, lo, hi)
    ensures (forall k :: lo <= k < hi ==> s[k] <= high) ==> forall k :: lo <= k < hi ==> t[k] <= high
    ensures (forall k :: lo <= k < hi ==> s[k] >= low) ==> forall k :: lo <= k < hi ==> t[k] >= low
  {
    forall k | lo <= k < hi ensures exists m :: lo <= m < hi && s[m] == t[k] {
      assert t[k] in multiset(t[lo..hi]);
      assert t[k] in s[lo..hi];
      var m :| 0 <= m < hi - lo && s[lo..hi][m] == t[k];
      assert s[lo + m] == t[k];
    }
  }

  method Swap(a: array<int>, first: nat, second: nat)
    requires first < a.Length && second < a.Length
    modifies a
    ensures a[..] == Swapped(old(a[..]), first, second)
  {
    var tmp := a[first];
    a[first] := a[second];
    a[second] := tmp;
  }

  function Swapped(s: seq<int>, i: nat, j: nat): seq<int>
    requires i < |s| && j < |s|
  {
    s[i := s[j]][j := s[i]]
  }

  lemma SwappedAt(s: seq<int>, i: nat, j: nat)
    requires i < |s| && j < |s|
    ensures |Swapped(s, i, j)| == |s| && Swapped(s, i, j)[i] == s[j] && Swapped(s, i, j)[j] == s[i]
  {
  }

  ghost predicate Below(s: seq<int>, lo: nat, hi: nat, p: int) {
    hi <= |s| && forall k :: lo <= k < hi ==> s[k] <= p
  }

  ghost predicate Above(s: seq<int>, lo: nat, hi: nat, p: int) {
    hi <= |s| && forall k :: lo <= k < hi ==> s[k] >= p
  }

  /** Around s[j]: nothing before it is greater, nothing up to i differs, nothing from i on is less. */
  ghost predicate Split(s: seq<int>, lo: nat, j: nat, i: nat, hi: nat) {
    && lo <= j < i <= hi <= |s|
    && Below(s, lo, j, s[j]) && Above(s, i, hi, s[j])
    && forall k :: j < k < i ==> s[k] == s[j]
  }

  lemma ExchangeKeeps(s: seq<int>, lo: nat, i: nat, j: nat, hi: nat, p: int)
    requires lo < i < j < hi <= |s| && s[i] > p > s[j] && s[lo] == p
    requires Below(s, lo, i, p) && Above(s, j + 1, hi, p)
    ensures var t := Swapped(s, i, j);
      Below(t, lo, i, p) && Above(t, j + 1, hi, p) && Rearranged(s, t, lo, hi) && t[i] < p < t[j] && t[lo] == p
  {
    SwapRearranges(s, i, j, lo, hi);
    hide Rearranged;
  }

  lemma PivotPlaced(s0: seq<int>, s: seq<int>, lo: nat, j: nat, i: nat, hi: nat)
    requires lo <= j < i <= hi <= |s| && Below(s, lo, i, s[lo]) && Above(s, j + 1, hi, s[lo])
    requires Rearranged(s0, s, lo, hi)
    ensures Split(Swapped(s, lo, j), lo, j, i, hi) && Rearranged(s0, Swapped(s, lo, j), lo, hi)
  {
    SwapRearranges(s, lo, j, lo, hi);
    RearrangedTransitive(s0, s, Swapped(s, lo, j), lo, hi);
    hide Rearranged;
  }

  /** The first of the two inner loops. */
  method ScanUp(a: array<int>, lo: int, hi: int, from: int) returns (i: int)
    requires 0 <= lo < from <= hi + 1 <= a.Length && Below(a[..], lo, from, a[lo])
    ensures from <= i <= hi + 1 && Below(a[..], lo, i, a[lo]) && (i <= hi ==> a[i] > a[lo])
  {
    i := from;
    while i <= hi && a[lo] >= a[i]
      invariant from <= i <= hi + 1 && Below(a[..], lo, i, a[lo])
    {
      i := i + 1;
    }
  }

  /** The second. */
  method ScanDown(a: array<int>, lo: int, hi: int, from: int) returns (j: int)
    requires 0 <= lo <= from <= hi < a.Length && Above(a[..], from + 1, hi + 1, a[lo])
    ensures lo <= j <= from && Above(a[..], j + 1, hi + 1, a[lo]) && (j > lo ==> a[j] < a[lo])
  {
    j := from;
    while j > lo && a[lo] <= a[j]
      invariant lo <= j <= from && Above(a[..], j + 1, hi + 1, a[lo])
    {
      j := j - 1;
    }
  }

  /** One round of the outer loop: scan from both sides and exchange what stopped the scans. */
  method Round(a: array<int>, lo: int, hi: int, i0: int, j0: int) returns (i: int, j: int)
    requires 0 <= lo < i0 <= j0 <= hi < a.Length
    requires Below(a[..], lo, i0, a[lo]) && Above(a[..], j0 + 1, hi + 1, a[lo])
    modifies a
    ensures i0 <= i <= hi + 1 && lo <= j <= j0 && a[lo] == old(a[lo])
    ensures Below(a[..], lo, i, a[lo]) && Above(a[..], j + 1, hi + 1, a[lo])
    ensures Rearranged(old(a[..]), a[..], lo, hi + 1)
    ensures old(a[i0]) <= a[lo] ==> i0 < i
    ensures i <= j ==> a[i] < a[lo]
  {
    i := ScanUp(a, lo, hi, i0);
    j := ScanDown(a, lo, hi, j0);
    RearrangedSame(a[..], lo, hi + 1);
    hide Below, Above, Rearranged;
    if i <= j {
      ExchangeKeeps(a[..], lo, i, j, hi + 1, a[lo]);
      Swap(a, i, j);
    }
  }

  /** The outer loop. */
  method Rounds(a: array<int>, lo: int, hi: int) returns (i: int, j: int)
    requires 0 <= lo < hi < a.Length
    modifies a
    ensures lo <= j < i <= hi + 1 && a[lo] == old(a[lo])
    ensures Below(a[..], lo, i, a[lo]) && Above(a[..], j + 1, hi + 1, a[lo])
    ensures Rearranged(old(a[..]), a[..], lo, hi + 1)
  {
    i, j := lo + 1, hi;
    ghost var s0 := a[..];
    var pivot := a[lo];
    RearrangedSame(s0, lo, hi + 1);
    assert Below(s0, lo, i, pivot) && Above(s0, j + 1, hi + 1, pivot);
    hide Rearranged, Below, Above;
    while i <= j
      invariant lo < i <= hi + 1 && lo <= j <= hi && a[lo] == pivot
      invariant Rearranged(s0, a[..], lo, hi + 1)
      invariant Below(a[..], lo, i, pivot) && Above(a[..], j + 1, hi + 1, pivot)
      decreases j - i, if i <= hi && a[i] > pivot then 1 else 0
    {
      ghost var s := a[..];
      i, j := Round(a, lo, hi, i, j);
      RearrangedTransitive(s0, s, a[..], lo, hi + 1);
    }
  }

  /** Splits [lo, hi] around the pivot at lo; what lies strictly between j and i equals the pivot. */
  method Partition(a: array<int>, lo: int, hi: int) returns (i: int, j: int)
    requires 0 <= lo < hi < a.Length
    modifies a
    ensures 0 <= j < i && Split(a[..], lo, j, i, hi + 1) && a[j] == old(a[lo])
    ensures Rearranged(old(a[..]), a[..], lo, hi + 1)
  {
    ghost var s0 := a[..];
    hide Rearranged, Split, Below, Above, Swapped;
    i, j := Rounds(a, lo, hi);
    PivotPlaced(s0, a[..], lo, j, i, hi + 1);
    SwappedAt(a[..], lo, j);
    Swap(a, lo, j);
  }

  /** Any index of the part may be the pivot. */
  method Divide(a: array<int>, start: int, final: int) returns (i: int, j: int)
    requires 0 <= start < final < a.Length
    modifies a
    ensures start <= j < i <= final + 1 && Split(a[..], start, j, i, final + 1)
    ensures Rearranged(old(a[..]), a[..], start, final + 1)
  {
    hide Rearranged, Below, Above, Swapped;
    var pivot :| start <= pivot <= final;
    ghost var s := a[..];
    Swap(a, start, pivot);
    ghost var t := a[..];
    SwapRearranges(s, start, pivot, start, final + 1);
    i, j := Partition(a, start, final);
    RearrangedTransitive(s, t, a[..], start, final + 1);
  }

  method QSort(a: array<int>, start: int, final: int)
    requires 0 <= start <= final + 1 <= a.Length
    modifies a
    ensures Rearranged(old(a[..]), a[..], start, final + 1)
    ensures Sorted(a[..], start, final + 1)
    decreases final - start
  {
    ghost var s := a[..];
    if start >= final {
      RearrangedSame(s, start, final + 1);
    } else {
      hide Rearranged, Sorted, Split;
      var i, j := Divide(a, start, final);
      ghost var s1 := a[..];
      QSort(a, start, j - 1);
      ghost var s2 := a[..];
      QSort(a, i, final);
      Joined(s, s1, s2, a[..], start, j, i, final + 1);
    }
  }

  lemma Joined(s: seq<int>, s1: seq<int>, s2: seq<int>, s3: seq<int>, lo: nat, j: nat, i: nat, hi: nat)
    requires Split(s1, lo, j, i, hi) && Rearranged(s, s1, lo, hi) && Rearranged(s1, s2, lo, j) && Rearranged(s2, s3, i, hi)
    requires Sorted(s2, lo, j) && Sorted(s3, i, hi)
    ensures Rearranged(s, s3, lo, hi) && Sorted(s3, lo, hi)
  {
    JoinedSorted(s1, s2, s3, lo, j, i, hi);
    RearrangedWithin(s1, s2, lo, j, lo, hi);
    RearrangedWithin(s2, s3, i, hi, lo, hi);
    hide Rearranged, Sorted;
    RearrangedTransitive(s, s1, s2, lo, hi);
    RearrangedTransitive(s, s2, s3, lo, hi);
  }

  lemma JoinedSorted(s1: seq<int>, s2: seq<int>, s3: seq<int>, lo: nat, j: nat, i: nat, hi: nat)
    requires Split(s1, lo, j, i, hi) && Rearranged(s1, s2, lo, j) && Rearranged(s2, s3, i, hi)
    requires Sorted(s2, lo, j) && Sorted(s3, i, hi)
    ensures Sorted(s3, lo, hi)
  {
    BoundsKept(s1, s2, lo, j, 0, s1[j]);
    BoundsKept(s2, s3, i, hi, s1[j], 0);
  }

  method QuickSort(a: array<int>)
    modifies a
    ensures multiset(a[..]) == multiset(old(a[..]))
    ensures Sorted(a[..], 0, a.Length)
  {
    QSort(a, 0, a.Length - 1);
    assert a[..] == a[0..a.Length];
    assert old(a[..]) == old(a[..])[0..a.Length];
  }

  /** A sorted arrangement is unique, so every choice of pivots gives the same array. */
  lemma {:induction false} SortedUnique(s: seq<int>, t: seq<int>)
    requires multiset(s) == multiset(t) && Sorted(s, 0, |s|) && Sorted(t, 0, |t|)
    ensures s == t
  {
    if s == [] {
      assert |t| == |multiset(t)| == |multiset(s)| == 0;
    } else {
      assert s[0] in multiset(t) && t != [];
      FirstIsLeast(s, t);
      FirstIsLeast(t, s);
      assert s == [s[0]] + s[1..] && t == [t[0]] + t[1..];
      assert multiset(s[1..]) == multiset(s) - multiset{s[0]};
      assert multiset(t[1..]) == multiset(t) - multiset{t[0]};
      SortedUnique(s[1..], t[1..]);
    }
  }

  lemma FirstIsLeast(s: seq<int>, t: seq<int>)
    requires s != [] && t != [] && multiset(s) == multiset(t) && Sorted(s, 0, |s|)
    ensures s[0] <= t[0]
  {
    assert t[0] in multiset(t);
    assert t[0] in s;
  }
}
