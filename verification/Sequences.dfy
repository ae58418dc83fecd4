/** Facts about finite sequences that the list and table proofs share. */
module Sequences {

  ghost predicate Distinct<T>(s: seq<T>) {
    forall i, j :: 0 <= i < j < |s| ==> s[i] != s[j]
  }

  function Last<T>(s: seq<T>): T
    requires s != []
  {
    s[|s| - 1]
  }

  /** The first n elements, or all of them when there are fewer. */
  function Take<T>(s: seq<T>, n: nat): seq<T> {
    if |s| <= n then s else s[..n]
  }

  /** What Take leaves out. */
  function Drop<T>(s: seq<T>, n: nat): seq<T> {
    if |s| <= n then [] else s[n..]
  }

  /** Unlinks the first occurrence of x, as LIST_REMOVE does; a no-op when x is absent. */
  function Without<T(==)>(s: seq<T>, x: T): seq<T> {
    if s == [] then []
    else if s[0] == x then s[1..]
    else [s[0]] + Without(s[1..], x)
  }

  function Reverse<T>(s: seq<T>): seq<T> {
    if s == [] then [] else Reverse(s[1..]) + [s[0]]
  }

  function ToSet<T(==)>(s: seq<T>): set<T> {
    set x | x in s
  }

  lemma {:induction false} WithoutAbsent<T>(s: seq<T>, x: T)
    requires x !in s
    ensures Without(s, x) == s
  {
    if s != [] { WithoutAbsent(s[1..], x); }
  }

  lemma {:induction false} WithoutSplit<T>(a: seq<T>, x: T, b: seq<T>)
    requires x !in a
    ensures Without(a + [x] + b, x) == a + b
  {
    var s := a + [x] + b;
    if a == [] {
      assert s == [x] + b;
      assert a + b == b;
    } else {
      assert s[1..] == a[1..] + [x] + b;
      WithoutSplit(a[1..], x, b);
      assert [a[0]] + (a[1..] + b) == a + b;
    }
  }

  lemma FirstOccurrence<T>(s: seq<T>, x: T) returns (i: nat)
    requires x in s
    ensures i < |s| && s[i] == x && x !in s[..i]
    ensures s == s[..i] + [x] + s[i + 1..]
  {
    i := 0;
    while s[i] != x
      invariant i < |s| && x !in s[..i] && x in s[i..]
      decreases |s| - i
    {
      i := i + 1;
    }
  }

  lemma WithoutInFirst<T>(a: seq<T>, b: seq<T>, x: T)
    requires x in a
    ensures Without(a + b, x) == Without(a, x) + b
  {
    var i := FirstOccurrence(a, x);
    WithoutSplit(a[..i], x, a[i + 1..]);
    WithoutSplit(a[..i], x, a[i + 1..] + b);
    assert a[..i] + [x] + (a[i + 1..] + b) == a + b;
    assert a[..i] + (a[i + 1..] + b) == a[..i] + a[i + 1..] + b;
  }

  lemma {:induction false} WithoutInSecond<T>(a: seq<T>, b: seq<T>, x: T)
    requires x !in a
    ensures Without(a + b, x) == a + Without(b, x)
  {
    if a == [] {
      assert a + b == b;
    } else {
      assert (a + b)[1..] == a[1..] + b;
      WithoutInSecond(a[1..], b, x);
    }
  }

  lemma {:induction false} WithoutDistinct<T>(s: seq<T>, x: T)
    requires Distinct(s)
    ensures Distinct(Without(s, x))
    ensures forall y :: y in Without(s, x) <==> y in s && y != x
    ensures |Without(s, x)| == |s| - (if x in s then 1 else 0)
  {
    if s != [] {
      var (h, t) := (s[0], s[1..]);
      DistinctTail(s);
      assert forall y :: y in s <==> y == h || y in t;
      if h != x {
        hide Distinct;
        WithoutDistinct(t, x);
        DistinctHead(h, Without(t, x));
        assert forall y :: y in [h] + Without(t, x) <==> y == h || y in Without(t, x);
      }
    }
  }

  lemma DistinctTail<T>(s: seq<T>)
    requires Distinct(s) && s != []
    ensures Distinct(s[1..]) && s[0] !in s[1..]
  {
  }

  lemma DistinctHead<T>(x: T, s: seq<T>)
    requires Distinct(s) && x !in s
    ensures Distinct([x] + s)
  {
  }

  lemma {:induction false} ReverseAt<T>(s: seq<T>)
    ensures |Reverse(s)| == |s| && forall i :: 0 <= i < |s| ==> Reverse(s)[i] == s[|s| - 1 - i]
  {
    if s != [] { ReverseAt(s[1..]); }
  }

  lemma {:induction false} ReverseMembers<T>(s: seq<T>)
    ensures |Reverse(s)| == |s|
    ensures forall x :: x in Reverse(s) <==> x in s
  {
    if s != [] {
      ReverseMembers(s[1..]);
      assert s == [s[0]] + s[1..];
    }
  }

  /** A distinct sequence drawn from a set is no longer than the set, and as long only if it covers it. */
  lemma {:induction false} DistinctSize<T>(s: seq<T>, u: set<T>)
    requires Distinct(s) && forall x :: x in s ==> x in u
    ensures |s| <= |u|
    ensures |s| == |u| ==> forall x :: x in u ==> x in s
  {
    if s != [] {
      var r := s[..|s| - 1];
      var x := Last(s);
      assert s == r + [x];
      DistinctSize(r, u - {x});
    }
  }

  lemma DistinctToSet<T>(s: seq<T>)
    requires Distinct(s)
    ensures |ToSet(s)| == |s|
    decreases |s|
  {
    if s != [] {
      var r := s[..|s| - 1];
      assert s == r + [Last(s)];
      assert ToSet(s) == ToSet(r) + {Last(s)};
      DistinctToSet(r);
    }
  }

  lemma {:induction false} ReverseMore<T>(s: seq<T>, x: T)
    ensures Reverse(s + [x]) == [x] + Reverse(s)
  {
    if s == [] {
      assert [] + [x] == [x] && [x][1..] == [];
    } else {
      assert (s + [x])[1..] == s[1..] + [x];
      ReverseMore(s[1..], x);
    }
  }
}
