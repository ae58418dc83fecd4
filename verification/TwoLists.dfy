/**
 * The page lists of one environment under the two-list LRU approximation: ActiveList (FIFO of
 * PRESENT pages) and SecondList (LRU of mapped pages without PRESENT), most recent page first.
 * The specification keeps them as ONE list, cut into the two.
 */
module TwoLists {
  import opened Sequences

  type Page = nat  // a virtual page number: address / PAGE_SIZE

  datatype Lists = Lists(activeMax: nat, secondMax: nat, active: seq<Page>, second: seq<Page>) {
    function Capacity(): nat { activeMax + secondMax }

    function Resident(): seq<Page> { active + second }

    predicate Full() { |active| + |second| == Capacity() }

    ghost predicate Valid() {
      && 1 <= activeMax
      && |active| <= activeMax
      && |second| <= secondMax
      && (|active| < activeMax ==> second == [])
      && Distinct(Resident())
    }

    /** The lists whose concatenation is xs. */
    function Holding(xs: seq<Page>): Lists {
      this.(active := Take(xs, activeMax), second := Drop(xs, activeMax))
    }
  }

  function MoveToFront(p: Page, xs: seq<Page>): seq<Page> {
    [p] + Without(xs, p)
  }

  /** What a page fault does to the lists. */
  function Faulted(l: Lists, p: Page): Lists {
    l.Holding(Take(MoveToFront(p, l.Resident()), l.Capacity()))
  }

  /** What releasing a page does to the lists. */
  function Unlisted(l: Lists, p: Page): Lists {
    l.Holding(Without(l.Resident(), p))
  }

  lemma HoldingIsResident(l: Lists, xs: seq<Page>)
    requires 1 <= l.activeMax && |xs| <= l.Capacity() && Distinct(xs)
    ensures l.Holding(xs).Resident() == xs
    ensures l.Holding(xs).Valid()
  {
    if |xs| > l.activeMax { assert xs == xs[..l.activeMax] + xs[l.activeMax..]; }
  }

  /** A valid pair of lists is determined by its concatenation. */
  /**
   * A fault on a page that is not active is move-to-front of that page on the concatenation, cut
   * to the working set size; the result is valid again and the page leads ActiveList.
   */
  lemma FaultedIsMoveToFront(l: Lists, p: Page)
    requires l.Valid()
    ensures Faulted(l, p).Valid()
    ensures Faulted(l, p).Resident() == Take(MoveToFront(p, l.Resident()), l.Capacity())
    ensures Faulted(l, p).active != [] && Faulted(l, p).active[0] == p
  {
    WithoutDistinct(l.Resident(), p);
    var m := MoveToFront(p, l.Resident());
    assert Distinct(m);
    HoldingIsResident(l, Take(m, l.Capacity()));
  }

  lemma UnlistedDeletes(l: Lists, p: Page)
    requires l.Valid()
    ensures Unlisted(l, p).Valid()
    ensures Unlisted(l, p).Resident() == Without(l.Resident(), p)
  {
    WithoutDistinct(l.Resident(), p);
    HoldingIsResident(l, Without(l.Resident(), p));
  }

  // ----- the shape of a fault, case by case, as the handler sees it -----

  lemma PlacementShape(l: Lists, p: Page)
    requires l.Valid() && |l.active| < l.activeMax && p !in l.Resident()
    ensures Faulted(l, p) == l.(active := [p] + l.active)
  {
    WithoutAbsent(l.Resident(), p);
    assert l.Resident() == l.active;
  }

  lemma PromotionShape(l: Lists, p: Page)
    requires l.Valid() && |l.active| == l.activeMax && p in l.second && p !in l.active
    ensures Faulted(l, p) == l.(active := [p] + l.active[..|l.active| - 1],
                                second := [Last(l.active)] + Without(l.second, p))
  {
    WithoutInSecond(l.active, l.second, p);
    assert Distinct(l.second) by {
      forall i, j | 0 <= i < j < |l.second| ensures l.second[i] != l.second[j] {
        assert l.Resident()[|l.active| + i] != l.Resident()[|l.active| + j];
      }
    }
    WithoutDistinct(l.second, p);
    var m := [p] + (l.active + Without(l.second, p));
    assert m == ([p] + l.active[..|l.active| - 1]) + ([Last(l.active)] + Without(l.second, p));
  }

  lemma DemotionShape(l: Lists, p: Page)
    requires l.Valid() && |l.active| == l.activeMax && p !in l.Resident()
    ensures Faulted(l, p) == l.(active := [p] + l.active[..|l.active| - 1],
                                second := Take([Last(l.active)] + l.second, l.secondMax))
  {
    WithoutAbsent(l.Resident(), p);
    var a, b := [p] + l.active[..|l.active| - 1], [Last(l.active)] + l.second;
    assert [p] + (l.active + l.second) == a + b;
    TakeOfSum(a, b, l.secondMax);
  }

  lemma TakeOfSum(a: seq<Page>, b: seq<Page>, n: nat)
    ensures Take(Take(a + b, |a| + n), |a|) == a
    ensures Drop(Take(a + b, |a| + n), |a|) == Take(b, n)
  {
  }

  lemma Separate(l: Lists)
    requires l.Valid()
    ensures Distinct(l.active) && Distinct(l.second)
    ensures forall q :: !(q in l.active && q in l.second)
  {
    forall i, j | 0 <= i < j < |l.active| ensures l.active[i] != l.active[j] {
      assert l.Resident()[i] != l.Resident()[j];
    }
    forall i, j | 0 <= i < j < |l.second| ensures l.second[i] != l.second[j] {
      assert l.Resident()[|l.active| + i] != l.Resident()[|l.active| + j];
    }
    forall q | q in l.active ensures q !in l.second {
      var i :| 0 <= i < |l.active| && l.active[i] == q;
      forall j | 0 <= j < |l.second| ensures l.second[j] != q {
        assert l.Resident()[i] != l.Resident()[|l.active| + j];
      }
    }
  }

  lemma ButLast<T>(s: seq<T>)
    requires Distinct(s) && s != []
    ensures forall q :: q in s[..|s| - 1] <==> q in s && q != Last(s)
  {
    assert s == s[..|s| - 1] + [Last(s)];
  }

  /** Which pages a fault on an absent page leaves active and which it leaves second. */
  lemma FaultMembers(l: Lists, p: Page)
    requires l.Valid() && p !in l.Resident()
    ensures forall q :: q in Faulted(l, p).active <==>
              q == p || (q in l.active && !(|l.active| == l.activeMax && q == Last(l.active)))
    ensures forall q :: q in Faulted(l, p).second <==>
              || (|l.active| == l.activeMax && l.secondMax > 0 && q == Last(l.active))
              || (q in l.second && !(l.Full() && q == Last(l.Resident())))
  {
    Separate(l);
    if |l.active| < l.activeMax {
      PlacementShape(l, p);
    } else {
      DemotionShape(l, p);
      ButLast(l.active);
      var t := [Last(l.active)] + l.second;
      if l.Full() && l.secondMax > 0 {
        ButLast(l.second);
        assert Last(l.Resident()) == Last(l.second);
        assert Take(t, l.secondMax) == [Last(l.active)] + l.second[..|l.second| - 1];
      } else if l.Full() {
        assert l.second == [];
      }
    }
  }

  lemma PromotionMembers(l: Lists, p: Page)
    requires l.Valid() && p in l.second
    ensures forall q :: q in Faulted(l, p).active <==> q == p || (q in l.active && q != Last(l.active))
    ensures forall q :: q in Faulted(l, p).second <==> q == Last(l.active) || (q in l.second && q != p)
  {
    Separate(l);
    PromotionShape(l, p);
    ButLast(l.active);
    WithoutDistinct(l.second, p);
  }

  lemma UnlistActiveShape(l: Lists, p: Page)
    requires l.Valid() && p in l.active
    ensures Unlisted(l, p) ==
            if l.second == [] then l.(active := Without(l.active, p))
            else l.(active := Without(l.active, p) + [l.second[0]], second := l.second[1..])
  {
    WithoutInFirst(l.active, l.second, p);
    assert Distinct(l.active) by {
      forall i, j | 0 <= i < j < |l.active| ensures l.active[i] != l.active[j] {
        assert l.Resident()[i] != l.Resident()[j];
      }
    }
    WithoutDistinct(l.active, p);
    if l.second != [] {
      assert Without(l.active, p) + l.second == (Without(l.active, p) + [l.second[0]]) + l.second[1..];
    }
  }

  lemma UnlistSecondShape(l: Lists, p: Page)
    requires l.Valid() && p in l.second
    ensures p !in l.active
    ensures Unlisted(l, p) == l.(second := Without(l.second, p))
  {
    assert p !in l.active by {
      var j :| 0 <= j < |l.second| && l.second[j] == p;
      forall i | 0 <= i < |l.active| ensures l.active[i] != p {
        assert l.Resident()[i] != l.Resident()[|l.active| + j];
      }
    }
    WithoutInSecond(l.active, l.second, p);
  }

  /** Releasing an active page lets the head of SecondList take the free place at ActiveList's tail. */
  lemma UnlistMembers(l: Lists, p: Page)
    requires l.Valid() && p in l.Resident()
    ensures forall q :: q in Unlisted(l, p).active <==>
              (q in l.active && q != p) || (p in l.active && l.second != [] && q == l.second[0])
    ensures forall q :: q in Unlisted(l, p).second <==>
              q in l.second && q != p && !(p in l.active && q == l.second[0])
  {
    Separate(l);
    if p in l.active {
      UnlistActiveShape(l, p);
      WithoutDistinct(l.active, p);
      if l.second != [] { assert l.second == [l.second[0]] + l.second[1..]; }
    } else {
      UnlistSecondShape(l, p);
      WithoutDistinct(l.second, p);
    }
  }

  // ----- no Belady anomaly in the second list -----

  /** One memory access: only pages outside ActiveList fault. */
  function Accessed(l: Lists, p: Page): Lists {
    if p in l.active then l else Faulted(l, p)
  }

  /** The page-ins of one access: pf_read_env_page runs when the page is in neither list. */
  function PageInOf(l: Lists, p: Page): nat {
    if p in l.Resident() then 0 else 1
  }

  function AfterTrace(l: Lists, trace: seq<Page>): Lists
    decreases |trace|
  {
    if trace == [] then l else AfterTrace(Accessed(l, trace[0]), trace[1..])
  }

  function PageIns(l: Lists, trace: seq<Page>): nat
    decreases |trace|
  {
    if trace == [] then 0 else PageInOf(l, trace[0]) + PageIns(Accessed(l, trace[0]), trace[1..])
  }

  /** big is small with a longer second list: the same active pages, and a second list that extends small's. */
  ghost predicate Extends(small: Lists, big: Lists) {
    && small.activeMax == big.activeMax
    && small.secondMax <= big.secondMax
    && small.active == big.active
    && small.second == Take(big.second, small.secondMax)
  }

  lemma {:induction false} TakeWithout<T>(s: seq<T>, n: nat, x: T)
    requires Distinct(s)
    ensures Take([x] + Without(s, x), n) == Take([x] + Without(Take(s, n), x), n)
  {
    var t := Take(s, n);
    if x in s {
      var i := FirstOccurrence(s, x);
      WithoutSplit(s[..i], x, s[i + 1..]);
      var w := s[..i] + s[i + 1..];
      if i < |t| {
        assert t == s[..i] + [x] + t[i + 1..];
        WithoutSplit(s[..i], x, t[i + 1..]);
        var u := s[..i] + t[i + 1..];
        assert |t| < |s| ==> w[..n - 1] == u[..n - 1];
      } else {
        assert x !in t;
        WithoutAbsent(t, x);
        assert n > 0 ==> w[..n - 1] == t[..n - 1];
      }
      assert n > 0 ==> Take(Without(s, x), n - 1) == Take(Without(t, x), n - 1);
    } else {
      WithoutAbsent(s, x);
      WithoutAbsent(t, x);
    }
  }

  lemma DropOfTake(s: seq<Page>, a: nat, n: nat)
    ensures Take(Take(s, a + n), a) == Take(s, a)
    ensures Drop(Take(s, a + n), a) == Take(Drop(s, a), n)
  {
  }

  lemma ResidentExtends(small: Lists, big: Lists)
    requires small.Valid() && big.Valid() && Extends(small, big)
    ensures small.Resident() == Take(big.Resident(), small.Capacity())
  {
    if |big.second| > small.secondMax {
      assert |small.active| == small.activeMax;
      assert big.Resident()[..small.Capacity()] == big.active + big.second[..small.secondMax];
    }
  }

  lemma HoldingExtends(small: Lists, big: Lists, ms: seq<Page>, mb: seq<Page>)
    requires small.activeMax == big.activeMax && small.secondMax <= big.secondMax
    requires ms == Take(mb, small.Capacity())
    ensures Extends(small.Holding(ms), big.Holding(mb))
  {
    DropOfTake(mb, small.activeMax, small.secondMax);
  }

  lemma FaultKeepsExtends(small: Lists, big: Lists, p: Page)
    requires small.Valid() && big.Valid() && Extends(small, big)
    ensures Extends(Faulted(small, p), Faulted(big, p))
  {
    var n, rb := small.Capacity(), big.Resident();
    ResidentExtends(small, big);
    TakeWithout(rb, n, p);
    var ms := Take(MoveToFront(p, small.Resident()), n);
    var mb := Take(MoveToFront(p, rb), big.Capacity());
    assert ms == Take(mb, n);
    HoldingExtends(small, big, ms, mb);
  }

  lemma AccessKeepsExtends(small: Lists, big: Lists, p: Page)
    requires small.Valid() && big.Valid() && Extends(small, big)
    ensures Accessed(small, p).Valid() && Accessed(big, p).Valid()
    ensures Extends(Accessed(small, p), Accessed(big, p))
    ensures PageInOf(big, p) <= PageInOf(small, p)
  {
    hide Faulted;
    FaultedIsMoveToFront(small, p);
    FaultedIsMoveToFront(big, p);
    FaultKeepsExtends(small, big, p);
    assert forall q :: q in small.second ==> q in big.second;
  }

  // ----- from the lists that programs really start with -----

  /** s is t with some elements left out. */
  ghost predicate Within(s: seq<Page>, t: seq<Page>)
    decreases |t|
  {
    s == [] || (t != [] && if s[0] == t[0] then Within(s[1..], t[1..]) else Within(s, t[1..]))
  }

  lemma {:induction false} WithinSelf(s: seq<Page>)
    ensures Within(s, s)
  {
    if s != [] { WithinSelf(s[1..]); }
  }

  lemma {:induction false} WithinMembers(s: seq<Page>, t: seq<Page>)
    requires Within(s, t)
    ensures |s| <= |t| && forall x :: x in s ==> x in t
    decreases |t|
  {
    if s != [] {
      assert forall x :: x in t[1..] ==> x in t;
      assert forall x :: x in s ==> x == s[0] || x in s[1..];
      if s[0] == t[0] { WithinMembers(s[1..], t[1..]); } else { WithinMembers(s, t[1..]); }
    }
  }

  lemma {:induction false} WithinTake(s: seq<Page>, t: seq<Page>, n: nat)
    requires Within(s, t)
    ensures Within(Take(s, n), t)
    decreases |t|
  {
    if s != [] && n > 0 {
      if s[0] == t[0] {
        WithinTake(s[1..], t[1..], n - 1);
        assert Take(s, n)[1..] == Take(s[1..], n - 1);
      } else {
        WithinTake(s, t[1..], n);
      }
    }
  }

  /** Both lose their last element. */
  lemma {:induction false} WithinFronts(s: seq<Page>, t: seq<Page>)
    requires Within(s, t) && s != []
    ensures t != [] && Within(s[..|s| - 1], t[..|t| - 1])
    decreases |t|
  {
    var (s1, t1) := (s[..|s| - 1], t[..|t| - 1]);
    if s[0] == t[0] {
      if |s| > 1 {
        WithinFronts(s[1..], t[1..]);
        assert s1[1..] == s[1..][..|s| - 2] && t1[1..] == t[1..][..|t| - 2];
      }
    } else {
      WithinFronts(s, t[1..]);
      assert t1[1..] == t[1..][..|t| - 2];
      assert s1 != [] ==> s1[0] != t1[0];
    }
  }

  lemma {:induction false} WithinWithout(s: seq<Page>, t: seq<Page>, x: Page)
    requires Within(s, t) && Distinct(t)
    ensures Within(Without(s, x), Without(t, x))
    decreases |t|
  {
    if s != [] {
      var t1 := t[1..];
      assert Distinct(t1) && t[0] !in t1;
      if s[0] == t[0] {
        if s[0] != x {
          WithinWithout(s[1..], t1, x);
          assert Without(s, x)[1..] == Without(s[1..], x) && Without(t, x)[1..] == Without(t1, x);
        }
      } else {
        WithinMembers(s, t1);
        assert t[0] !in s;
        if t[0] == x {
          WithoutAbsent(s, x);
        } else {
          WithinWithout(s, t1, x);
          WithinLater(Without(s, x), t[0], Without(t1, x));
          assert Without(t, x) == [t[0]] + Without(t1, x);
        }
      }
    }
  }

  lemma {:induction false} WithinLater(s: seq<Page>, y: Page, t: seq<Page>)
    requires Within(s, t)
    ensures Within(s, [y] + t)
    decreases 2 * |t| + 1
  {
    assert ([y] + t)[1..] == t;
    if s != [] && s[0] == y {
      WithinTail(s, t);
    }
  }

  lemma {:induction false} WithinTail(s: seq<Page>, t: seq<Page>)
    requires Within(s, t) && s != []
    ensures Within(s[1..], t)
    decreases 2 * |t|
  {
    if s[0] == t[0] {
      WithinLater(s[1..], t[0], t[1..]);
      assert [t[0]] + t[1..] == t;
    } else {
      WithinTail(s, t[1..]);
      WithinLater(s[1..], t[0], t[1..]);
      assert [t[0]] + t[1..] == t;
    }
  }

  /** The tail of a sequence is within it. */
  lemma {:induction false} WithinSuffix(s: seq<Page>, n: nat)
    requires n <= |s|
    ensures Within(s[n..], s)
  {
    if n == 0 {
      WithinSelf(s);
      assert s[0..] == s;
    } else {
      WithinSuffix(s[1..], n - 1);
      assert s[1..][n - 1..] == s[n..] && [s[0]] + s[1..] == s;
      WithinLater(s[n..], s[0], s[1..]);
    }
  }

  /**
   * The same ActiveList, and a SecondList that keeps the larger one's order and leaves pages out
   * only when it is full.
   */
  ghost predicate Contained(small: Lists, big: Lists) {
    && small.activeMax == big.activeMax && small.secondMax <= big.secondMax
    && small.active == big.active
    && Within(small.second, big.second)
    && (small.Full() || small.second == big.second)
  }

  lemma ExtendsIsContained(small: Lists, big: Lists)
    requires small.Valid() && big.Valid() && Extends(small, big)
    ensures Contained(small, big)
  {
    WithinSelf(big.second);
    WithinTake(big.second, big.second, small.secondMax);
    if |big.second| > small.secondMax { assert |small.active| == small.activeMax; }
  }

  /** What a demotion leaves of the second lists, cut to their sizes. */
  lemma CutsContained(s: seq<Page>, t: seq<Page>, y: Page, p: Page, m: nat, n: nat)
    requires Within(s, t) && Distinct(s) && Distinct(t) && |s| <= m <= n && |t| <= n && (|s| == m || s == t)
    ensures var (s', t') := (Take([y] + Without(s, p), m), Take([y] + Without(t, p), n));
      Within(s', t') && (|s'| == m || s' == t')
  {
    WithinMembers(s, t);
    WithoutDistinct(s, p);
    WithoutDistinct(t, p);
    WithinWithout(s, t, p);
    var (u, v) := ([y] + Without(s, p), [y] + Without(t, p));
    assert u[1..] == Without(s, p) && v[1..] == Without(t, p);
    assert Within(u, v);
    WithinTake(u, v, m);
    if |v| > n {
      assert p !in t && p !in s && |s| == m;
      WithinFronts(u, v);
      assert Take(u, m) == u[..|u| - 1] && Take(v, n) == v[..|v| - 1];
    }
  }

  lemma SecondAfterFault(l: Lists, p: Page)
    requires l.Valid() && |l.active| == l.activeMax && p !in l.active
    ensures Faulted(l, p).second == Take([Last(l.active)] + Without(l.second, p), l.secondMax)
    ensures Faulted(l, p).active == [p] + l.active[..|l.active| - 1] && Distinct(l.second)
    ensures Faulted(l, p).activeMax == l.activeMax && Faulted(l, p).secondMax == l.secondMax
  {
    assert Distinct(l.second) by { SecondDistinct(l); }
    WithoutDistinct(l.second, p);
    if p in l.second {
      PromotionShape(l, p);
    } else {
      DemotionShape(l, p);
      WithoutAbsent(l.second, p);
    }
  }

  lemma SecondDistinct(l: Lists)
    requires Distinct(l.Resident())
    ensures Distinct(l.second)
  {
    forall i, j | 0 <= i < j < |l.second| ensures l.second[i] != l.second[j] {
      assert l.Resident()[|l.active| + i] != l.Resident()[|l.active| + j];
    }
  }

  lemma AccessKeepsContained(small: Lists, big: Lists, p: Page)
    requires small.Valid() && big.Valid() && Contained(small, big)
    ensures Accessed(small, p).Valid() && Accessed(big, p).Valid()
    ensures Contained(Accessed(small, p), Accessed(big, p))
    ensures PageInOf(big, p) <= PageInOf(small, p)
  {
    hide Faulted, Within;
    FaultedIsMoveToFront(small, p);
    FaultedIsMoveToFront(big, p);
    WithinMembers(small.second, big.second);
    if p !in small.active {
      if |small.active| < small.activeMax {
        PlacementShape(small, p);
        PlacementShape(big, p);
      } else {
        SecondAfterFault(small, p);
        SecondAfterFault(big, p);
        CutsContained(small.second, big.second, Last(small.active), p, small.secondMax, big.secondMax);
      }
    }
  }

  /**
   * For one active size and any trace of accesses, the larger second list gives the same ActiveList
   * after every access, a SecondList that holds the smaller one in order, and no more page-ins.
   */
  lemma {:induction false} NoBeladyAnomaly(small: Lists, big: Lists, trace: seq<Page>)
    requires small.Valid() && big.Valid() && Contained(small, big)
    ensures Contained(AfterTrace(small, trace), AfterTrace(big, trace))
    ensures AfterTrace(small, trace).active == AfterTrace(big, trace).active
    ensures PageIns(big, trace) <= PageIns(small, trace)
    decreases |trace|
  {
    hide Accessed;
    if trace != [] {
      AccessKeepsContained(small, big, trace[0]);
      NoBeladyAnomaly(Accessed(small, trace[0]), Accessed(big, trace[0]), trace[1..]);
    }
  }

  /** A longer second list that extends the shorter one goes on extending it, whatever the trace. */
  lemma {:induction false} ExtendsStays(small: Lists, big: Lists, trace: seq<Page>)
    requires small.Valid() && big.Valid() && Extends(small, big)
    ensures Extends(AfterTrace(small, trace), AfterTrace(big, trace)) && PageIns(big, trace) <= PageIns(small, trace)
    decreases |trace|
  {
    ExtendsIsContained(small, big);
    NoBeladyAnomaly(small, big, trace);
    if trace != [] {
      AccessKeepsExtends(small, big, trace[0]);
      ExtendsStays(Accessed(small, trace[0]), Accessed(big, trace[0]), trace[1..]);
    }
  }
}
