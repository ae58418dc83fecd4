/**
 * The lists env_create starts a program with under two sizes of SecondList, and what that means for
 * page-ins: a larger SecondList never costs more, from the first access on.
 */
module SecondListSize {
  import opened Sequences
  import opened TwoLists
  import opened KernelState
  import opened Paging
  import opened EnvCreate

  /** The pages put in memory, in order. */
  function LoadOrder(g: seq<Segment>, remaining: nat, isTpp: bool): seq<Page>
    decreases |g|
  {
    if g == [] then []
    else
      var n := LoadCount(g[0], remaining, isTpp);
      Range(First(g[0]), First(g[0]) + n) + LoadOrder(g[1..], remaining - n, isTpp)
  }

  /** How many pages the segments ask to be put in memory, were there room. */
  function Wanted(g: seq<Segment>, isTpp: bool): nat
    decreases |g|
  {
    if g == [] then 0 else LoadCount(g[0], SegmentSize(g[0]), isTpp) + Wanted(g[1..], isTpp)
  }

  function SegmentSize(g: Segment): nat { if First(g) < End(g) then End(g) - First(g) else 0 }

  function EnlistAll(l: Lists, pages: seq<Page>): Lists
    decreases |pages|
  {
    if pages == [] then l else EnlistAll(Enlist(l, pages[0]), pages[1..])
  }

  /** The lists a program starts with. */
  function CreatedLists(activeMax: nat, secondMax: nat, prog: Program): Lists {
    var room := if activeMax + secondMax > 0 then activeMax + secondMax - 1 else 0;
    EnlistStack(EnlistAll(Lists(activeMax, secondMax, [], []), LoadOrder(prog.segments, room, prog.isTpp)), STACK_PAGE)
  }

  // ----- env_create builds these lists -----

  lemma {:induction false} RangeLength(lo: nat, n: nat)
    ensures |Range(lo, lo + n)| == n
    decreases n
  {
    if n > 0 { RangeLength(lo + 1, n - 1); }
  }

  lemma {:induction false} RangePrefix(lo: nat, m: nat, n: nat)
    requires m <= n
    ensures |Range(lo, lo + n)| == n && Range(lo, lo + m) == Range(lo, lo + n)[..m]
    decreases m
  {
    RangeLength(lo, n);
    if m > 0 {
      RangePrefix(lo + 1, m - 1, n - 1);
      assert Range(lo, lo + n)[..m] == [lo] + Range(lo + 1, lo + n)[..m - 1];
    }
  }

  lemma {:induction false} LoadPagesLists(l: Lists, k: Kernel, e: EnvId, p: Page, n: nat, image: map<Page, PageData>)
    requires LoadPages(l, k, e, p, n, image).Ok?
    ensures LoadPages(l, k, e, p, n, image).value.0 == EnlistAll(l, Range(p, p + n))
    decreases n
  {
    hide LoadPage, Enlist;
    if n > 0 {
      LoadPagesLists(Enlist(l, p), LoadPage(k, e, p, ImageOf(image, p)).value, e, p + 1, n - 1, image);
      assert Range(p, p + n) == [p] + Range(p + 1, p + n);
    }
  }

  lemma {:induction false} EnlistJoin(l: Lists, a: seq<Page>, b: seq<Page>)
    ensures EnlistAll(l, a + b) == EnlistAll(EnlistAll(l, a), b)
    decreases |a|
  {
    hide Enlist;
    if a == [] {
      assert a + b == b;
    } else {
      assert (a + b)[0] == a[0] && (a + b)[1..] == a[1..] + b;
      EnlistJoin(Enlist(l, a[0]), a[1..], b);
    }
  }

  lemma {:induction false} LoadSegmentsLists(l: Lists, k: Kernel, e: EnvId, g: seq<Segment>, remaining: nat, prog: Program)
    requires LoadSegments(l, k, e, g, remaining, prog).Ok?
    ensures LoadSegments(l, k, e, g, remaining, prog).value.0 == EnlistAll(l, LoadOrder(g, remaining, prog.isTpp))
    decreases |g|
  {
    hide LoadPages, FileAll, FilePages, LoadCount, LoadOrder, Range, First, Enlist;
    if g == [] {
      LoadOrderEmpty(remaining, prog.isTpp);
    } else {
      LoadOrderStep(g, remaining, prog.isTpp);
      var n := LoadCount(g[0], remaining, prog.isTpp);
      var (l1, k1) := LoadPages(l, k, e, First(g[0]), n, prog.image).value;
      LoadPagesLists(l, k, e, First(g[0]), n, prog.image);
      LoadSegmentsLists(l1, FileAll(k1, e, FilePages(g[0]), prog.filed).value, e, g[1..], remaining - n, prog);
      EnlistJoin(l, Range(First(g[0]), First(g[0]) + n), LoadOrder(g[1..], remaining - n, prog.isTpp));
    }
  }

  /** The lists of a new environment depend on the program and the two sizes alone. */
  lemma CreatedIs(k: Kernel, e: EnvId, activeMax: nat, secondMax: nat, prog: Program)
    requires EnvCreate.EnvCreate(k, e, activeMax, secondMax, prog).Ok?
    ensures EnvCreate.EnvCreate(k, e, activeMax, secondMax, prog).value.0 == CreatedLists(activeMax, secondMax, prog)
  {
    hide LoadSegments, LoadPage, FilePage, HidePages, Ensure;
    var k0 := Ensure(k, Directory(e)).value;
    LoadSegmentsLists(Lists(activeMax, secondMax, [], []), k0, e, prog.segments, activeMax + secondMax - 1, prog);
  }

  // ----- their shape -----

  lemma {:induction false} EnlistShape(a: nat, m: nat, pages: seq<Page>)
    requires a >= 1
    ensures EnlistAll(Lists(a, m, [], []), pages) == Lists(a, m, Reverse(Take(pages, a - 1)), Reverse(Drop(pages, a - 1)))
    decreases |pages|
  {
    hide Enlist, Reverse;
    if pages == [] {
      EmptyReverse();
    } else {
      var n := |pages| - 1;
      var (front, p) := (pages[..n], pages[n]);
      assert pages == front + [p];
      EnlistShape(a, m, front);
      EnlistJoin(Lists(a, m, [], []), front, [p]);
      assert [p][1..] == [];
      EnlistOne(a, m, front, p);
    }
  }

  lemma EmptyReverse()
    ensures Reverse<Page>([]) == []
  {
  }

  /** One more page, after the pages of front. */
  lemma EnlistOne(a: nat, m: nat, front: seq<Page>, p: Page)
    requires a >= 1
    ensures Enlist(Lists(a, m, Reverse(Take(front, a - 1)), Reverse(Drop(front, a - 1))), p)
            == Lists(a, m, Reverse(Take(front + [p], a - 1)), Reverse(Drop(front + [p], a - 1)))
  {
    hide Reverse;
    ReverseMembers(Take(front, a - 1));
    if |front| < a - 1 {
      ReverseMore(front, p);
      assert Take(front + [p], a - 1) == front + [p] && Drop(front + [p], a - 1) == Drop(front, a - 1);
    } else {
      ReverseMore(Drop(front, a - 1), p);
      assert Take(front + [p], a - 1) == Take(front, a - 1) && Drop(front + [p], a - 1) == Drop(front, a - 1) + [p];
    }
  }

  lemma CreatedShape(a: nat, m: nat, prog: Program)
    requires a >= 1
    ensures var pages := LoadOrder(prog.segments, a + m - 1, prog.isTpp);
      CreatedLists(a, m, prog) == Lists(a, m, [STACK_PAGE] + Reverse(Take(pages, a - 1)), Reverse(Drop(pages, a - 1)))
  {
    var pages := LoadOrder(prog.segments, a + m - 1, prog.isTpp);
    EnlistShape(a, m, pages);
    ReverseMembers(Take(pages, a - 1));
  }

  /** A smaller working set loads the first pages of what a larger one loads. */
  lemma {:induction false} LoadOrderPrefix(g: seq<Segment>, small: nat, big: nat, isTpp: bool)
    requires small <= big
    ensures LoadOrder(g, small, isTpp) == Take(LoadOrder(g, big, isTpp), small)
    decreases |g|
  {
    hide LoadCount, First, Range, LoadOrder;
    if g == [] {
      LoadOrderEmpty(small, isTpp);
      LoadOrderEmpty(big, isTpp);
    } else {
      var (m, n, p) := (LoadCount(g[0], small, isTpp), LoadCount(g[0], big, isTpp), First(g[0]));
      CountIs(g[0], small, big, isTpp);
      LoadOrderStep(g, small, isTpp);
      LoadOrderStep(g, big, isTpp);
      RangePrefix(p, m, n);
      var rest := LoadOrder(g[1..], big - n, isTpp);
      if m == n {
        LoadOrderPrefix(g[1..], small - n, big - n, isTpp);
        TakeJoin(Range(p, p + n), rest, small);
      } else {
        LoadOrderNone(g[1..], isTpp);
        assert Take(Range(p, p + n) + rest, small) == Range(p, p + n)[..m];
      }
    }
  }

  lemma TakeJoin(a: seq<Page>, b: seq<Page>, n: nat)
    requires |a| <= n
    ensures Take(a + b, n) == a + Take(b, n - |a|)
  {
  }

  lemma LoadOrderEmpty(remaining: nat, isTpp: bool)
    ensures LoadOrder([], remaining, isTpp) == []
  {
  }

  lemma LoadOrderStep(g: seq<Segment>, remaining: nat, isTpp: bool)
    requires g != []
    ensures var n := LoadCount(g[0], remaining, isTpp);
      && n <= remaining
      && LoadOrder(g, remaining, isTpp) == Range(First(g[0]), First(g[0]) + n) + LoadOrder(g[1..], remaining - n, isTpp)
  {
    hide First, Range;
  }

  lemma {:induction false} LoadOrderNone(g: seq<Segment>, isTpp: bool)
    ensures LoadOrder(g, 0, isTpp) == []
    decreases |g|
  {
    if g != [] { LoadOrderNone(g[1..], isTpp); }
  }

  lemma CountIs(g: Segment, small: nat, big: nat, isTpp: bool)
    requires small <= big
    ensures LoadCount(g, small, isTpp) <= small
    ensures LoadCount(g, small, isTpp) == if LoadCount(g, big, isTpp) < small then LoadCount(g, big, isTpp) else small
  {
  }

  lemma {:induction false} LoadOrderLength(g: seq<Segment>, remaining: nat, isTpp: bool)
    ensures |LoadOrder(g, remaining, isTpp)| == if Wanted(g, isTpp) < remaining then Wanted(g, isTpp) else remaining
    decreases |g|
  {
    if g != [] {
      var n := LoadCount(g[0], remaining, isTpp);
      RangeLength(First(g[0]), n);
      LoadOrderLength(g[1..], remaining - n, isTpp);
      WantedCount(g[0], remaining, isTpp);
      hide LoadCount, SegmentSize, First;
    }
  }

  lemma WantedCount(g: Segment, remaining: nat, isTpp: bool)
    ensures var w := LoadCount(g, SegmentSize(g), isTpp);
      LoadCount(g, remaining, isTpp) == if w < remaining then w else remaining
  {
  }

  // ----- two sizes of SecondList -----

  /** Under a larger SecondList a program starts with the same ActiveList and a SecondList that holds the smaller one. */
  lemma CreatedContained(a: nat, m: nat, n: nat, prog: Program)
    requires a >= 1 && m <= n
    ensures Contained(CreatedLists(a, m, prog), CreatedLists(a, n, prog))
  {
    hide CreatedLists, LoadOrder, Within, Reverse;
    var (s, b) := (LoadOrder(prog.segments, a + m - 1, prog.isTpp), LoadOrder(prog.segments, a + n - 1, prog.isTpp));
    CreatedShape(a, m, prog);
    CreatedShape(a, n, prog);
    LoadOrderPrefix(prog.segments, a + m - 1, a + n - 1, prog.isTpp);
    assert Take(s, a - 1) == Take(b, a - 1);
    CutSuffix(b, a - 1, a + m - 1);
    ReverseMembers(Take(b, a - 1));
    ReverseMembers(Drop(s, a - 1));
  }

  /** The most recent pages but some, most recent first, are the tail of all of them. */
  lemma CutSuffix(b: seq<Page>, i: nat, j: nat)
    requires i <= j
    ensures Within(Reverse(Drop(Take(b, j), i)), Reverse(Drop(b, i)))
    ensures |b| > j ==> Reverse(Drop(b, i)) == Reverse(b[j..]) + Reverse(Drop(Take(b, j), i))
  {
    if |b| > j {
      assert Drop(b, i) == Drop(Take(b, j), i) + b[j..];
      ReverseJoin(Drop(Take(b, j), i), b[j..]);
      var (x, y) := (Reverse(b[j..]), Reverse(Drop(Take(b, j), i)));
      assert (x + y)[|x|..] == y;
      WithinSuffix(x + y, |x|);
    } else {
      WithinSelf(Reverse(Drop(b, i)));
    }
  }

  lemma {:induction false} ReverseJoin(s: seq<Page>, t: seq<Page>)
    ensures Reverse(s + t) == Reverse(t) + Reverse(s)
  {
    if s == [] {
      assert s + t == t;
    } else {
      assert (s + t)[1..] == s[1..] + t;
      ReverseJoin(s[1..], t);
    }
  }

  /** The program fits the smaller working set, or the sizes do not differ, or there is no second list to compare. */
  predicate Fits(a: nat, m: nat, n: nat, prog: Program) {
    m == 0 || m == n || a + m >= 1 + Wanted(prog.segments, prog.isTpp)
  }

  /**
   * The larger SecondList extends the smaller one at the start if and only if the program's pages
   * fit the smaller working set (or the sizes are equal, or the smaller has no SecondList).
   */
  lemma CreatedExtendsIff(a: nat, m: nat, n: nat, prog: Program)
    requires a >= 1 && m <= n && Distinct(CreatedLists(a, n, prog).second)
    ensures Extends(CreatedLists(a, m, prog), CreatedLists(a, n, prog)) <==> Fits(a, m, n, prog)
  {
    hide CreatedLists, LoadOrder, Within, Reverse, Wanted, Distinct;
    var (s, b) := (LoadOrder(prog.segments, a + m - 1, prog.isTpp), LoadOrder(prog.segments, a + n - 1, prog.isTpp));
    CreatedShape(a, m, prog);
    CreatedShape(a, n, prog);
    LoadOrderPrefix(prog.segments, a + m - 1, a + n - 1, prog.isTpp);
    LoadOrderLength(prog.segments, a + n - 1, prog.isTpp);
    assert Take(s, a - 1) == Take(b, a - 1);
    ReverseMembers(Drop(s, a - 1));
    ReverseMembers(Drop(b, a - 1));
    if |b| > a + m - 1 {
      CutSuffix(b, a - 1, a + m - 1);
      ReverseMembers(b[a + m - 1..]);
      if m > 0 { HeadsDiffer(Reverse(b[a + m - 1..]), Reverse(Drop(s, a - 1))); }
    }
  }

  lemma HeadsDiffer(x: seq<Page>, y: seq<Page>)
    requires Distinct(x + y) && x != [] && y != []
    ensures Take(x + y, |y|) != y
  {
    assert (x + y)[0] == x[0] && (x + y)[|x|] == y[0];
    assert Take(x + y, |y|)[0] == x[0];
  }

  /** Two pages of code, one active page: with SecondList sizes 1 and 2 the older page and the newer lead the list. */
  lemma ExtendsFailsAtCreation()
    ensures var prog := Program([Segment(0x80_0000, 0x2000, 0x2000)], map[], map[], false);
      && CreatedLists(1, 1, prog).second == [0x800] && CreatedLists(1, 2, prog).second == [0x801, 0x800]
      && !Extends(CreatedLists(1, 1, prog), CreatedLists(1, 2, prog))
  {
    hide LoadOrder, Range, CreatedLists, LoadCount, First;
    var prog := Program([Segment(0x80_0000, 0x2000, 0x2000)], map[], map[], false);
    var g := prog.segments[0];
    TwoPages(g);
    LoadOrderStep(prog.segments, 1, false);
    LoadOrderStep(prog.segments, 2, false);
    LoadOrderEmpty(0, false);
    assert prog.segments[1..] == [];
    CreatedShape(1, 1, prog);
    CreatedShape(1, 2, prog);
    assert [0x800, 0x801][1..] == [0x801] && [0x801][1..] == [] && [0x800][1..] == [];
  }

  lemma TwoPages(g: Segment)
    requires g == Segment(0x80_0000, 0x2000, 0x2000)
    ensures First(g) == 0x800 && LoadCount(g, 1, false) == 1 && LoadCount(g, 2, false) == 2
    ensures Range(0x800, 0x801) == [0x800] && Range(0x800, 0x802) == [0x800, 0x801]
  {
    assert Range(0x801, 0x801) == [] && Range(0x802, 0x802) == [];
    assert Range(0x801, 0x802) == [0x801] + Range(0x802, 0x802);
  }

  /**
   * From the lists of two new environments for one program, and for every trace, the larger SecondList
   * never costs more; it extends the smaller one throughout if the program fits the smaller working set.
   */
  lemma LargerListsNeverCost(a: nat, m: nat, n: nat, prog: Program, trace: seq<Page>)
    requires a >= 1 && m <= n && CreatedLists(a, m, prog).Valid() && CreatedLists(a, n, prog).Valid()
    ensures var (small, big) := (CreatedLists(a, m, prog), CreatedLists(a, n, prog));
      && Contained(AfterTrace(small, trace), AfterTrace(big, trace))
      && PageIns(big, trace) <= PageIns(small, trace)
      && (Fits(a, m, n, prog) ==> Extends(AfterTrace(small, trace), AfterTrace(big, trace)))
      && (Extends(small, big) <==> Fits(a, m, n, prog))
  {
    hide CreatedLists, Contained, Extends, Fits;
    CreatedContained(a, m, n, prog);
    var (small, big) := (CreatedLists(a, m, prog), CreatedLists(a, n, prog));
    NoBeladyAnomaly(small, big, trace);
    SecondDistinct(big);
    CreatedExtendsIff(a, m, n, prog);
    if Fits(a, m, n, prog) { ExtendsStays(small, big, trace); }
  }
}
