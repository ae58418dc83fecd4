/**
 * Which pages of a new program are in memory, in which list and at which place: counted page by page
 * from the segments, with the limit of six pages for the one at 0x200000.
 */
module LoadPlaces {
  import opened Sequences
  import opened TwoLists
  import opened KernelState
  import opened EnvCreate
  import S = SecondListSize

  /** The segment at 0x200000 of any program but tpp has six pages in memory at most. */
  predicate Limited(g: Segment, isTpp: bool) { First(g) == 0x200 && !isTpp }

  predicate Admitted(g: Segment, isTpp: bool, q: Page) {
    First(g) <= q < End(g) && (Limited(g, isTpp) ==> q - First(g) < 6)
  }

  ghost function AdmittedPages(g: Segment, isTpp: bool): set<Page> {
    set q: Page | First(g) <= q < End(g) && Admitted(g, isTpp, q)
  }

  /** How many pages the first i segments would have in memory, were there room. */
  ghost function PagesBefore(g: seq<Segment>, i: nat, isTpp: bool): nat
    requires i <= |g|
  {
    if i == 0 then 0 else PagesBefore(g, i - 1, isTpp) + |AdmittedPages(g[i - 1], isTpp)|
  }

  /** The place of page q of segment i in the order of loading. */
  ghost function PlaceOf(g: seq<Segment>, i: nat, isTpp: bool, q: Page): int
    requires i < |g|
  {
    PagesBefore(g, i, isTpp) + q - First(g[i])
  }

  predicate In(lo: nat, n: nat, q: Page) { lo <= q < lo + n }

  ghost function Interval(lo: nat, n: nat): set<Page> { set q: Page | lo <= q < lo + n && In(lo, n, q) }

  lemma {:induction false} IntervalSize(lo: nat, n: nat)
    ensures |Interval(lo, n)| == n
    decreases n
  {
    if n > 0 {
      IntervalSize(lo, n - 1);
      assert Interval(lo, n) == Interval(lo, n - 1) + {lo + n - 1};
    } else {
      assert Interval(lo, n) == {};
    }
  }

  /** The admitted pages are the first of the segment, as many as it may have. */
  lemma AdmittedCount(g: Segment, isTpp: bool)
    ensures var n := |AdmittedPages(g, isTpp)|;
      && (forall q: Page :: Admitted(g, isTpp, q) <==> First(g) <= q < First(g) + n)
      && (forall room: nat :: LoadCount(g, room, isTpp) == if n < room then n else room)
  {
    var size := if First(g) < End(g) then End(g) - First(g) else 0;
    var n := if Limited(g, isTpp) && size > 6 then 6 else size;
    hide First, End;
    IntervalSize(First(g), n);
    assert AdmittedPages(g, isTpp) == Interval(First(g), n);
  }

  lemma {:induction false} RangeAt(lo: nat, n: nat, i: nat)
    requires i < n
    ensures |Range(lo, lo + n)| == n && Range(lo, lo + n)[i] == lo + i
    decreases n
  {
    S.RangeLength(lo, n);
    if i > 0 { RangeAt(lo + 1, n - 1, i - 1); }
  }

  lemma {:induction false} PagesBeforeTail(g: seq<Segment>, i: nat, isTpp: bool)
    requires 0 < i <= |g|
    ensures PagesBefore(g, i, isTpp) == |AdmittedPages(g[0], isTpp)| + PagesBefore(g[1..], i - 1, isTpp)
    decreases i
  {
    if i > 1 {
      PagesBeforeTail(g, i - 1, isTpp);
      assert g[1..][i - 2] == g[i - 1];
    }
  }

  /** An admitted page with a place below the room is loaded at that place. */
  lemma {:induction false} LoadedAt(g: seq<Segment>, room: nat, isTpp: bool, i: nat, q: Page)
    requires i < |g| && Admitted(g[i], isTpp, q) && PlaceOf(g, i, isTpp, q) < room
    ensures var n := PlaceOf(g, i, isTpp, q);
      0 <= n < |S.LoadOrder(g, room, isTpp)| && S.LoadOrder(g, room, isTpp)[n] == q
    decreases |g|
  {
    hide First, End, LoadCount, S.LoadOrder, AdmittedPages;
    AdmittedCount(g[0], isTpp);
    S.LoadOrderStep(g, room, isTpp);
    var m := LoadCount(g[0], room, isTpp);
    S.RangeLength(First(g[0]), m);
    if i == 0 {
      RangeAt(First(g[0]), m, q - First(g[0]));
    } else {
      PagesBeforeTail(g, i, isTpp);
      AdmittedCount(g[i], isTpp);
      assert g[1..][i - 1] == g[i];
      assert m == |AdmittedPages(g[0], isTpp)|;
      LoadedAt(g[1..], room - m, isTpp, i - 1, q);
    }
  }

  /** Whatever is loaded is an admitted page of some segment, at its place. */
  lemma {:induction false} LoadedIs(g: seq<Segment>, room: nat, isTpp: bool, n: nat) returns (i: nat)
    requires n < |S.LoadOrder(g, room, isTpp)|
    ensures var q := S.LoadOrder(g, room, isTpp)[n];
      i < |g| && Admitted(g[i], isTpp, q) && PlaceOf(g, i, isTpp, q) == n && n < room
    decreases |g|
  {
    hide First, End, LoadCount, S.LoadOrder, AdmittedPages;
    S.LoadOrderEmpty(room, isTpp);
    S.LoadOrderStep(g, room, isTpp);
    AdmittedCount(g[0], isTpp);
    var m := LoadCount(g[0], room, isTpp);
    S.RangeLength(First(g[0]), m);
    if n < m {
      i := 0;
      RangeAt(First(g[0]), m, n);
    } else {
      var j := LoadedIs(g[1..], room - m, isTpp, n - m);
      i := j + 1;
      assert m == |AdmittedPages(g[0], isTpp)|;
      PagesBeforeTail(g, i, isTpp);
      assert g[1..][j] == g[i];
    }
  }

  /** Pages of two segments never meet, so a page is of one segment at most. */
  lemma OneSegment(g: seq<Segment>, i: nat, j: nat, isTpp: bool, q: Page)
    requires GoodProgram(g) && i < |g| && j < |g| && First(g[i]) <= q < End(g[i]) && Admitted(g[j], isTpp, q)
    ensures i == j && q != STACK_PAGE
  {
    hide First, End, GoodProgram;
    StackOutside(g, i, q);
    if i != j { SegmentsApart(g, i, j); }
  }

  lemma SegmentsApart(g: seq<Segment>, i: nat, j: nat)
    requires GoodProgram(g) && i < |g| && j < |g| && i != j
    ensures Apart(g[i], g[j]) || Apart(g[j], g[i])
  {
    hide First, End;
  }

  /**
   * A page of a segment is in memory when env_create returns if and only if it is among the first six
   * of a limited segment and its place is below the working set size less one, which is the stack's.
   */
  lemma ResidentIff(k: Kernel, e: EnvId, a: nat, m: nat, prog: Program, i: nat, q: Page)
    requires a >= 1 && GoodProgram(prog.segments) && EnvCreate.EnvCreate(k, e, a, m, prog).Ok?
    requires i < |prog.segments| && First(prog.segments[i]) <= q < End(prog.segments[i])
    ensures q in EnvCreate.EnvCreate(k, e, a, m, prog).value.0.Resident() <==>
      (Limited(prog.segments[i], prog.isTpp) ==> q - First(prog.segments[i]) < 6)
      && PlaceOf(prog.segments, i, prog.isTpp, q) < a + m - 1
  {
    hide EnvCreate.EnvCreate, S.CreatedLists, S.LoadOrder, GoodProgram, First, End, AdmittedPages, PagesBefore;
    var (g, isTpp) := (prog.segments, prog.isTpp);
    var order := S.LoadOrder(g, a + m - 1, isTpp);
    S.CreatedIs(k, e, a, m, prog);
    S.CreatedShape(a, m, prog);
    ShapeMembers(order, a - 1);
    if Admitted(g[i], isTpp, q) {
      OneSegment(g, i, i, isTpp, q);
      if PlaceOf(g, i, isTpp, q) < a + m - 1 { LoadedAt(g, a + m - 1, isTpp, i, q); }
    }
    if q in order {
      var n :| 0 <= n < |order| && order[n] == q;
      var j := LoadedIs(g, a + m - 1, isTpp, n);
      OneSegment(g, i, j, isTpp, q);
    }
    StackOutside(g, i, q);
  }

  lemma StackOutside(g: seq<Segment>, i: nat, q: Page)
    requires GoodProgram(g) && i < |g| && First(g[i]) <= q < End(g[i])
    ensures q != STACK_PAGE
  {
    hide First, End;
    assert GoodSegment(g[i]);
    assert First(g[i]) <= q < End(g[i]) ==> UserPage(q) && q != STACK_PAGE;
  }

  lemma ShapeMembers(order: seq<Page>, n: nat)
    ensures forall q :: q in [STACK_PAGE] + Reverse(Take(order, n)) + Reverse(Drop(order, n)) <==> q == STACK_PAGE || q in order
  {
    ReverseMembers(Take(order, n));
    ReverseMembers(Drop(order, n));
    assert order == Take(order, n) + Drop(order, n);
    hide Reverse, Take, Drop;
  }

  /** Besides the stack page nothing else is in memory. */
  lemma ResidentOnly(k: Kernel, e: EnvId, a: nat, m: nat, prog: Program, q: Page)
    requires a >= 1 && EnvCreate.EnvCreate(k, e, a, m, prog).Ok? && q in EnvCreate.EnvCreate(k, e, a, m, prog).value.0.Resident()
    ensures q == STACK_PAGE || exists i :: 0 <= i < |prog.segments| && Admitted(prog.segments[i], prog.isTpp, q)
  {
    hide EnvCreate.EnvCreate, S.CreatedLists, S.LoadOrder, Admitted;
    var order := S.LoadOrder(prog.segments, a + m - 1, prog.isTpp);
    S.CreatedIs(k, e, a, m, prog);
    S.CreatedShape(a, m, prog);
    ShapeMembers(order, a - 1);
    if q != STACK_PAGE {
      var n :| 0 <= n < |order| && order[n] == q;
      var i := LoadedIs(prog.segments, a + m - 1, prog.isTpp, n);
    }
  }

  /**
   * Where it is: the stack page leads ActiveList; the pages with the first places, all but one of the
   * active size, are in ActiveList, the others in SecondList, in both the one loaded first at the tail.
   */
  lemma WhereResident(k: Kernel, e: EnvId, a: nat, m: nat, prog: Program, i: nat, q: Page)
    requires a >= 1 && EnvCreate.EnvCreate(k, e, a, m, prog).Ok? && i < |prog.segments| && Admitted(prog.segments[i], prog.isTpp, q)
    requires PlaceOf(prog.segments, i, prog.isTpp, q) < a + m - 1
    ensures var (l, n) := (EnvCreate.EnvCreate(k, e, a, m, prog).value.0, PlaceOf(prog.segments, i, prog.isTpp, q));
      && l.active != [] && l.active[0] == STACK_PAGE
      && if n < a - 1 then n + 1 < |l.active| && l.active[|l.active| - 1 - n] == q
         else n - (a - 1) < |l.second| && l.second[|l.second| - 1 - (n - (a - 1))] == q
  {
    hide EnvCreate.EnvCreate, S.CreatedLists, S.LoadOrder, Admitted, PagesBefore, First;
    var order := S.LoadOrder(prog.segments, a + m - 1, prog.isTpp);
    S.CreatedIs(k, e, a, m, prog);
    S.CreatedShape(a, m, prog);
    LoadedAt(prog.segments, a + m - 1, prog.isTpp, i, q);
    ReverseAt(Take(order, a - 1));
    ReverseAt(Drop(order, a - 1));
  }
}
