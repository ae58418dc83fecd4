/**
 * What env_create needs: the words it fills and the pages it files, each once, and that it panics
 * exactly when there are fewer free frames than new words or fewer disk frames than new pages.
 */
module CreateNeeds {
  import opened Sequences
  import opened TwoLists
  import opened KernelState
  import opened Paging
  import opened EnvCreate

  type Filed = (EnvId, Page)

  /** How many of w are new. */
  ghost function New<T>(have: set<T>, w: set<T>): nat { |w - have| }

  /** There is room for what is new in w. */
  ghost predicate Fits<T>(have: set<T>, room: nat, w: set<T>) { New(have, w) <= room }

  /** w was added, and room spent on what was new. */
  ghost predicate Added<T>(have: set<T>, room: nat, have': set<T>, room': nat, w: set<T>) {
    have' == have + w && room' + New(have, w) == room
  }

  lemma CountTwice<T>(have: set<T>, a: set<T>, b: set<T>)
    ensures New(have, a + b) == New(have, a) + New(have + a, b)
  {
    assert (a + b) - have == (a - have) + (b - (have + a));
  }

  /** One addition after another. */
  lemma FitsAfter<T>(h: set<T>, r: nat, h1: set<T>, r1: nat, a: set<T>, b: set<T>)
    requires Added(h, r, h1, r1, a)
    ensures Fits(h1, r1, b) <==> Fits(h, r, a + b)
  {
    CountTwice(h, a, b);
  }

  lemma AddedTwice<T>(h: set<T>, r: nat, h1: set<T>, r1: nat, h2: set<T>, r2: nat, a: set<T>, b: set<T>)
    requires Added(h, r, h1, r1, a) && Added(h1, r1, h2, r2, b)
    ensures Added(h, r, h2, r2, a + b)
  {
    CountTwice(h, a, b);
  }

  lemma FitsFirst<T>(h: set<T>, r: nat, a: set<T>, b: set<T>)
    requires Fits(h, r, a + b)
    ensures Fits(h, r, a)
  {
    CountTwice(h, a, b);
  }

  lemma AddNothing<T>(h: set<T>, r: nat)
    ensures Fits(h, r, {}) && Added(h, r, h, r, {})
  {
    assert {} - h == {} && h + {} == h;
  }

  lemma AddOne<T>(h: set<T>, x: T)
    ensures New(h, {x}) == if x in h then 0 else 1
    ensures x in h ==> h + {x} == h
  {
    assert {x} - h == if x in h then {} else {x};
  }

  /** There are frames for the words w and disk frames for the pages f. */
  ghost predicate Enough(k: Kernel, w: set<Slot>, f: set<Filed>) {
    Fits(k.words.Keys, |k.free|, w) && Fits(k.pf.Keys, |k.diskFree|, f)
  }

  /** k' is k with the words w and the pages f, a frame spent on each new one. */
  ghost predicate Takes(k: Kernel, k': Kernel, w: set<Slot>, f: set<Filed>) {
    && Added(k.words.Keys, |k.free|, k'.words.Keys, |k'.free|, w)
    && Added(k.pf.Keys, |k.diskFree|, k'.pf.Keys, |k'.diskFree|, f)
  }

  lemma EnoughAfter(k: Kernel, k1: Kernel, w: set<Slot>, f: set<Filed>, v: set<Slot>, g: set<Filed>)
    requires Takes(k, k1, w, f)
    ensures Enough(k1, v, g) <==> Enough(k, w + v, f + g)
  {
    hide Added, Fits;
    FitsAfter(k.words.Keys, |k.free|, k1.words.Keys, |k1.free|, w, v);
    FitsAfter(k.pf.Keys, |k.diskFree|, k1.pf.Keys, |k1.diskFree|, f, g);
  }

  lemma TakesTwice(k: Kernel, k1: Kernel, k2: Kernel, w: set<Slot>, f: set<Filed>, v: set<Slot>, g: set<Filed>)
    requires Takes(k, k1, w, f) && Takes(k1, k2, v, g)
    ensures Takes(k, k2, w + v, f + g)
  {
    hide Added;
    AddedTwice(k.words.Keys, |k.free|, k1.words.Keys, |k1.free|, k2.words.Keys, |k2.free|, w, v);
    AddedTwice(k.pf.Keys, |k.diskFree|, k1.pf.Keys, |k1.diskFree|, k2.pf.Keys, |k2.diskFree|, f, g);
  }

  lemma EnoughForFirst(k: Kernel, w: set<Slot>, f: set<Filed>, v: set<Slot>, g: set<Filed>)
    requires Enough(k, w + v, f + g)
    ensures Enough(k, w, f)
  {
    hide Added, Fits;
    FitsFirst(k.words.Keys, |k.free|, w, v);
    FitsFirst(k.pf.Keys, |k.diskFree|, f, g);
  }

  /**
   * Two steps in a row: both succeed if and only if there is enough for both, and they then take
   * what both take.
   */
  lemma InTurn(k: Kernel, r1: Result<Kernel>, r2: Result<Kernel>, w: set<Slot>, f: set<Filed>, v: set<Slot>, g: set<Filed>)
    requires r1.Ok? <==> Enough(k, w, f)
    requires r1.Ok? ==> Takes(k, r1.value, w, f) && (r2.Ok? <==> Enough(r1.value, v, g))
    requires r1.Ok? && r2.Ok? ==> Takes(r1.value, r2.value, v, g)
    ensures r1.Ok? && r2.Ok? <==> Enough(k, w + v, f + g)
    ensures r1.Ok? && r2.Ok? ==> Takes(k, r2.value, w + v, f + g)
  {
    hide Enough, Takes;
    if Enough(k, w + v, f + g) { EnoughForFirst(k, w, f, v, g); }
    if r1.Ok? { EnoughAfter(k, r1.value, w, f, v, g); }
    if r1.Ok? && r2.Ok? { TakesTwice(k, r1.value, r2.value, w, f, v, g); }
  }

  /** InTurn for steps that file nothing. */
  lemma WordsInTurn(k: Kernel, r1: Result<Kernel>, r2: Result<Kernel>, w: set<Slot>, v: set<Slot>)
    requires r1.Ok? <==> Enough(k, w, {})
    requires r1.Ok? ==> Takes(k, r1.value, w, {}) && (r2.Ok? <==> Enough(r1.value, v, {}))
    requires r1.Ok? && r2.Ok? ==> Takes(r1.value, r2.value, v, {})
    ensures r1.Ok? && r2.Ok? <==> Enough(k, w + v, {})
    ensures r1.Ok? && r2.Ok? ==> Takes(k, r2.value, w + v, {})
    ensures Enough(k, w + v, {}) ==> Enough(k, w, {})
  {
    hide Enough, Takes;
    var none: set<Filed> := {};
    assert none + none == none;
    InTurn(k, r1, r2, w, none, v, none);
    if Enough(k, w + v, none) { EnoughForFirst(k, w, none, v, none); }
  }

  /** One word more. */
  lemma OneMore(k: Kernel, k': Kernel, s: Slot)
    requires k'.words.Keys == k.words.Keys + {s} && k'.pf == k.pf && k'.diskFree == k.diskFree
    requires |k'.free| == |k.free| - if s in k.words then 0 else 1
    ensures Takes(k, k', {s}, {})
  {
    AddOne(k.words.Keys, s);
    AddNothing(k.pf.Keys, |k.diskFree|);
  }

  lemma EnoughForOne(k: Kernel, s: Slot)
    ensures Enough(k, {s}, {}) <==> s in k.words || k.free != []
  {
    AddOne(k.words.Keys, s);
    AddNothing(k.pf.Keys, |k.diskFree|);
  }

  lemma EnsureNeeds(k: Kernel, s: Slot)
    ensures Ensure(k, s).Ok? <==> Enough(k, {s}, {})
    ensures Ensure(k, s).Ok? ==> Takes(k, Ensure(k, s).value, {s}, {})
  {
    hide Takes, Enough;
    EnoughForOne(k, s);
    if Ensure(k, s).Ok? {
      assert Ensure(k, s).value.words.Keys == k.words.Keys + {s};
      OneMore(k, Ensure(k, s).value, s);
    }
  }

  /** Taking a frame for a new word whatever the order: the frame first, the word last. */
  lemma NewWordNeeds(k: Kernel, s: Slot)
    requires s !in k.words
    ensures k.free != [] <==> Enough(k, {s}, {})
    ensures k.free != [] ==> Takes(k, SetWord(AllocateFrame(k).value.0, s, k.free[0]), {s}, {})
  {
    hide Takes, Enough;
    EnoughForOne(k, s);
    if k.free != [] {
      var k' := SetWord(AllocateFrame(k).value.0, s, k.free[0]);
      assert k'.words.Keys == k.words.Keys + {s};
      OneMore(k, k', s);
    }
  }

  function PageSlots(e: EnvId, p: Page): set<Slot> { {Entry(e, p)} + {Table(e, Pdx(p))} }

  function FileSlots(e: EnvId, p: Page): set<Slot> { {DiskDirectory(e)} + {DiskTable(e, Pdx(p))} }

  /** Two kernels that agree on all that counts here. */
  ghost predicate Alike(k: Kernel, j: Kernel) {
    k.words.Keys == j.words.Keys && |k.free| == |j.free| && k.pf.Keys == j.pf.Keys && |k.diskFree| == |j.diskFree|
  }

  lemma AlikeTakes(k: Kernel, k1: Kernel, k2: Kernel, w: set<Slot>, f: set<Filed>)
    requires Alike(k1, k2) && Takes(k, k1, w, f)
    ensures Takes(k, k2, w, f)
  {
    hide Added;
  }

  lemma LoadPageAlike(k: Kernel, e: EnvId, p: Page, data: PageData)
    requires !k.Mapped(e, p) && k.free != []
    ensures var r := Ensure(SetWord(AllocateFrame(k).value.0, Entry(e, p), k.free[0]), Table(e, Pdx(p)));
      && (LoadPage(k, e, p, data).Ok? <==> r.Ok?)
      && (r.Ok? ==> Alike(r.value, LoadPage(k, e, p, data).value))
  {
    hide Ensure, SetWord;
    var (k1, f) := AllocateFrame(k).value;
    EnsureCounts(k1, Table(e, Pdx(p)));
    SetWordCounts(k1, Entry(e, p), f);
    EnsureCounts(SetWord(k1, Entry(e, p), f), Table(e, Pdx(p)));
    if Ensure(k1, Table(e, Pdx(p))).Ok? { SetWordCounts(Ensure(k1, Table(e, Pdx(p))).value, Entry(e, p), f); }
  }

  lemma SetWordCounts(k: Kernel, s: Slot, f: Frame)
    ensures var k' := SetWord(k, s, f);
      k'.words.Keys == k.words.Keys + {s} && k'.free == k.free && k'.pf == k.pf && k'.diskFree == k.diskFree
  {
  }

  lemma EnsureCounts(k: Kernel, s: Slot)
    ensures Ensure(k, s).Ok? <==> s in k.words || k.free != []
    ensures Ensure(k, s).Ok? ==> var k' := Ensure(k, s).value;
      && k'.words.Keys == k.words.Keys + {s} && k'.pf == k.pf && k'.diskFree == k.diskFree
      && |k'.free| == |k.free| - if s in k.words then 0 else 1
  {
  }

  lemma LoadPageNeeds(k: Kernel, e: EnvId, p: Page, data: PageData)
    requires !k.Mapped(e, p)
    ensures LoadPage(k, e, p, data).Ok? <==> Enough(k, PageSlots(e, p), {})
    ensures LoadPage(k, e, p, data).Ok? ==> Takes(k, LoadPage(k, e, p, data).value, PageSlots(e, p), {})
  {
    hide Enough, Takes, SetWord, Ensure, LoadPage, Alike;
    NewWordNeeds(k, Entry(e, p));
    if k.free != [] {
      var k1 := SetWord(AllocateFrame(k).value.0, Entry(e, p), k.free[0]);
      var r := Ensure(k1, Table(e, Pdx(p)));
      EnsureNeeds(k1, Table(e, Pdx(p)));
      LoadPageAlike(k, e, p, data);
      WordsInTurn(k, Ok(k1), r, {Entry(e, p)}, {Table(e, Pdx(p))});
      if r.Ok? { AlikeTakes(k, r.value, LoadPage(k, e, p, data).value, PageSlots(e, p), {}); }
    } else {
      NoFrameNoPage(k, e, p, data);
      WordsInTurn(k, Panic(NoFreeFrame), Panic(NoFreeFrame), {Entry(e, p)}, {Table(e, Pdx(p))});
    }
  }

  lemma NoFrameNoPage(k: Kernel, e: EnvId, p: Page, data: PageData)
    requires k.free == []
    ensures LoadPage(k, e, p, data).Panic?
  {
  }

  // ----- filing -----

  lemma PfAddNeeds(k: Kernel, e: EnvId, p: Page)
    ensures PfAdd(k, e, p).Ok? <==> Enough(k, FileSlots(e, p), {})
    ensures PfAdd(k, e, p).Ok? ==> var k' := PfAdd(k, e, p).value;
      && Added(k.words.Keys, |k.free|, k'.words.Keys, |k'.free|, FileSlots(e, p))
      && ((e, p) in k'.pf <==> Fits(k.pf.Keys, |k.diskFree|, {(e, p)}))
      && ((e, p) in k'.pf ==> Added(k.pf.Keys, |k.diskFree|, k'.pf.Keys, |k'.diskFree|, {(e, p)}))
  {
    hide Enough, Takes, Ensure, TakeDiskFrame, Added, Fits;
    var (d, t) := (DiskDirectory(e), DiskTable(e, Pdx(p)));
    EnsureNeeds(k, d);
    if Ensure(k, d).Ok? {
      var k1 := Ensure(k, d).value;
      EnsureNeeds(k1, t);
      WordsInTurn(k, Ok(k1), Ensure(k1, t), {d}, {t});
      if Ensure(k1, t).Ok? {
        EnsureEffect(k, d);
        EnsureEffect(k1, t);
        TakeDiskFrameNeeds(k, Ensure(k1, t).value, e, p);
      }
    } else {
      WordsInTurn(k, Ensure(k, d), Ensure(k, d), {d}, {t});
    }
  }

  lemma TakeDiskFrameNeeds(k: Kernel, k1: Kernel, e: EnvId, p: Page)
    requires k1.pf == k.pf && k1.diskFree == k.diskFree && Takes(k, k1, FileSlots(e, p), {})
    ensures var k' := TakeDiskFrame(k1, e, p);
      && Added(k.words.Keys, |k.free|, k'.words.Keys, |k'.free|, FileSlots(e, p))
      && ((e, p) in k'.pf <==> Fits(k.pf.Keys, |k.diskFree|, {(e, p)}))
      && ((e, p) in k'.pf ==> Added(k.pf.Keys, |k.diskFree|, k'.pf.Keys, |k'.diskFree|, {(e, p)}))
  {
    hide FileSlots;
    AddOne(k.pf.Keys, (e, p));
    TakeDiskFrameKeys(k1, e, p);
    hide TakeDiskFrame;
  }

  lemma TakeDiskFrameKeys(k: Kernel, e: EnvId, p: Page)
    ensures var k' := TakeDiskFrame(k, e, p);
      && k'.words == k.words && k'.free == k.free
      && ((e, p) in k'.pf <==> (e, p) in k.pf || k.diskFree != [])
      && ((e, p) in k'.pf ==> k'.pf.Keys == k.pf.Keys + {(e, p)})
      && ((e, p) in k'.pf ==> |k'.diskFree| + (if (e, p) in k.pf then 0 else 1) == |k.diskFree|)
  {
    var k' := TakeDiskFrame(k, e, p);
    if (e, p) in k'.pf { assert k'.pf.Keys == k.pf.Keys + {(e, p)}; }
  }

  /** pf_add_env_page followed by the loader's test for space. */
  function FileOrPanic(k: Kernel, e: EnvId, p: Page, data: PageData): Result<Kernel> {
    var k1 :- FilePage(k, e, p, data);
    if (e, p) in k1.pf then Ok(k1) else Panic(NoPageFileSpace)
  }

  lemma FileNeeds(k: Kernel, e: EnvId, p: Page, data: PageData)
    ensures FileOrPanic(k, e, p, data).Ok? <==> Enough(k, FileSlots(e, p), {(e, p)})
    ensures FileOrPanic(k, e, p, data).Ok? ==> Takes(k, FileOrPanic(k, e, p, data).value, FileSlots(e, p), {(e, p)})
  {
    hide PfAdd, Added, Fits;
    PfAddNeeds(k, e, p);
    AddNothing(k.pf.Keys, |k.diskFree|);
  }

  // ----- the loader's loops -----

  function LoadSlots(e: EnvId, p: Page, n: nat): set<Slot>
    decreases n
  {
    if n == 0 then {} else PageSlots(e, p) + LoadSlots(e, p + 1, n - 1)
  }

  function AllFileSlots(e: EnvId, pages: seq<Page>): set<Slot> {
    if pages == [] then {} else FileSlots(e, pages[0]) + AllFileSlots(e, pages[1..])
  }

  function FiledPages(e: EnvId, pages: seq<Page>): set<Filed> {
    if pages == [] then {} else {(e, pages[0])} + FiledPages(e, pages[1..])
  }

  function KernelOf(r: Result<(Lists, Kernel)>): Result<Kernel> {
    if r.Ok? then Ok(r.value.1) else Panic(r.why)
  }

  lemma {:induction false} LoadPagesNeed(l: Lists, k: Kernel, e: EnvId, p: Page, n: nat, image: map<Page, PageData>)
    requires forall q :: p <= q < p + n ==> !k.Mapped(e, q)
    ensures var r := LoadPages(l, k, e, p, n, image);
      && (r.Ok? <==> Enough(k, LoadSlots(e, p, n), {}))
      && (r.Ok? ==> Takes(k, r.value.1, LoadSlots(e, p, n), {}))
    decreases n
  {
    hide Enough, Takes, LoadPage, Enlist, PageSlots;
    if n == 0 {
      TakesNothing(k);
    } else {
      LoadPageNeeds(k, e, p, ImageOf(image, p));
      var r1 := LoadPage(k, e, p, ImageOf(image, p));
      var r2 := if r1.Ok? then LoadPages(Enlist(l, p), r1.value, e, p + 1, n - 1, image) else Panic(r1.why);
      if r1.Ok? {
        StillUnmapped(k, r1.value, e, p, n);
        LoadPagesNeed(Enlist(l, p), r1.value, e, p + 1, n - 1, image);
      }
      WordsInTurn(k, r1, KernelOf(r2), PageSlots(e, p), LoadSlots(e, p + 1, n - 1));
    }
  }

  lemma StillUnmapped(k: Kernel, k1: Kernel, e: EnvId, p: Page, n: nat)
    requires n > 0 && Takes(k, k1, PageSlots(e, p), {}) && forall q :: p <= q < p + n ==> !k.Mapped(e, q)
    ensures forall q :: p + 1 <= q < p + 1 + (n - 1) ==> !k1.Mapped(e, q)
  {
    assert k1.words.Keys == k.words.Keys + PageSlots(e, p);
    hide Takes;
    forall q | p + 1 <= q < p + 1 + (n - 1) ensures !k1.Mapped(e, q) {
      assert !k.Mapped(e, q) && Entry(e, q) !in PageSlots(e, p);
    }
  }

  lemma {:induction false} FileAllNeeds(k: Kernel, e: EnvId, pages: seq<Page>, image: map<Page, PageData>)
    ensures var r := FileAll(k, e, pages, image);
      && (r.Ok? <==> Enough(k, AllFileSlots(e, pages), FiledPages(e, pages)))
      && (r.Ok? ==> Takes(k, r.value, AllFileSlots(e, pages), FiledPages(e, pages)))
    decreases |pages|
  {
    hide Enough, Takes, FilePage, FileSlots;
    if pages == [] {
      TakesNothing(k);
    } else {
      var p, data := pages[0], ImageOf(image, pages[0]);
      FileNeeds(k, e, p, data);
      var r1 := FileOrPanic(k, e, p, data);
      var r2 := if r1.Ok? then FileAll(r1.value, e, pages[1..], image) else r1;
      if r1.Ok? { FileAllNeeds(r1.value, e, pages[1..], image); }
      InTurn(k, r1, r2, FileSlots(e, p), {(e, p)}, AllFileSlots(e, pages[1..]), FiledPages(e, pages[1..]));
    }
  }

  lemma TakesNothing(k: Kernel)
    ensures Takes(k, k, {}, {}) && Enough(k, {}, {})
  {
    AddNothing(k.words.Keys, |k.free|);
    AddNothing(k.pf.Keys, |k.diskFree|);
  }

  // ----- the whole program -----

  /** What the segments fill: a word and its table for each page put in memory, a disk table for each page filed. */
  function SegmentSlots(e: EnvId, g: seq<Segment>, remaining: nat, isTpp: bool): set<Slot>
    decreases |g|
  {
    if g == [] then {} else
    var n := LoadCount(g[0], remaining, isTpp);
    (LoadSlots(e, First(g[0]), n) + AllFileSlots(e, FilePages(g[0])))
      + SegmentSlots(e, g[1..], if n <= remaining then remaining - n else 0, isTpp)
  }

  function SegmentFiles(e: EnvId, g: seq<Segment>): set<Filed> {
    if g == [] then {} else FiledPages(e, FilePages(g[0])) + SegmentFiles(e, g[1..])
  }

  ghost predicate NoneMapped(k: Kernel, e: EnvId, g: seq<Segment>) {
    forall i, q: Page :: 0 <= i < |g| && First(g[i]) <= q < End(g[i]) ==> !k.Mapped(e, q)
  }

  lemma {:induction false} LoadSlotsAre(e: EnvId, p: Page, n: nat, q: Page)
    ensures Entry(e, q) in LoadSlots(e, p, n) <==> p <= q < p + n
    decreases n
  {
    if n > 0 { LoadSlotsAre(e, p + 1, n - 1, q); }
  }

  lemma {:induction false} FileSlotsAre(e: EnvId, pages: seq<Page>, q: Page)
    ensures Entry(e, q) !in AllFileSlots(e, pages)
    decreases |pages|
  {
    if pages != [] { FileSlotsAre(e, pages[1..], q); }
  }

  lemma SegmentNeeds(l: Lists, k: Kernel, e: EnvId, g: Segment, n: nat, image: map<Page, PageData>, filed: map<Page, PageData>)
    requires n == 0 || First(g) + n <= End(g)
    requires forall q: Page :: First(g) <= q < End(g) ==> !k.Mapped(e, q)
    ensures var (w, f) := (LoadSlots(e, First(g), n) + AllFileSlots(e, FilePages(g)), FiledPages(e, FilePages(g)));
      var r1 := LoadPages(l, k, e, First(g), n, image);
      var r2 := if r1.Ok? then FileAll(r1.value.1, e, FilePages(g), filed) else KernelOf(r1);
      && (r2.Ok? <==> Enough(k, w, f)) && (r2.Ok? ==> Takes(k, r2.value, w, f))
  {
    hide Enough, Takes, LoadPages, FileAll, FilePages, LoadSlots, AllFileSlots, FiledPages, First, End;
    var r1 := LoadPages(l, k, e, First(g), n, image);
    var r2 := if r1.Ok? then FileAll(r1.value.1, e, FilePages(g), filed) else KernelOf(r1);
    LoadPagesNeed(l, k, e, First(g), n, image);
    if r1.Ok? { FileAllNeeds(r1.value.1, e, FilePages(g), filed); }
    var none: set<Filed> := {};
    assert none + FiledPages(e, FilePages(g)) == FiledPages(e, FilePages(g));
    InTurn(k, KernelOf(r1), r2, LoadSlots(e, First(g), n), none, AllFileSlots(e, FilePages(g)), FiledPages(e, FilePages(g)));
  }

  lemma {:induction false} SegmentsNeed(l: Lists, k: Kernel, e: EnvId, g: seq<Segment>, remaining: nat, prog: Program)
    requires GoodProgram(g) && NoneMapped(k, e, g)
    ensures var r := LoadSegments(l, k, e, g, remaining, prog);
      var (w, f) := (SegmentSlots(e, g, remaining, prog.isTpp), SegmentFiles(e, g));
      && (r.Ok? <==> Enough(k, w, f)) && (r.Ok? ==> Takes(k, r.value.1, w, f))
    decreases |g|
  {
    hide Enough, Takes, LoadPages, FileAll, FilePages, LoadSlots, AllFileSlots, FiledPages, First, End, LoadCount,
      GoodProgram, NoneMapped;
    if g == [] {
      TakesNothing(k);
    } else {
      var n := LoadCount(g[0], remaining, prog.isTpp);
      LoadCountFits(g[0], remaining, prog.isTpp);
      assert forall q: Page :: First(g[0]) <= q < End(g[0]) ==> !k.Mapped(e, q) by { FirstUnmapped(k, e, g); }
      SegmentNeeds(l, k, e, g[0], n, prog.image, prog.filed);
      var r1 := LoadPages(l, k, e, First(g[0]), n, prog.image);
      var r2 := if r1.Ok? then FileAll(r1.value.1, e, FilePages(g[0]), prog.filed) else KernelOf(r1);
      var r3 := if r2.Ok? then LoadSegments(r1.value.0, r2.value, e, g[1..], remaining - n, prog) else Panic(NoFreeFrame);
      if r2.Ok? {
        RestUnmapped(k, r2.value, e, g, n);
        SegmentsNeed(r1.value.0, r2.value, e, g[1..], remaining - n, prog);
      }
      InTurn(k, r2, KernelOf(r3), LoadSlots(e, First(g[0]), n) + AllFileSlots(e, FilePages(g[0])), FiledPages(e, FilePages(g[0])),
             SegmentSlots(e, g[1..], remaining - n, prog.isTpp), SegmentFiles(e, g[1..]));
    }
  }

  lemma LoadCountFits(g: Segment, remaining: nat, isTpp: bool)
    ensures var n := LoadCount(g, remaining, isTpp); n <= remaining && (n == 0 || First(g) + n <= End(g))
  {
  }

  lemma FirstUnmapped(k: Kernel, e: EnvId, g: seq<Segment>)
    requires g != [] && NoneMapped(k, e, g)
    ensures forall q: Page :: First(g[0]) <= q < End(g[0]) ==> !k.Mapped(e, q)
  {
    hide First, End;
  }

  lemma RestUnmapped(k: Kernel, k1: Kernel, e: EnvId, g: seq<Segment>, n: nat)
    requires g != [] && GoodProgram(g) && NoneMapped(k, e, g) && (n == 0 || First(g[0]) + n <= End(g[0]))
    requires Takes(k, k1, LoadSlots(e, First(g[0]), n) + AllFileSlots(e, FilePages(g[0])), FiledPages(e, FilePages(g[0])))
    ensures GoodProgram(g[1..]) && NoneMapped(k1, e, g[1..])
  {
    hide Takes, LoadSlots, AllFileSlots, FilePages, First, End, GoodSegment, Apart, NoneMapped;
    TakesKeys(k, k1, LoadSlots(e, First(g[0]), n) + AllFileSlots(e, FilePages(g[0])), FiledPages(e, FilePages(g[0])));
    assert NoneMapped(k1, e, g[1..]) by {
      hide GoodProgram;
      RestEach(k, k1, e, g, n);
    }
  }

  lemma TakesKeys(k: Kernel, k1: Kernel, w: set<Slot>, f: set<Filed>)
    requires Takes(k, k1, w, f)
    ensures k1.words.Keys == k.words.Keys + w
  {
  }

  lemma RestEach(k: Kernel, k1: Kernel, e: EnvId, g: seq<Segment>, n: nat)
    requires g != [] && GoodProgram(g) && NoneMapped(k, e, g) && (n == 0 || First(g[0]) + n <= End(g[0]))
    requires k1.words.Keys == k.words.Keys + (LoadSlots(e, First(g[0]), n) + AllFileSlots(e, FilePages(g[0])))
    ensures NoneMapped(k1, e, g[1..])
  {
    hide LoadSlots, AllFileSlots, FilePages, First, End, GoodSegment;
    forall i, q: Page | 0 <= i < |g[1..]| && First(g[1..][i]) <= q < End(g[1..][i]) ensures !k1.Mapped(e, q) {
      assert g[1..][i] == g[i + 1] && Apart(g[0], g[i + 1]) && !k.Mapped(e, q);
      LoadSlotsAre(e, First(g[0]), n, q);
      FileSlotsAre(e, FilePages(g[0]), q);
    }
  }

  function LoadedSlots(e: EnvId, size: nat, prog: Program): set<Slot> {
    {Directory(e)} + SegmentSlots(e, prog.segments, if size > 0 then size - 1 else 0, prog.isTpp)
  }

  function StackSlots(e: EnvId): set<Slot> { PageSlots(e, STACK_PAGE) + FileSlots(e, STACK_PAGE) }

  /** Every word a new environment fills. */
  function CreateSlots(e: EnvId, size: nat, prog: Program): set<Slot> { LoadedSlots(e, size, prog) + StackSlots(e) }

  lemma FilePageSpends(k: Kernel, e: EnvId, p: Page, data: PageData)
    ensures var r := FilePage(k, e, p, data);
      && (r.Ok? <==> Fits(k.words.Keys, |k.free|, FileSlots(e, p)))
      && (r.Ok? ==> Added(k.words.Keys, |k.free|, r.value.words.Keys, |r.value.free|, FileSlots(e, p)))
      && (r.Ok? ==> |r.value.diskFree| + 1 >= |k.diskFree| && Filed1(k, r.value, e, p))
  {
    hide PfAdd, Added, Fits, FileSlots;
    PfAddNeeds(k, e, p);
    AddNothing(k.pf.Keys, |k.diskFree|);
    if PfAdd(k, e, p).Ok? {
      PfAddSpace(k, e, p);
      PfAddFiled(k, e, p);
    }
  }

  /** p has an entry now, or there was no disk frame for one. */
  ghost predicate Filed1(k: Kernel, k': Kernel, e: EnvId, p: Page) {
    k'.pf.Keys == k.pf.Keys + {(e, p)} || (k'.pf.Keys == k.pf.Keys && k.diskFree == [])
  }

  lemma PfAddFiled(k: Kernel, e: EnvId, p: Page)
    requires PfAdd(k, e, p).Ok?
    ensures Filed1(k, PfAdd(k, e, p).value, e, p)
  {
    var (d, t) := (DiskDirectory(e), DiskTable(e, Pdx(p)));
    EnsureEffect(k, d);
    var k1 := Ensure(k, d).value;
    EnsureEffect(k1, t);
    TakeDiskFrameKeys(Ensure(k1, t).value, e, p);
    TakeDiskFrameNone(Ensure(k1, t).value, e, p);
    hide Ensure, TakeDiskFrame;
  }

  lemma TakeDiskFrameNone(k: Kernel, e: EnvId, p: Page)
    ensures (e, p) !in TakeDiskFrame(k, e, p).pf ==> TakeDiskFrame(k, e, p).pf == k.pf
  {
  }

  lemma LoadPageSpends(k: Kernel, e: EnvId, p: Page, data: PageData)
    requires !k.Mapped(e, p)
    ensures var r := LoadPage(k, e, p, data);
      && (r.Ok? <==> Fits(k.words.Keys, |k.free|, PageSlots(e, p)))
      && (r.Ok? ==> Added(k.words.Keys, |k.free|, r.value.words.Keys, |r.value.free|, PageSlots(e, p)))
      && (r.Ok? ==> r.value.diskFree == k.diskFree && r.value.pf == k.pf)
  {
    LoadPageNeeds(k, e, p, data);
    AddNothing(k.pf.Keys, |k.diskFree|);
    if LoadPage(k, e, p, data).Ok? { LoadPageDisk(k, e, p, data); }
    hide LoadPage, Added, Fits, PageSlots;
  }

  lemma LoadPageDisk(k: Kernel, e: EnvId, p: Page, data: PageData)
    requires LoadPage(k, e, p, data).Ok?
    ensures LoadPage(k, e, p, data).value.diskFree == k.diskFree && LoadPage(k, e, p, data).value.pf == k.pf
  {
  }

  /** The stack page's entry is made when a disk frame is left, and forgotten when not. */
  lemma StackNeeds(l: Lists, k: Kernel, e: EnvId, image: map<Page, PageData>)
    requires !k.Mapped(e, STACK_PAGE)
    ensures var (r, w) := (LoadStack(l, k, e, image), StackSlots(e));
      && (r.Ok? <==> Fits(k.words.Keys, |k.free|, w))
      && (r.Ok? ==> Added(k.words.Keys, |k.free|, r.value.1.words.Keys, |r.value.1.free|, w))
      && (r.Ok? ==> |r.value.1.diskFree| + 1 >= |k.diskFree| && Filed1(k, r.value.1, e, STACK_PAGE))
  {
    hide LoadPage, FilePage, Added, Fits, PageSlots, FileSlots;
    var (v, w) := (PageSlots(e, STACK_PAGE), FileSlots(e, STACK_PAGE));
    LoadPageSpends(k, e, STACK_PAGE, Blank());
    var r1 := LoadPage(k, e, STACK_PAGE, Blank());
    if r1.Ok? {
      var k2 := SetModified(r1.value, e, STACK_PAGE, true);
      assert k2.words.Keys == r1.value.words.Keys;
      FilePageSpends(k2, e, STACK_PAGE, ImageOf(image, STACK_PAGE));
      FitsAfter(k.words.Keys, |k.free|, k2.words.Keys, |k2.free|, v, w);
      var r2 := FilePage(k2, e, STACK_PAGE, ImageOf(image, STACK_PAGE));
      if r2.Ok? { AddedTwice(k.words.Keys, |k.free|, k2.words.Keys, |k2.free|, r2.value.words.Keys, |r2.value.free|, v, w); }
    } else if Fits(k.words.Keys, |k.free|, v + w) {
      FitsFirst(k.words.Keys, |k.free|, v, w);
    }
  }

  lemma {:induction false} SlotsOf(e: EnvId, g: seq<Segment>, remaining: nat, isTpp: bool)
    requires GoodProgram(g)
    ensures forall s :: s in SegmentSlots(e, g, remaining, isTpp) ==> s.env == e && s != Entry(e, STACK_PAGE)
    ensures forall x :: x in SegmentFiles(e, g) ==> x.0 == e
    decreases |g|
  {
    hide LoadSlots, AllFileSlots, FiledPages, FilePages, LoadCount, First, End;
    if g != [] {
      var n := LoadCount(g[0], remaining, isTpp);
      LoadCountFits(g[0], remaining, isTpp);
      LoadSlotsOf(e, First(g[0]), n);
      FileSlotsOf(e, FilePages(g[0]));
      LoadSlotsAre(e, First(g[0]), n, STACK_PAGE);
      FileSlotsAre(e, FilePages(g[0]), STACK_PAGE);
      assert GoodSegment(g[0]);
      assert First(g[0]) <= STACK_PAGE < End(g[0]) ==> !UserPage(STACK_PAGE);
      SlotsOf(e, g[1..], remaining - n, isTpp);
    }
  }

  lemma {:induction false} LoadSlotsOf(e: EnvId, p: Page, n: nat)
    ensures forall s :: s in LoadSlots(e, p, n) ==> s.env == e
    decreases n
  {
    if n > 0 { LoadSlotsOf(e, p + 1, n - 1); }
  }

  lemma {:induction false} FileSlotsOf(e: EnvId, pages: seq<Page>)
    ensures forall s :: s in AllFileSlots(e, pages) ==> s.env == e
    ensures forall x :: x in FiledPages(e, pages) ==> x.0 == e
    decreases |pages|
  {
    if pages != [] { FileSlotsOf(e, pages[1..]); }
  }

  lemma AllNew<T>(have: set<T>, w: set<T>)
    requires have !! w
    ensures New(have, w) == |w|
  {
    assert w - have == w;
  }

  /** Everything a fresh environment takes is new. */
  lemma Fresh(k: Kernel, e: EnvId, size: nat, prog: Program)
    requires GoodProgram(prog.segments) && forall s :: s in k.words ==> s.env != e
    ensures New(k.words.Keys, CreateSlots(e, size, prog)) == |CreateSlots(e, size, prog)|
  {
    hide GoodProgram, SegmentSlots, SegmentFiles;
    SlotsOf(e, prog.segments, if size > 0 then size - 1 else 0, prog.isTpp);
    assert forall s :: s in CreateSlots(e, size, prog) ==> s.env == e;
    hide CreateSlots;
    AllNew(k.words.Keys, CreateSlots(e, size, prog));
  }

  lemma FreshFiles(k: Kernel, e: EnvId, g: seq<Segment>)
    requires GoodProgram(g) && forall x :: x in k.pf ==> x.0 != e
    ensures New(k.pf.Keys, SegmentFiles(e, g)) == |SegmentFiles(e, g)|
  {
    hide GoodProgram, SegmentSlots, SegmentFiles;
    SlotsOf(e, g, 0, false);
    AllNew(k.pf.Keys, SegmentFiles(e, g));
  }

  /** The directory, the segments, the stack, and hiding SecondList's pages. */
  function SegmentsLoaded(k: Kernel, e: EnvId, a: nat, m: nat, prog: Program): Result<(Lists, Kernel)> {
    var k0 :- Ensure(k, Directory(e));
    LoadSegments(Lists(a, m, [], []), k0, e, prog.segments, if a + m > 0 then a + m - 1 else 0, prog)
  }

  lemma {:induction false} HidePagesCount(k: Kernel, e: EnvId, pages: seq<Page>)
    ensures var k' := HidePages(k, e, pages);
      k'.free == k.free && k'.diskFree == k.diskFree && k'.pf == k.pf && k'.words.Keys == k.words.Keys
    decreases |pages|
  {
    if pages != [] {
      var k1 := SetPresent(k, e, pages[0], false);
      assert k1.words.Keys == k.words.Keys;
      HidePagesCount(k1, e, pages[1..]);
    }
  }

  lemma CreateInParts(k: Kernel, e: EnvId, a: nat, m: nat, prog: Program)
    requires a + m > 0
    ensures var (r, r1) := (EnvCreate.EnvCreate(k, e, a, m, prog), SegmentsLoaded(k, e, a, m, prog));
      && (r.Ok? <==> r1.Ok? && LoadStack(r1.value.0, r1.value.1, e, prog.filed).Ok?)
      && (r.Ok? ==> var k2 := LoadStack(r1.value.0, r1.value.1, e, prog.filed).value.1;
            && r.value.1.free == k2.free && r.value.1.diskFree == k2.diskFree
            && r.value.1.pf == k2.pf && r.value.1.words.Keys == k2.words.Keys)
  {
    hide LoadSegments, LoadStack, Ensure, HidePages;
    var r1 := SegmentsLoaded(k, e, a, m, prog);
    if r1.Ok? && LoadStack(r1.value.0, r1.value.1, e, prog.filed).Ok? {
      var (l2, k2) := LoadStack(r1.value.0, r1.value.1, e, prog.filed).value;
      HidePagesCount(k2, e, l2.second);
    }
  }

  /** The directory and the segments. */
  lemma LoadedNeeds(k: Kernel, e: EnvId, a: nat, m: nat, prog: Program)
    requires GoodProgram(prog.segments) && a + m > 0 && forall s :: s in k.words ==> s.env != e
    ensures var (w, f) := (LoadedSlots(e, a + m, prog), SegmentFiles(e, prog.segments));
      var r1 := SegmentsLoaded(k, e, a, m, prog);
      && (r1.Ok? <==> Enough(k, w, f))
      && (r1.Ok? ==> Takes(k, r1.value.1, w, f) && !r1.value.1.Mapped(e, STACK_PAGE))
  {
    hide GoodProgram, LoadSegments, Ensure, Enough, Takes, SegmentSlots, SegmentFiles, First, End;
    var r0 := Ensure(k, Directory(e));
    var r1 := SegmentsLoaded(k, e, a, m, prog);
    var (v, f) := (SegmentSlots(e, prog.segments, a + m - 1, prog.isTpp), SegmentFiles(e, prog.segments));
    EnsureNeeds(k, Directory(e));
    if r0.Ok? {
      EnsureEffect(k, Directory(e));
      SegmentsNeed(Lists(a, m, [], []), r0.value, e, prog.segments, a + m - 1, prog);
    }
    var none: set<Filed> := {};
    assert none + f == f;
    InTurn(k, r0, KernelOf(r1), {Directory(e)}, none, v, f);
    if r1.Ok? {
      SlotsOf(e, prog.segments, a + m - 1, prog.isTpp);
      TakesKeys(k, r1.value.1, {Directory(e)} + v, f);
    }
  }

  lemma StackAfter(k: Kernel, k1: Kernel, l1: Lists, e: EnvId, image: map<Page, PageData>, w: set<Slot>, f: set<Filed>)
    requires Takes(k, k1, w, f) && !k1.Mapped(e, STACK_PAGE)
    ensures var (r, v) := (LoadStack(l1, k1, e, image), w + StackSlots(e));
      && (r.Ok? <==> New(k.words.Keys, v) <= |k.free|)
      && (r.Ok? ==> |r.value.1.free| == |k.free| - New(k.words.Keys, v))
      && (r.Ok? ==> |r.value.1.diskFree| >= |k.diskFree| - New(k.pf.Keys, f) - 1)
      && (r.Ok? ==> r.value.1.words.Keys == k.words.Keys + v)
      && (r.Ok? ==> r.value.1.pf.Keys == k.pf.Keys + f + {(e, STACK_PAGE)}
                    || (r.value.1.pf.Keys == k.pf.Keys + f && |k.diskFree| == New(k.pf.Keys, f)))
  {
    hide LoadStack, StackSlots, New;
    StackNeeds(l1, k1, e, image);
    CountTwice(k.words.Keys, w, StackSlots(e));
  }

  /**
   * env_create of a program panics if and only if the working set is empty, or there are fewer free
   * frames than words to fill, or fewer free disk frames than different pages to file: each table is
   * counted once, however many pages share it. It takes exactly these frames.
   */
  lemma CreateOkIff(k: Kernel, e: EnvId, a: nat, m: nat, prog: Program)
    requires GoodProgram(prog.segments)
    requires forall s :: s in k.words ==> s.env != e
    requires forall x :: x in k.pf ==> x.0 != e
    ensures var r := EnvCreate.EnvCreate(k, e, a, m, prog);
      && (r.Ok? <==> a + m > 0 && |CreateSlots(e, a + m, prog)| <= |k.free|
                     && |SegmentFiles(e, prog.segments)| <= |k.diskFree|)
      && (r.Ok? ==> |r.value.1.free| == |k.free| - |CreateSlots(e, a + m, prog)|)
      && (r.Ok? ==> |r.value.1.diskFree| >= |k.diskFree| - |SegmentFiles(e, prog.segments)| - 1)
  {
    hide LoadStack, EnvCreate.EnvCreate, CreateSlots, LoadedSlots, StackSlots, SegmentFiles, GoodProgram, Takes, SegmentsLoaded, Enough,
      New;
    if a + m > 0 {
      var (w, f) := (LoadedSlots(e, a + m, prog), SegmentFiles(e, prog.segments));
      Fresh(k, e, a + m, prog);
      FreshFiles(k, e, prog.segments);
      SlotsInParts(k, e, a + m, prog);
      LoadedNeeds(k, e, a, m, prog);
      EnoughIs(k, w, f);
      CreateInParts(k, e, a, m, prog);
      var r1 := SegmentsLoaded(k, e, a, m, prog);
      if r1.Ok? { StackAfter(k, r1.value.1, r1.value.0, e, prog.filed, w, f); }
    } else {
      EmptySetPanics(k, e, prog);
    }
  }

  /** What it fills and files, with a disk frame left for the stack page: these words, these pages and that page. */
  lemma CreateTakes(k: Kernel, e: EnvId, a: nat, m: nat, prog: Program)
    requires GoodProgram(prog.segments) && EnvCreate.EnvCreate(k, e, a, m, prog).Ok?
    requires forall s :: s in k.words ==> s.env != e
    requires forall x :: x in k.pf ==> x.0 != e
    requires |SegmentFiles(e, prog.segments)| < |k.diskFree|
    ensures var k' := EnvCreate.EnvCreate(k, e, a, m, prog).value.1;
      && k'.words.Keys == k.words.Keys + CreateSlots(e, a + m, prog)
      && k'.pf.Keys == k.pf.Keys + SegmentFiles(e, prog.segments) + {(e, STACK_PAGE)}
  {
    hide LoadStack, EnvCreate.EnvCreate, CreateSlots, LoadedSlots, StackSlots, SegmentFiles, GoodProgram, Takes, SegmentsLoaded, Enough,
      New;
    assert a + m > 0 by { EmptySetPanics(k, e, prog); }
    FreshFiles(k, e, prog.segments);
    SlotsInParts(k, e, a + m, prog);
    LoadedNeeds(k, e, a, m, prog);
    CreateInParts(k, e, a, m, prog);
    var r1 := SegmentsLoaded(k, e, a, m, prog);
    StackAfter(k, r1.value.1, r1.value.0, e, prog.filed, LoadedSlots(e, a + m, prog), SegmentFiles(e, prog.segments));
  }

  lemma SlotsInParts(k: Kernel, e: EnvId, size: nat, prog: Program)
    ensures CreateSlots(e, size, prog) == LoadedSlots(e, size, prog) + StackSlots(e)
    ensures New(k.words.Keys, LoadedSlots(e, size, prog)) <= New(k.words.Keys, CreateSlots(e, size, prog))
  {
    hide LoadedSlots, StackSlots, New;
    CountTwice(k.words.Keys, LoadedSlots(e, size, prog), StackSlots(e));
  }

  lemma EmptySetPanics(k: Kernel, e: EnvId, prog: Program)
    ensures EnvCreate.EnvCreate(k, e, 0, 0, prog).Panic?
  {
  }

  lemma EnoughIs(k: Kernel, w: set<Slot>, f: set<Filed>)
    ensures Enough(k, w, f) <==> New(k.words.Keys, w) <= |k.free| && New(k.pf.Keys, f) <= |k.diskFree|
  {
  }

  /** A program of no segments: the directory, and the stack page's entry, table, disk directory and disk table. */
  lemma StackOnly(e: EnvId, size: nat, prog: Program)
    requires prog.segments == []
    ensures |CreateSlots(e, size, prog)| == 5 && SegmentFiles(e, prog.segments) == {}
  {
    assert CreateSlots(e, size, prog) == {Directory(e), Entry(e, STACK_PAGE), Table(e, Pdx(STACK_PAGE)), DiskDirectory(e),
                                          DiskTable(e, Pdx(STACK_PAGE))};
  }

  // ----- what the words and pages are -----

  ghost predicate TableIff(e: EnvId, w: set<Slot>, d: nat) {
    Table(e, d) in w <==> exists q: Page :: Entry(e, q) in w && Pdx(q) == d
  }

  ghost predicate DiskTableIff(e: EnvId, w: set<Slot>, f: set<Filed>, d: nat) {
    DiskTable(e, d) in w <==> exists q: Page :: (e, q) in f && Pdx(q) == d
  }

  lemma JoinTables(e: EnvId, w: set<Slot>, v: set<Slot>, d: nat)
    requires TableIff(e, w, d) && TableIff(e, v, d)
    ensures TableIff(e, w + v, d)
  {
  }

  lemma JoinDiskTables(e: EnvId, w: set<Slot>, f: set<Filed>, v: set<Slot>, g: set<Filed>, d: nat)
    requires DiskTableIff(e, w, f, d) && DiskTableIff(e, v, g, d)
    ensures DiskTableIff(e, w + v, f + g, d)
  {
  }

  lemma PageTables(e: EnvId, p: Page, d: nat)
    ensures TableIff(e, PageSlots(e, p), d) && TableIff(e, FileSlots(e, p), d)
    ensures DiskTableIff(e, PageSlots(e, p), {}, d) && DiskTableIff(e, FileSlots(e, p), {(e, p)}, d)
  {
    assert Entry(e, p) in PageSlots(e, p);
    assert (e, p) in {(e, p)};
  }

  lemma {:induction false} LoadTables(e: EnvId, p: Page, n: nat, d: nat)
    ensures TableIff(e, LoadSlots(e, p, n), d) && DiskTableIff(e, LoadSlots(e, p, n), {}, d)
    decreases n
  {
    hide TableIff, DiskTableIff, PageSlots, FileSlots;
    NoTables(e, d);
    if n > 0 {
      PageTables(e, p, d);
      LoadTables(e, p + 1, n - 1, d);
      JoinTables(e, PageSlots(e, p), LoadSlots(e, p + 1, n - 1), d);
      JoinDiskTables(e, PageSlots(e, p), {}, LoadSlots(e, p + 1, n - 1), {}, d);
      var none: set<Filed> := {};
      assert none + none == none;
    }
  }

  lemma NoTables(e: EnvId, d: nat)
    ensures TableIff(e, {}, d) && DiskTableIff(e, {}, {}, d) && TableIff(e, {Directory(e)}, d) && DiskTableIff(e, {Directory(e)}, {}, d)
  {
  }

  lemma {:induction false} FileTables(e: EnvId, pages: seq<Page>, d: nat)
    ensures TableIff(e, AllFileSlots(e, pages), d) && DiskTableIff(e, AllFileSlots(e, pages), FiledPages(e, pages), d)
    decreases |pages|
  {
    hide TableIff, DiskTableIff, PageSlots, FileSlots;
    NoTables(e, d);
    if pages != [] {
      PageTables(e, pages[0], d);
      FileTables(e, pages[1..], d);
      JoinTables(e, FileSlots(e, pages[0]), AllFileSlots(e, pages[1..]), d);
      JoinDiskTables(e, FileSlots(e, pages[0]), {(e, pages[0])}, AllFileSlots(e, pages[1..]), FiledPages(e, pages[1..]), d);
    }
  }

  lemma {:induction false} SegmentTables(e: EnvId, g: seq<Segment>, remaining: nat, isTpp: bool, d: nat)
    ensures TableIff(e, SegmentSlots(e, g, remaining, isTpp), d)
    ensures DiskTableIff(e, SegmentSlots(e, g, remaining, isTpp), SegmentFiles(e, g), d)
    decreases |g|
  {
    hide TableIff, DiskTableIff, LoadSlots, AllFileSlots, FiledPages, FilePages, LoadCount, First;
    NoTables(e, d);
    if g != [] {
      var n := LoadCount(g[0], remaining, isTpp);
      var rest := if n <= remaining then remaining - n else 0;
      var (w, v, f) := (LoadSlots(e, First(g[0]), n), AllFileSlots(e, FilePages(g[0])), FiledPages(e, FilePages(g[0])));
      LoadTables(e, First(g[0]), n, d);
      FileTables(e, FilePages(g[0]), d);
      SegmentTables(e, g[1..], rest, isTpp, d);
      JoinTables(e, w, v, d);
      JoinDiskTables(e, w, {}, v, f, d);
      var none: set<Filed> := {};
      assert none + f == f;
      JoinTables(e, w + v, SegmentSlots(e, g[1..], rest, isTpp), d);
      JoinDiskTables(e, w + v, f, SegmentSlots(e, g[1..], rest, isTpp), SegmentFiles(e, g[1..]), d);
    }
  }

  /** A page table for exactly the tables of the pages put in memory, a disk table for exactly those of the pages filed. */
  lemma CreateTables(e: EnvId, size: nat, prog: Program, d: nat)
    ensures TableIff(e, CreateSlots(e, size, prog), d)
    ensures DiskTableIff(e, CreateSlots(e, size, prog), SegmentFiles(e, prog.segments) + {(e, STACK_PAGE)}, d)
  {
    hide TableIff, DiskTableIff, SegmentSlots, SegmentFiles, PageSlots, FileSlots;
    var (w, f) := (SegmentSlots(e, prog.segments, if size > 0 then size - 1 else 0, prog.isTpp), SegmentFiles(e, prog.segments));
    var none: set<Filed> := {};
    NoTables(e, d);
    SegmentTables(e, prog.segments, if size > 0 then size - 1 else 0, prog.isTpp, d);
    PageTables(e, STACK_PAGE, d);
    JoinTables(e, {Directory(e)}, w, d);
    JoinDiskTables(e, {Directory(e)}, none, w, f, d);
    JoinTables(e, PageSlots(e, STACK_PAGE), FileSlots(e, STACK_PAGE), d);
    JoinDiskTables(e, PageSlots(e, STACK_PAGE), none, FileSlots(e, STACK_PAGE), {(e, STACK_PAGE)}, d);
    JoinTables(e, LoadedSlots(e, size, prog), StackSlots(e), d);
    assert none + f == f && none + {(e, STACK_PAGE)} == {(e, STACK_PAGE)};
    JoinDiskTables(e, LoadedSlots(e, size, prog), f, StackSlots(e), {(e, STACK_PAGE)}, d);
  }

  /** The pages filed are those of the segments. */
  lemma {:induction false} SegmentFilesAre(e: EnvId, g: seq<Segment>, p: Page)
    ensures (e, p) in SegmentFiles(e, g) <==> exists i :: 0 <= i < |g| && p in FilePages(g[i])
    decreases |g|
  {
    hide FilePages;
    if g != [] {
      FiledPagesAre(e, FilePages(g[0]), p);
      SegmentFilesAre(e, g[1..], p);
      if i :| 0 <= i < |g| && p in FilePages(g[i]) {
        if i > 0 { assert p in FilePages(g[1..][i - 1]); }
      }
      if j :| 0 <= j < |g[1..]| && p in FilePages(g[1..][j]) { assert p in FilePages(g[j + 1]); }
    }
  }

  lemma {:induction false} FiledPagesAre(e: EnvId, pages: seq<Page>, p: Page)
    ensures (e, p) in FiledPages(e, pages) <==> p in pages
    decreases |pages|
  {
    if pages != [] {
      assert pages == [pages[0]] + pages[1..];
      FiledPagesAre(e, pages[1..], p);
    }
  }
}
