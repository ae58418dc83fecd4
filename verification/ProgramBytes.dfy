/**
 * What a new program finds in its pages: the bytes of its file, wherever env_create put the page,
 * and zeros on its stack.
 */
module ProgramBytes {
  import opened Sequences
  import opened TwoLists
  import opened KernelState
  import opened Paging
  import opened EnvCreate

  /** Byte o of page p comes from the program's file. */
  predicate FileByte(g: seq<Segment>, p: Page, o: nat) {
    exists i :: 0 <= i < |g| && g[i].va <= p * 4096 + o < g[i].va + g[i].fileSize
  }

  function AllFilePages(g: seq<Segment>): seq<Page> {
    if g == [] then [] else FilePages(g[0]) + AllFilePages(g[1..])
  }

  /**
   * The bytes a new environment starts with: its program's, where the page in memory and the page on
   * disk have the same, and those of its first stack page.
   */
  function InitialBytes(e: EnvId, prog: Program): (h: Stores)
    ensures forall x :: x in h ==> x.0 == e && x.2 < PAGE_SIZE
  {
    (map p: Page, o: nat | p in AllFilePages(prog.segments) && o < PAGE_SIZE && FileByte(prog.segments, p, o)
                         && ImageOf(prog.image, p)[o] == ImageOf(prog.filed, p)[o] ::
      (e, p, o) := ImageOf(prog.image, p)[o])
    + (map o: nat | o < PAGE_SIZE :: (e, STACK_PAGE, o) := 0)
  }

  ghost predicate DiskImaged(k: Kernel, e: EnvId, filed: map<Page, PageData>) {
    forall p: Page :: (e, p) in k.pf ==> k.Disk(k.pf[(e, p)]) == ImageOf(filed, p)
  }

  ghost predicate FrameImaged(k: Kernel, e: EnvId, p: Page, image: map<Page, PageData>) {
    k.Mapped(e, p) ==> !k.words[Entry(e, p)].modified && k.Ram(k.words[Entry(e, p)].frame) == ImageOf(image, p)
  }

  /** Each page of e holds its image, unmodified in its frame and on disk. */
  ghost predicate Imaged(k: Kernel, e: EnvId, image: map<Page, PageData>, filed: map<Page, PageData>) {
    DiskImaged(k, e, filed) && forall p: Page :: FrameImaged(k, e, p, image)
  }

  lemma LoadPageImaged(k: Kernel, e: EnvId, p: Page, image: map<Page, PageData>, filed: map<Page, PageData>)
    requires Owned(k) && Imaged(k, e, image, filed) && !k.Mapped(e, p) && LoadPage(k, e, p, ImageOf(image, p)).Ok?
    ensures Imaged(LoadPage(k, e, p, ImageOf(image, p)).value, e, image, filed)
  {
    LoadPageOthers(k, e, p, ImageOf(image, p), image, filed);
    LoadPageEntry(k, e, p, ImageOf(image, p));
    hide LoadPage, ImageOf;
  }

  lemma LoadPageOthers(k: Kernel, e: EnvId, p: Page, data: PageData, image: map<Page, PageData>, filed: map<Page, PageData>)
    requires Owned(k) && Imaged(k, e, image, filed) && !k.Mapped(e, p) && LoadPage(k, e, p, data).Ok?
    ensures var k' := LoadPage(k, e, p, data).value;
      DiskImaged(k', e, filed) && forall q: Page :: q != p ==> FrameImaged(k', e, q, image)
  {
    var k' := LoadPage(k, e, p, data).value;
    LoadPageWords(k, e, p, data);
    LoadPageEntry(k, e, p, data);
    hide LoadPage, ImageOf;
    forall q: Page | q != p ensures FrameImaged(k', e, q, image) {
      assert FrameImaged(k, e, q, image);
      if k'.Mapped(e, q) { assert Entry(e, q) in k.words && k.words[Entry(e, q)].frame !in k.free; }
    }
  }

  lemma LoadPageEntry(k: Kernel, e: EnvId, p: Page, data: PageData)
    requires LoadPage(k, e, p, data).Ok?
    ensures var k' := LoadPage(k, e, p, data).value;
      && k'.Mapped(e, p) && !k'.words[Entry(e, p)].modified && k'.Ram(k'.words[Entry(e, p)].frame) == data
      && k'.disk == k.disk && k'.pf == k.pf
  {
    var (k1, f) := AllocateFrame(k).value;
    EnsureEffect(k1, Table(e, Pdx(p)));
  }

  lemma FilePageImaged(k: Kernel, e: EnvId, p: Page, image: map<Page, PageData>)
    requires Owned(k) && DiskImaged(k, e, image) && FilePage(k, e, p, ImageOf(image, p)).Ok?
    requires (e, p) in k.pf || k.diskFree != []
    ensures var k' := FilePage(k, e, p, ImageOf(image, p)).value;
      DiskImaged(k', e, image) && SameEntries(k, k', e) && forall x :: x in k.pf ==> x in k'.pf
  {
    hide FilePage, ImageOf, FramesOwned, Accounted, DiskAccounted, DiskImaged, SameEntries;
    var k' := FilePage(k, e, p, ImageOf(image, p)).value;
    FilePageWords(k, e, p, ImageOf(image, p));
    FilePageOwned(k, e, p, ImageOf(image, p));
    FilePageEntry(k, e, p, ImageOf(image, p));
    FiledEntries(k, k', e, p);
    FiledDisk(k, k', e, p, image);
  }

  lemma FiledEntries(k: Kernel, k': Kernel, e: EnvId, p: Page)
    requires FiledWords(k, k', e, p)
    ensures SameEntries(k, k', e) && forall x :: x in k.pf ==> x in k'.pf
  {
  }

  lemma FiledDisk(k: Kernel, k': Kernel, e: EnvId, p: Page, image: map<Page, PageData>)
    requires FiledWords(k, k', e, p) && DiskOwned(k') && DiskImaged(k, e, image)
    requires forall d :: d != k'.pf[(e, p)] ==> k'.Disk(d) == k.Disk(d)
    requires k'.Disk(k'.pf[(e, p)]) == ImageOf(image, p)
    ensures DiskImaged(k', e, image)
  {
    hide ImageOf;
    forall q: Page | (e, q) in k'.pf ensures k'.Disk(k'.pf[(e, q)]) == ImageOf(image, q) {
      if q != p { assert (e, q) in k.pf && k'.pf[(e, q)] != k'.pf[(e, p)]; }
    }
  }

  ghost predicate SameEntries(k: Kernel, k': Kernel, e: EnvId) {
    && k'.ram == k.ram
    && (forall p: Page :: k'.Mapped(e, p) <==> k.Mapped(e, p))
    && (forall p: Page :: k.Mapped(e, p) ==> k'.words[Entry(e, p)] == k.words[Entry(e, p)])
  }

  lemma SameEntriesImaged(k: Kernel, k': Kernel, e: EnvId, image: map<Page, PageData>, filed: map<Page, PageData>)
    requires Imaged(k, e, image, filed) && SameEntries(k, k', e) && DiskImaged(k', e, filed)
    ensures Imaged(k', e, image, filed)
  {
    hide ImageOf, DiskImaged;
    forall p: Page ensures FrameImaged(k', e, p, image) { assert FrameImaged(k, e, p, image); }
  }

  lemma FilePageEntry(k: Kernel, e: EnvId, p: Page, data: PageData)
    requires FilePage(k, e, p, data).Ok? && ((e, p) in k.pf || k.diskFree != [])
    ensures var k' := FilePage(k, e, p, data).value; (e, p) in k'.pf && k'.Disk(k'.pf[(e, p)]) == data
  {
    hide PfAdd;
    PfAddEffect(k, e, p);
  }

  lemma {:induction false} LoadPagesImaged(l: Lists, k: Kernel, e: EnvId, p: Page, n: nat, image: map<Page, PageData>, filed: map<Page, PageData>)
    requires Owned(k) && Loading(l, k, e) && LoadPages(l, k, e, p, n, image).Ok? && Imaged(k, e, image, filed)
    requires forall q :: p <= q < p + n ==> UserPage(q) && q !in l.Resident()
    requires |l.Resident()| + n < l.Capacity()
    ensures Imaged(LoadPages(l, k, e, p, n, image).value.1, e, image, filed)
    decreases n
  {
    hide Owned, Grown, Loading, LoadPage, Imaged;
    if n > 0 {
      var k1 := LoadPage(k, e, p, ImageOf(image, p)).value;
      LoadingMapped(l, k, e, p);
      LoadPageEffect(k, e, p, ImageOf(image, p));
      LoadPageImaged(k, e, p, image, filed);
      assert UserPage(p);
      LoadingPage(l, k, k1, e, p);
      GrownOwned(k, k1, e);
      LoadPagesImaged(Enlist(l, p), k1, e, p + 1, n - 1, image, filed);
    }
  }

  lemma ImagedDisk(k: Kernel, e: EnvId, image: map<Page, PageData>, filed: map<Page, PageData>)
    requires Imaged(k, e, image, filed)
    ensures DiskImaged(k, e, filed)
  {
  }

  lemma {:induction false} FileAllImaged(k: Kernel, e: EnvId, pages: seq<Page>, image: map<Page, PageData>, filed: map<Page, PageData>)
    requires Owned(k) && FileAll(k, e, pages, filed).Ok? && Imaged(k, e, image, filed)
    ensures Imaged(FileAll(k, e, pages, filed).value, e, image, filed)
    decreases |pages|
  {
    hide Owned, Grown, Imaged;
    if pages != [] {
      var p := pages[0];
      var k1 := FilePage(k, e, p, ImageOf(filed, p)).value;
      assert (e, p) in k.pf || k.diskFree != [] by { PfAddSpace(k, e, p); }
      FilePageEffect(k, e, p, ImageOf(filed, p));
      ImagedDisk(k, e, image, filed);
      FilePageImaged(k, e, p, filed);
      SameEntriesImaged(k, k1, e, image, filed);
      GrownOwned(k, k1, e);
      hide FilePage;
      FileAllImaged(k1, e, pages[1..], image, filed);
    }
  }

  lemma {:induction false} LoadSegmentsImaged(l: Lists, k: Kernel, e: EnvId, g: seq<Segment>, remaining: nat, prog: Program)
    requires Owned(k) && Loading(l, k, e) && GoodProgram(g) && Unloaded(l, g) && Filed(l, k, e)
    requires STACK_PAGE !in l.Resident() && |l.Resident()| + remaining < l.Capacity()
    requires LoadSegments(l, k, e, g, remaining, prog).Ok? && Imaged(k, e, prog.image, prog.filed)
    ensures var k' := LoadSegments(l, k, e, g, remaining, prog).value.1;
      && Imaged(k', e, prog.image, prog.filed)
      && (forall x :: x in k.pf ==> x in k'.pf) && (forall p :: p in AllFilePages(g) ==> (e, p) in k'.pf)
    decreases |g|
  {
    hide Owned, Grown, Loading, Filed, LoadPages, FileAll, FilePages, LoadCount, End, First, GoodSegment, Imaged;
    if g != [] {
      var n := LoadCount(g[0], remaining, prog.isTpp);
      LoadSegmentOk(l, k, e, g[0], remaining, prog);
      LoadSegmentImaged(l, k, e, g[0], remaining, prog);
      var (l1, k1) := LoadPages(l, k, e, First(g[0]), n, prog.image).value;
      var k2 := FileAll(k1, e, FilePages(g[0]), prog.filed).value;
      GrownOwned(k, k2, e);
      assert GoodProgram(g[1..]);
      assert Unloaded(l1, g[1..]) by {
        forall i, q | 0 <= i < |g[1..]| && First(g[1..][i]) <= q < End(g[1..][i]) ensures q !in l1.Resident() {
          assert g[1..][i] == g[i + 1];
          assert Apart(g[0], g[i + 1]);
        }
      }
      LoadSegmentsImaged(l1, k2, e, g[1..], remaining - n, prog);
    }
  }

  lemma LoadSegmentImaged(l: Lists, k: Kernel, e: EnvId, g: Segment, remaining: nat, prog: Program)
    requires Owned(k) && Loading(l, k, e) && GoodSegment(g) && Imaged(k, e, prog.image, prog.filed)
    requires forall q :: First(g) <= q < End(g) ==> q !in l.Resident()
    requires |l.Resident()| + remaining < l.Capacity()
    requires LoadPages(l, k, e, First(g), LoadCount(g, remaining, prog.isTpp), prog.image).Ok?
    requires FileAll(LoadPages(l, k, e, First(g), LoadCount(g, remaining, prog.isTpp), prog.image).value.1,
                     e, FilePages(g), prog.filed).Ok?
    ensures var k1 := LoadPages(l, k, e, First(g), LoadCount(g, remaining, prog.isTpp), prog.image).value.1;
      var k2 := FileAll(k1, e, FilePages(g), prog.filed).value;
      && Imaged(k2, e, prog.image, prog.filed)
      && (forall x :: x in k2.pf <==> x in k.pf || (x.0 == e && x.1 in FilePages(g)))
  {
    hide Owned, Grown, Loading, FilePages, End, First, Imaged;
    var n := LoadCount(g, remaining, prog.isTpp);
    assert n <= remaining && (n == 0 || First(g) + n <= End(g));
    LoadPagesOk(l, k, e, First(g), n, prog.image);
    LoadPagesImaged(l, k, e, First(g), n, prog.image, prog.filed);
    var (l1, k1) := LoadPages(l, k, e, First(g), n, prog.image).value;
    GrownOwned(k, k1, e);
    FilePagesCover(g);
    FileAllOk(l1, k1, e, FilePages(g), prog.filed);
    FileAllImaged(k1, e, FilePages(g), prog.image, prog.filed);
  }

  /** At the end of env_create: all pages hold their image, but the stack page zeros, modified. */
  ghost predicate ImagedStack(k: Kernel, e: EnvId, image: map<Page, PageData>, filed: map<Page, PageData>) {
    && DiskImaged(k, e, filed) && (forall p: Page :: p != STACK_PAGE ==> FrameImaged(k, e, p, image))
    && k.Mapped(e, STACK_PAGE) && k.words[Entry(e, STACK_PAGE)].modified
    && k.Ram(k.words[Entry(e, STACK_PAGE)].frame) == Blank()
  }

  lemma LoadStackImaged(l: Lists, k: Kernel, e: EnvId, image: map<Page, PageData>, filed: map<Page, PageData>)
    requires Owned(k) && Imaged(k, e, image, filed) && !k.Mapped(e, STACK_PAGE) && k.diskFree != [] && LoadStack(l, k, e, filed).Ok?
    ensures var k' := LoadStack(l, k, e, filed).value.1;
      ImagedStack(k', e, image, filed) && forall x :: x in k.pf ==> x in k'.pf
  {
    var k1 := LoadPage(k, e, STACK_PAGE, Blank()).value;
    LoadPageEffect(k, e, STACK_PAGE, Blank());
    LoadPageStack(k, e, image, filed);
    GrownOwned(k, k1, e);
    var k2 := SetModified(k1, e, STACK_PAGE, true);
    SetModifiedGrows(k1, e, STACK_PAGE, true);
    GrownOwned(k1, k2, e);
    hide LoadPage, FilePage, Owned, Grown, ImageOf, Imaged, ImagedStack;
    FilePageStack(k2, e, image, filed);
  }

  lemma LoadPageStack(k: Kernel, e: EnvId, image: map<Page, PageData>, filed: map<Page, PageData>)
    requires Owned(k) && Imaged(k, e, image, filed) && !k.Mapped(e, STACK_PAGE) && LoadPage(k, e, STACK_PAGE, Blank()).Ok?
    ensures ImagedStack(SetModified(LoadPage(k, e, STACK_PAGE, Blank()).value, e, STACK_PAGE, true), e, image, filed)
  {
    LoadPageOthers(k, e, STACK_PAGE, Blank(), image, filed);
    LoadPageEntry(k, e, STACK_PAGE, Blank());
    hide LoadPage, ImageOf;
    var k1 := LoadPage(k, e, STACK_PAGE, Blank()).value;
    forall q: Page | q != STACK_PAGE ensures FrameImaged(SetModified(k1, e, STACK_PAGE, true), e, q, image) {
      assert FrameImaged(k1, e, q, image);
    }
  }

  lemma FilePageStack(k: Kernel, e: EnvId, image: map<Page, PageData>, filed: map<Page, PageData>)
    requires Owned(k) && ImagedStack(k, e, image, filed) && FilePage(k, e, STACK_PAGE, ImageOf(filed, STACK_PAGE)).Ok?
    requires k.diskFree != []
    ensures var k' := FilePage(k, e, STACK_PAGE, ImageOf(filed, STACK_PAGE)).value;
      ImagedStack(k', e, image, filed) && forall x :: x in k.pf ==> x in k'.pf
  {
    FilePageImaged(k, e, STACK_PAGE, filed);
    hide FilePage, ImageOf, DiskImaged;
    var k' := FilePage(k, e, STACK_PAGE, ImageOf(filed, STACK_PAGE)).value;
    forall q: Page | q != STACK_PAGE ensures FrameImaged(k', e, q, image) { assert FrameImaged(k, e, q, image); }
  }

  lemma {:induction false} HidePagesImaged(k: Kernel, e: EnvId, pages: seq<Page>, image: map<Page, PageData>, filed: map<Page, PageData>)
    requires ImagedStack(k, e, image, filed)
    ensures ImagedStack(HidePages(k, e, pages), e, image, filed) && HidePages(k, e, pages).pf == k.pf
    decreases |pages|
  {
    hide ImagedStack;
    if pages != [] {
      SetPresentImaged(k, e, pages[0], image, filed);
      HidePagesImaged(SetPresent(k, e, pages[0], false), e, pages[1..], image, filed);
    }
  }

  lemma SetPresentImaged(k: Kernel, e: EnvId, p: Page, image: map<Page, PageData>, filed: map<Page, PageData>)
    requires ImagedStack(k, e, image, filed)
    ensures ImagedStack(SetPresent(k, e, p, false), e, image, filed)
  {
    hide ImageOf;
    forall q: Page | q != STACK_PAGE ensures FrameImaged(SetPresent(k, e, p, false), e, q, image) {
      assert FrameImaged(k, e, q, image);
    }
  }

  lemma FileByteIsFiled(g: seq<Segment>, p: Page, o: nat)
    requires GoodProgram(g) && o < PAGE_SIZE && FileByte(g, p, o)
    ensures p in AllFilePages(g) && p != STACK_PAGE
  {
    hide FilePages;
    var i :| 0 <= i < |g| && g[i].va <= p * 4096 + o < g[i].va + g[i].fileSize;
    assert GoodSegment(g[i]) && First(g[i]) <= p < End(g[i]);
    assert UserPage(p);
    FilePagesCover(g[i]);
    AllFilePagesHave(g, i);
  }

  lemma {:induction false} AllFilePagesHave(g: seq<Segment>, i: nat)
    requires i < |g|
    ensures forall p :: p in FilePages(g[i]) ==> p in AllFilePages(g)
  {
    hide FilePages;
    if i > 0 { AllFilePagesHave(g[1..], i - 1); }
  }

  /** What one initial byte is. */
  lemma InitialByte(e: EnvId, prog: Program, d: EnvId, p: Page, o: nat)
    requires (d, p, o) in InitialBytes(e, prog)
    ensures d == e && o < PAGE_SIZE
    ensures p == STACK_PAGE ==> InitialBytes(e, prog)[(d, p, o)] == 0
    ensures p != STACK_PAGE ==>
      && p in AllFilePages(prog.segments) && InitialBytes(e, prog)[(d, p, o)] == ImageOf(prog.image, p)[o]
      && ImageOf(prog.image, p)[o] == ImageOf(prog.filed, p)[o]
  {
    hide FileByte, ImageOf, AllFilePages;
  }

  lemma InitialKept(k: Kernel, e: EnvId, prog: Program)
    requires ImagedStack(k, e, prog.image, prog.filed)
    requires forall p :: p in AllFilePages(prog.segments) ==> (e, p) in k.pf
    ensures Kept(InitialBytes(e, prog), k)
  {
    hide AllFilePages, ImageOf, InitialBytes, FrameImaged;
    var h := InitialBytes(e, prog);
    forall d, p, o | (d, p, o) in h
      ensures o < PAGE_SIZE && (k.Mapped(d, p) ==> k.Ram(k.words[Entry(d, p)].frame)[o] == h[(d, p, o)])
      ensures !k.Mapped(d, p) || !k.words[Entry(d, p)].modified ==> (d, p) in k.pf && k.Disk(k.pf[(d, p)])[o] == h[(d, p, o)]
    {
      InitialByte(e, prog, d, p, o);
      if p != STACK_PAGE {
        PageFacts(k, e, p, prog.image, prog.filed);
      } else {
        assert Blank()[o] == 0;
      }
    }
  }

  lemma PageFacts(k: Kernel, e: EnvId, p: Page, image: map<Page, PageData>, filed: map<Page, PageData>)
    requires ImagedStack(k, e, image, filed) && p != STACK_PAGE
    ensures k.Mapped(e, p) ==> k.Ram(k.words[Entry(e, p)].frame) == ImageOf(image, p)
    ensures (e, p) in k.pf ==> k.Disk(k.pf[(e, p)]) == ImageOf(filed, p)
  {
    assert FrameImaged(k, e, p, image);
  }

  /** Wherever env_create puts a page, the program's bytes and the stack's zeros are kept there. */
  lemma EnvCreateInitial(k: Kernel, e: EnvId, activeMax: nat, secondMax: nat, prog: Program)
    requires Owned(k) && 1 <= activeMax && GoodProgram(prog.segments)
    requires forall s :: s in k.words ==> s.env != e
    requires forall x :: x in k.pf ==> x.0 != e
    requires FileDemand(prog.segments) < |k.diskFree| && EnvCreate.EnvCreate(k, e, activeMax, secondMax, prog).Ok?
    ensures Kept(InitialBytes(e, prog), EnvCreate.EnvCreate(k, e, activeMax, secondMax, prog).value.1)
    ensures ImagedStack(EnvCreate.EnvCreate(k, e, activeMax, secondMax, prog).value.1, e, prog.image, prog.filed)
  {
    hide Owned, Grown, Loading, Ensure, LoadSegments, LoadStack, HidePages, EnvOk, GoodProgram, FileDemand, Imaged,
      ImagedStack, Kept, AllFilePages, InitialBytes;
    var k0 := Ensure(k, Directory(e)).value;
    var l0 := Lists(activeMax, secondMax, [], []);
    EnsureGrows(k, e, Directory(e));
    LoadingStarts(l0, k, e);
    GrownOwned(k, k0, e);
    StartImaged(l0, k, k0, e, prog.image, prog.filed);
    LoadSegmentsOk(l0, k0, e, prog.segments, activeMax + secondMax - 1, prog);
    LoadSegmentsImaged(l0, k0, e, prog.segments, activeMax + secondMax - 1, prog);
    var (l1, k1) := LoadSegments(l0, k0, e, prog.segments, activeMax + secondMax - 1, prog).value;
    GrownOwned(k0, k1, e);
    LoadingMapped(l1, k1, e, STACK_PAGE);
    LoadStackImaged(l1, k1, e, prog.image, prog.filed);
    var (l2, k2) := LoadStack(l1, k1, e, prog.filed).value;
    HidePagesImaged(k2, e, l2.second, prog.image, prog.filed);
    InitialKept(HidePages(k2, e, l2.second), e, prog);
  }

  lemma StartImaged(l: Lists, k: Kernel, k0: Kernel, e: EnvId, image: map<Page, PageData>, filed: map<Page, PageData>)
    requires l.Resident() == [] && Loading(l, k0, e) && Ensure(k, Directory(e)).Ok? && k0 == Ensure(k, Directory(e)).value
    requires forall x :: x in k.pf ==> x.0 != e
    ensures Imaged(k0, e, image, filed)
  {
    EnsureEffect(k, Directory(e));
    hide ImageOf, Ensure, Loading;
    forall p: Page ensures (e, p) !in k0.pf { assert (e, p) in k.pf ==> (e, p).0 != e; }
    forall p: Page ensures !k0.Mapped(e, p) { LoadingMapped(l, k0, e, p); }
  }
}
