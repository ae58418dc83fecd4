/** env_create: loading a program's segments and its first stack page. */
module EnvCreate {
  import opened Sequences
  import opened TwoLists
  import opened KernelState
  import opened Paging
  import opened UserMemory

  datatype Segment = Segment(va: nat, fileSize: nat, memSize: nat)

  /**
   * A program: its segments, what its pages hold when put in memory, what they hold in the page
   * file, and whether it is exempt from the 6-page limit.
   */
  datatype Program = Program(segments: seq<Segment>, image: map<Page, PageData>, filed: map<Page, PageData>, isTpp: bool)

  function Floor(a: nat): nat { a / 4096 }

  function Ceil(a: nat): nat { (a + 4095) / 4096 }

  function Range(lo: nat, hi: nat): seq<Page>
    decreases hi - lo
  {
    if lo >= hi then [] else [lo] + Range(lo + 1, hi)
  }

  function First(g: Segment): Page { Floor(g.va) }

  function End(g: Segment): Page { Ceil(g.va + g.memSize) }

  /** How many pages of a segment are put in memory. */
  function LoadCount(g: Segment, remaining: nat, isTpp: bool): nat {
    var limit := if First(g) == 0x200 && !isTpp && remaining > 6 then 6 else remaining;
    var size := if First(g) < End(g) then End(g) - First(g) else 0;
    if size < limit then size else limit
  }

  /** The pages written to the page file, in the order of the four loader loops. */
  function FilePages(g: Segment): seq<Page> {
    [First(g)] + Range(Ceil(g.va), Floor(g.va + g.fileSize)) + [Floor(g.va + g.fileSize)]
      + Range(Ceil(g.va + g.fileSize), End(g))
  }

  function ImageOf(image: map<Page, PageData>, p: Page): PageData {
    if p in image then image[p] else Blank()
  }

  /**
   * Segment pages leave one place in ActiveList for the stack. The test is made on unsigned numbers,
   * so with an active size of zero it holds for every page.
   */
  function Enlist(l: Lists, p: Page): Lists {
    if l.activeMax == 0 || |l.active| + 1 < l.activeMax then l.(active := [p] + l.active) else l.(second := [p] + l.second)
  }

  function EnlistStack(l: Lists, p: Page): Lists {
    if |l.active| < l.activeMax then l.(active := [p] + l.active) else l.(second := [p] + l.second)
  }

  function LoadPage(k: Kernel, e: EnvId, p: Page, data: PageData): Result<Kernel> {
    var (k1, f) :- AllocateFrame(k);
    var k2 :- LoadtimeMapFrame(k1, e, p, f);
    Ok(k2.(ram := k2.ram[f := data]))
  }

  function LoadPages(l: Lists, k: Kernel, e: EnvId, p: Page, n: nat, image: map<Page, PageData>): Result<(Lists, Kernel)>
    decreases n
  {
    if n == 0 then Ok((l, k)) else
    var k1 :- LoadPage(k, e, p, ImageOf(image, p));
    LoadPages(Enlist(l, p), k1, e, p + 1, n - 1, image)
  }

  /** pf_add_env_page: an entry and the page's bytes. */
  function FilePage(k: Kernel, e: EnvId, p: Page, data: PageData): Result<Kernel> {
    var k1 :- PfAdd(k, e, p);
    Ok(if (e, p) in k1.pf then k1.(disk := k1.disk[k1.pf[(e, p)] := data]) else k1)
  }

  function FileAll(k: Kernel, e: EnvId, pages: seq<Page>, image: map<Page, PageData>): Result<Kernel>
    decreases |pages|
  {
    if pages == [] then Ok(k) else
    var k1 :- FilePage(k, e, pages[0], ImageOf(image, pages[0]));
    if (e, pages[0]) !in k1.pf then Panic(NoPageFileSpace)
    else FileAll(k1, e, pages[1..], image)
  }

  function LoadSegments(l: Lists, k: Kernel, e: EnvId, g: seq<Segment>, remaining: nat, prog: Program): Result<(Lists, Kernel)>
    decreases |g|
  {
    if g == [] then Ok((l, k)) else
    var n := LoadCount(g[0], remaining, prog.isTpp);
    var (l1, k1) :- LoadPages(l, k, e, First(g[0]), n, prog.image);
    var k2 :- FileAll(k1, e, FilePages(g[0]), prog.filed);
    LoadSegments(l1, k2, e, g[1..], remaining - n, prog)
  }

  const STACK_PAGE: Page := STACK_TOP - 1

  /** The first stack page is zeroed through its mapping, so it starts modified. */
  function LoadStack(l: Lists, k: Kernel, e: EnvId, image: map<Page, PageData>): Result<(Lists, Kernel)> {
    var k1 :- LoadPage(k, e, STACK_PAGE, Blank());
    var k2 :- FilePage(SetModified(k1, e, STACK_PAGE, true), e, STACK_PAGE, ImageOf(image, STACK_PAGE));
    Ok((EnlistStack(l, STACK_PAGE), k2))
  }

  function HidePages(k: Kernel, e: EnvId, pages: seq<Page>): Kernel
    decreases |pages|
  {
    if pages == [] then k else HidePages(SetPresent(k, e, pages[0], false), e, pages[1..])
  }

  function EnvCreate(k: Kernel, e: EnvId, activeMax: nat, secondMax: nat, prog: Program): Result<(Lists, Kernel)> {
    var k0 :- Ensure(k, Directory(e));
    var l0 := Lists(activeMax, secondMax, [], []);
    if activeMax + secondMax == 0 then Panic(IllegalAccess) else
    var (l1, k1) :- LoadSegments(l0, k0, e, prog.segments, activeMax + secondMax - 1, prog);
    var (l2, k2) :- LoadStack(l1, k1, e, prog.filed);
    Ok((l2, HidePages(k2, e, l2.second)))
  }

  // ----- what loading keeps -----

  ghost predicate Conserved(k: Kernel, k': Kernel) {
    Owned(k') && Accounted(k') == Accounted(k) && DiskAccounted(k') == DiskAccounted(k)
  }

  /** No word, entry or content of any environment but e differs. */
  ghost predicate Undisturbed(k: Kernel, k': Kernel, e: EnvId) {
    && (forall s: Slot :: s.env != e ==> (s in k.words <==> s in k'.words))
    && (forall s :: s in k.words && s.env != e ==>
          k'.words[s] == k.words[s] && k'.Ram(k.words[s].frame) == k.Ram(k.words[s].frame))
    && (forall x: (EnvId, Page) :: x.0 != e ==> (x in k.pf <==> x in k'.pf))
    && (forall x :: x in k.pf && x.0 != e ==> k'.pf[x] == k.pf[x] && k'.Disk(k.pf[x]) == k.Disk(k.pf[x]))
  }

  /** k' is k after giving e more. */
  ghost predicate Grown(k: Kernel, k': Kernel, e: EnvId) {
    Conserved(k, k') && Undisturbed(k, k', e)
  }

  lemma GrownReflexive(k: Kernel, e: EnvId)
    requires Owned(k)
    ensures Grown(k, k, e)
  {
  }

  lemma GrownTransitive(k: Kernel, k1: Kernel, k2: Kernel, e: EnvId)
    requires Grown(k, k1, e) && Grown(k1, k2, e)
    ensures Grown(k, k2, e)
  {
  }

  lemma GrownOwned(k: Kernel, k': Kernel, e: EnvId)
    requires Grown(k, k', e)
    ensures Owned(k') && Accounted(k') == Accounted(k) && DiskAccounted(k') == DiskAccounted(k)
    ensures forall d :: d != e ==> SameFor(k, k', d)
  {
  }

  lemma GrownKept(h: Stores, k: Kernel, k': Kernel, e: EnvId)
    requires Grown(k, k', e) && Kept(h, k) && forall x :: x in h ==> x.0 != e
    ensures Kept(h, k')
  {
    forall d, p, o | (d, p, o) in h
      ensures k'.Mapped(d, p) <==> k.Mapped(d, p)
      ensures k.Mapped(d, p) ==> k'.words[Entry(d, p)] == k.words[Entry(d, p)]
    {
      assert (d, p, o).0 != e;
      assert Entry(d, p).env != e;
    }
  }

  lemma EnsureGrows(k: Kernel, e: EnvId, s: Slot)
    requires Owned(k) && s.env == e && Ensure(k, s).Ok?
    ensures Grown(k, Ensure(k, s).value, e)
  {
    EnsureOwned(k, s);
    EnsureEffect(k, s);
    assert Undisturbed(k, Ensure(k, s).value, e) by { hide Unshared, Counted, FramesOwned, DiskOwned, Ensure; }
    hide Unshared, Counted, FramesOf, DiskFramesOf, DiskUnshared, Ensure, Undisturbed;
  }

  /** The words a loaded page adds: its entry and perhaps its table. */
  ghost predicate LoadedWords(k: Kernel, k': Kernel, e: EnvId, p: Page) {
    && (forall s :: s in k'.words <==> s in k.words || s == Entry(e, p) || s == Table(e, Pdx(p)))
    && (forall s :: s in k.words ==> k'.words[s] == k.words[s])
    && k'.words[Entry(e, p)].present
    && k'.pf == k.pf && k'.diskFree == k.diskFree
  }

  lemma LoadPageOwned(k: Kernel, e: EnvId, p: Page, data: PageData)
    requires Owned(k) && !k.Mapped(e, p) && LoadPage(k, e, p, data).Ok?
    ensures Owned(LoadPage(k, e, p, data).value)
    ensures Accounted(LoadPage(k, e, p, data).value) == Accounted(k)
  {
    hide Unshared, Counted, DiskUnshared, FramesOf;
    AllocateFrameOwned(k);
    var (k1, f) := AllocateFrame(k).value;
    var t := Table(e, Pdx(p));
    EnsureDetached(k1, t, f);
    EnsureEffect(k1, t);
    SetWordOwned(Ensure(k1, t).value, Entry(e, p), f);
  }

  lemma LoadPageWords(k: Kernel, e: EnvId, p: Page, data: PageData)
    requires !k.Mapped(e, p) && LoadPage(k, e, p, data).Ok?
    ensures LoadedWords(k, LoadPage(k, e, p, data).value, e, p)
    ensures k.free != [] && forall g :: g != k.free[0] ==> LoadPage(k, e, p, data).value.Ram(g) == k.Ram(g)
    ensures LoadPage(k, e, p, data).value.disk == k.disk
  {
    var (k1, f) := AllocateFrame(k).value;
    EnsureEffect(k1, Table(e, Pdx(p)));
  }

  lemma LoadPageEffect(k: Kernel, e: EnvId, p: Page, data: PageData)
    requires Owned(k) && !k.Mapped(e, p) && LoadPage(k, e, p, data).Ok?
    ensures Grown(k, LoadPage(k, e, p, data).value, e)
    ensures LoadedWords(k, LoadPage(k, e, p, data).value, e, p)
  {
    LoadPageOwned(k, e, p, data);
    LoadPageWords(k, e, p, data);
    var f := k.free[0];
    assert f in k.free;
    assert forall s :: s in k.words ==> k.words[s].frame != f;
    hide LoadPage, Unshared, Counted, DiskUnshared, FramesOf, DiskFramesOf;
    LoadedGrows(k, LoadPage(k, e, p, data).value, e, p, f);
  }

  lemma LoadedGrows(k: Kernel, k': Kernel, e: EnvId, p: Page, f: Frame)
    requires Owned(k') && Accounted(k') == Accounted(k) && DiskAccounted(k') == DiskAccounted(k)
    requires forall s :: s in k'.words <==> s in k.words || s == Entry(e, p) || s == Table(e, Pdx(p))
    requires forall s :: s in k.words ==> k'.words[s] == k.words[s] && k.words[s].frame != f
    requires forall g :: g != f ==> k'.Ram(g) == k.Ram(g)
    requires k'.pf == k.pf && k'.disk == k.disk
    ensures Grown(k, k', e)
  {
  }

  /** What FilePage adds: an entry for p, with its disk table and directory. */
  ghost predicate FiledWords(k: Kernel, k': Kernel, e: EnvId, p: Page) {
    && (forall s :: s in k'.words <==> s in k.words || s == DiskDirectory(e) || s == DiskTable(e, Pdx(p)))
    && (forall s :: s in k.words ==> k'.words[s] == k.words[s])
    && (forall x :: x in k'.pf <==> x in k.pf || x == (e, p))
    && (forall x :: x in k.pf ==> k'.pf[x] == k.pf[x])
    && k'.ram == k.ram
    && |k.diskFree| <= |k'.diskFree| + 1
  }

  lemma FilePageOwned(k: Kernel, e: EnvId, p: Page, data: PageData)
    requires Owned(k) && FilePage(k, e, p, data).Ok? && ((e, p) in k.pf || k.diskFree != [])
    ensures var k' := FilePage(k, e, p, data).value;
      Owned(k') && Accounted(k') == Accounted(k) && DiskAccounted(k') == DiskAccounted(k)
  {
    hide Unshared, Counted, DiskUnshared, FramesOf, DiskFramesOf;
    PfAddOwned(k, e, p);
  }

  lemma FilePageWords(k: Kernel, e: EnvId, p: Page, data: PageData)
    requires FilePage(k, e, p, data).Ok? && ((e, p) in k.pf || k.diskFree != [])
    ensures FiledWords(k, FilePage(k, e, p, data).value, e, p)
    ensures forall d :: d != FilePage(k, e, p, data).value.pf[(e, p)] ==>
              FilePage(k, e, p, data).value.Disk(d) == k.Disk(d)
  {
    hide PfAdd;
    PfAddEffect(k, e, p);
    PfAddSpace(k, e, p);
  }

  lemma FilePageEffect(k: Kernel, e: EnvId, p: Page, data: PageData)
    requires Owned(k) && FilePage(k, e, p, data).Ok? && ((e, p) in k.pf || k.diskFree != [])
    ensures Grown(k, FilePage(k, e, p, data).value, e)
    ensures FiledWords(k, FilePage(k, e, p, data).value, e, p)
  {
    FilePageOwned(k, e, p, data);
    FilePageWords(k, e, p, data);
    var k' := FilePage(k, e, p, data).value;
    FiledUndisturbed(k, k', e, p);
    hide FilePage, Owned, Accounted, DiskAccounted, FiledWords, Undisturbed;
  }

  lemma FiledUndisturbed(k: Kernel, k': Kernel, e: EnvId, p: Page)
    requires FiledWords(k, k', e, p) && DiskOwned(k')
    requires forall d :: d != k'.pf[(e, p)] ==> k'.Disk(d) == k.Disk(d)
    ensures Undisturbed(k, k', e)
  {
  }

  lemma PfAddSpace(k: Kernel, e: EnvId, p: Page)
    requires PfAdd(k, e, p).Ok?
    ensures |k.diskFree| <= |PfAdd(k, e, p).value.diskFree| + 1
    ensures (e, p) !in k.pf && k.diskFree == [] ==> (e, p) !in PfAdd(k, e, p).value.pf
  {
    EnsureEffect(k, DiskDirectory(e));
    EnsureEffect(Ensure(k, DiskDirectory(e)).value, DiskTable(e, Pdx(p)));
  }

  /**
   * The state between loader steps: mapped pages are exactly the listed ones, all present, and one
   * place of ActiveList is still free.
   */
  ghost predicate Loading(l: Lists, k: Kernel, e: EnvId) {
    && |l.active| < l.activeMax
    && (l.second != [] ==> |l.active| + 1 == l.activeMax)
    && |l.second| <= l.secondMax
    && Distinct(l.Resident())
    && Directory(e) in k.words
    && (forall p :: Entry(e, p) in k.words ==> Table(e, Pdx(p)) in k.words)
    && (forall p :: (e, p) in k.pf ==> DiskTable(e, Pdx(p)) in k.words && !IsHeap(p))
    && (forall s :: s in k.words && s.env == e ==> InUserSpace(s))
    && (forall p :: k.Mapped(e, p) <==> p in l.Resident())
    && (forall p :: k.Mapped(e, p) ==> k.Present(e, p) && !IsHeap(p))
  }

  lemma LoadingPage(l: Lists, k: Kernel, k': Kernel, e: EnvId, p: Page)
    requires Loading(l, k, e) && LoadedWords(k, k', e, p) && p !in l.Resident()
    requires !IsHeap(p) && Pdx(p) < USER_TABLES && |l.Resident()| + 1 < l.Capacity()
    ensures Loading(Enlist(l, p), k', e)
    ensures forall q :: q in Enlist(l, p).Resident() <==> q == p || q in l.Resident()
    ensures |Enlist(l, p).Resident()| == |l.Resident()| + 1
  {
    hide Enlist, Distinct, Lists.Resident;
    EnlistShape(l, p);
    forall q ensures k'.Mapped(e, q) <==> k.Mapped(e, q) || q == p
      ensures k'.Mapped(e, q) ==> k'.Present(e, q)
    {
      assert Entry(e, q) in k'.words <==> Entry(e, q) in k.words || q == p;
    }
  }

  lemma EnlistShape(l: Lists, p: Page)
    requires |l.active| < l.activeMax && (l.second != [] ==> |l.active| + 1 == l.activeMax) && |l.second| <= l.secondMax
    requires Distinct(l.Resident()) && p !in l.Resident() && |l.Resident()| + 1 < l.Capacity()
    ensures var l' := Enlist(l, p);
      && |l'.active| < l'.activeMax && (l'.second != [] ==> |l'.active| + 1 == l'.activeMax) && |l'.second| <= l'.secondMax
      && Distinct(l'.Resident()) && |l'.Resident()| == |l.Resident()| + 1
      && (forall q :: q in l'.Resident() <==> q == p || q in l.Resident())
  {
    var l' := Enlist(l, p);
    assert forall q :: q in l'.Resident() <==> q in l'.active || q in l'.second;
    assert forall q :: q in l.Resident() <==> q in l.active || q in l.second;
    assert Distinct(l'.Resident()) by {
      if |l.active| + 1 < l.activeMax {
        assert l'.Resident() == [p] + l.Resident();
      } else {
        DistinctInsert(l.active, l.second, p);
        assert l'.Resident() == l.active + [p] + l.second;
      }
    }
  }

  lemma DistinctInsert(a: seq<Page>, b: seq<Page>, p: Page)
    requires Distinct(a + b) && p !in a + b
    ensures Distinct(a + [p] + b)
  {
    var s, t := a + b, a + [p] + b;
    forall i, j | 0 <= i < j < |t| ensures t[i] != t[j] {
      assert i < |a| ==> t[i] == s[i];
      assert i > |a| ==> t[i] == s[i - 1];
      assert j < |a| ==> t[j] == s[j];
      assert j > |a| ==> t[j] == s[j - 1];
    }
  }

  lemma LoadingFiled(l: Lists, k: Kernel, k': Kernel, e: EnvId, p: Page)
    requires Loading(l, k, e) && FiledWords(k, k', e, p) && !IsHeap(p) && Pdx(p) < USER_TABLES
    ensures Loading(l, k', e)
  {
    assert forall q :: k'.Mapped(e, q) <==> k.Mapped(e, q);
    assert forall q :: k'.Present(e, q) <==> k.Present(e, q);
  }

  ghost predicate UserPage(p: Page) { !IsHeap(p) && Pdx(p) < USER_TABLES }

  lemma {:induction false} LoadPagesOk(l: Lists, k: Kernel, e: EnvId, p: Page, n: nat, image: map<Page, PageData>)
    requires Owned(k) && Loading(l, k, e) && LoadPages(l, k, e, p, n, image).Ok?
    requires forall q :: p <= q < p + n ==> UserPage(q) && q !in l.Resident()
    requires |l.Resident()| + n < l.Capacity()
    ensures var (l', k') := LoadPages(l, k, e, p, n, image).value;
      && Grown(k, k', e) && Loading(l', k', e)
      && l'.activeMax == l.activeMax && l'.secondMax == l.secondMax
      && |l'.Resident()| == |l.Resident()| + n
      && (forall q :: q in l'.Resident() <==> q in l.Resident() || p <= q < p + n)
      && k'.pf == k.pf && k'.diskFree == k.diskFree
    decreases n
  {
    hide Owned, Grown, Loading, LoadPage;
    if n == 0 {
      GrownReflexive(k, e);
    } else {
      var k1 := LoadPage(k, e, p, ImageOf(image, p)).value;
      var l1 := Enlist(l, p);
      assert !k.Mapped(e, p) by { LoadingMapped(l, k, e, p); }
      LoadPageEffect(k, e, p, ImageOf(image, p));
      assert UserPage(p);
      LoadingPage(l, k, k1, e, p);
      GrownOwned(k, k1, e);
      LoadPagesOk(l1, k1, e, p + 1, n - 1, image);
      GrownTransitive(k, k1, LoadPages(l, k, e, p, n, image).value.1, e);
    }
  }

  lemma LoadingMapped(l: Lists, k: Kernel, e: EnvId, p: Page)
    requires Loading(l, k, e)
    ensures k.Mapped(e, p) <==> p in l.Resident()
  {
  }

  lemma {:induction false} FileAllOk(l: Lists, k: Kernel, e: EnvId, pages: seq<Page>, image: map<Page, PageData>)
    requires Owned(k) && Loading(l, k, e) && FileAll(k, e, pages, image).Ok?
    requires forall q :: q in pages ==> UserPage(q)
    ensures var k' := FileAll(k, e, pages, image).value;
      && Grown(k, k', e) && Loading(l, k', e)
      && (forall x :: x in k'.pf <==> x in k.pf || (x.0 == e && x.1 in pages))
      && |k.diskFree| <= |k'.diskFree| + |pages|
    decreases |pages|
  {
    hide Owned, Grown, Loading;
    if pages == [] {
      GrownReflexive(k, e);
    } else {
      var p := pages[0];
      var k1 := FilePage(k, e, p, ImageOf(image, p)).value;
      assert (e, p) in k.pf || k.diskFree != [] by { PfAddSpace(k, e, p); }
      FilePageEffect(k, e, p, ImageOf(image, p));
      assert UserPage(p);
      LoadingFiled(l, k, k1, e, p);
      GrownOwned(k, k1, e);
      hide FilePage;
      FileAllOk(l, k1, e, pages[1..], image);
      GrownTransitive(k, k1, FileAll(k, e, pages, image).value, e);
      assert pages == [p] + pages[1..];
    }
  }

  // ----- segments -----

  lemma {:induction false} RangeMembers(lo: nat, hi: nat)
    ensures forall p :: p in Range(lo, hi) <==> lo <= p < hi
    decreases hi - lo
  {
    if lo < hi { RangeMembers(lo + 1, hi); }
  }

  /** Every page of a segment gets a page-file entry, and at most one page past its end does too. */
  lemma FilePagesCover(g: Segment)
    requires g.fileSize <= g.memSize
    ensures forall p :: First(g) <= p < End(g) ==> p in FilePages(g)
    ensures forall p :: p in FilePages(g) ==>
              First(g) <= p < End(g) || p == First(g) || p == Floor(g.va + g.fileSize)
  {
    var a, b := Range(Ceil(g.va), Floor(g.va + g.fileSize)), Range(Ceil(g.va + g.fileSize), End(g));
    RangeMembers(Ceil(g.va), Floor(g.va + g.fileSize));
    RangeMembers(Ceil(g.va + g.fileSize), End(g));
    assert forall p :: p in FilePages(g) <==> p == First(g) || p in a || p == Floor(g.va + g.fileSize) || p in b;
    assert Ceil(g.va) <= Floor(g.va) + 1;
    assert Ceil(g.va + g.fileSize) <= Floor(g.va + g.fileSize) + 1;
  }

  ghost predicate GoodSegment(g: Segment) {
    && g.fileSize <= g.memSize
    && UserPage(First(g)) && UserPage(Floor(g.va + g.fileSize))
    && forall p :: First(g) <= p < End(g) ==> UserPage(p) && p != STACK_PAGE
  }

  ghost predicate Apart(g: Segment, q: Segment) {
    End(g) <= First(q) || End(q) <= First(g) || End(g) <= First(g) || End(q) <= First(q)
  }

  ghost predicate GoodProgram(g: seq<Segment>) {
    && (forall i :: 0 <= i < |g| ==> GoodSegment(g[i]))
    && (forall i, j :: 0 <= i < j < |g| ==> Apart(g[i], g[j]))
  }

  function FileDemand(g: seq<Segment>): nat
    decreases |g|
  {
    if g == [] then 0 else |FilePages(g[0])| + FileDemand(g[1..])
  }

  ghost predicate Filed(l: Lists, k: Kernel, e: EnvId) {
    forall q :: q in l.Resident() ==> (e, q) in k.pf
  }

  ghost predicate Unloaded(l: Lists, g: seq<Segment>) {
    forall i, q :: 0 <= i < |g| && First(g[i]) <= q < End(g[i]) ==> q !in l.Resident()
  }

  lemma LoadSegmentOk(l: Lists, k: Kernel, e: EnvId, g: Segment, remaining: nat, prog: Program)
    requires Owned(k) && Loading(l, k, e) && GoodSegment(g) && Filed(l, k, e) && STACK_PAGE !in l.Resident()
    requires forall q :: First(g) <= q < End(g) ==> q !in l.Resident()
    requires |l.Resident()| + remaining < l.Capacity()
    requires LoadPages(l, k, e, First(g), LoadCount(g, remaining, prog.isTpp), prog.image).Ok?
    requires FileAll(LoadPages(l, k, e, First(g), LoadCount(g, remaining, prog.isTpp), prog.image).value.1,
                     e, FilePages(g), prog.filed).Ok?
    ensures var n := LoadCount(g, remaining, prog.isTpp);
      var (l1, k1) := LoadPages(l, k, e, First(g), n, prog.image).value;
      var k2 := FileAll(k1, e, FilePages(g), prog.filed).value;
      && Grown(k, k2, e) && Loading(l1, k2, e) && Filed(l1, k2, e) && STACK_PAGE !in l1.Resident()
      && l1.activeMax == l.activeMax && l1.secondMax == l.secondMax
      && |l1.Resident()| == |l.Resident()| + n && n <= remaining
      && (forall q :: q in l1.Resident() ==> q in l.Resident() || First(g) <= q < End(g))
      && |k.diskFree| <= |k2.diskFree| + |FilePages(g)|
  {
    hide Owned, Grown, Loading, FilePages, End, First;
    var n := LoadCount(g, remaining, prog.isTpp);
    assert n <= remaining && (n == 0 || First(g) + n <= End(g));
    LoadPagesOk(l, k, e, First(g), n, prog.image);
    var (l1, k1) := LoadPages(l, k, e, First(g), n, prog.image).value;
    GrownOwned(k, k1, e);
    FilePagesCover(g);
    FileAllOk(l1, k1, e, FilePages(g), prog.filed);
    GrownTransitive(k, k1, FileAll(k1, e, FilePages(g), prog.filed).value, e);
  }

  lemma {:induction false} LoadSegmentsOk(l: Lists, k: Kernel, e: EnvId, g: seq<Segment>, remaining: nat, prog: Program)
    requires Owned(k) && Loading(l, k, e) && GoodProgram(g) && Unloaded(l, g) && Filed(l, k, e)
    requires STACK_PAGE !in l.Resident() && |l.Resident()| + remaining < l.Capacity()
    requires LoadSegments(l, k, e, g, remaining, prog).Ok?
    ensures var (l', k') := LoadSegments(l, k, e, g, remaining, prog).value;
      && Grown(k, k', e) && Loading(l', k', e) && Filed(l', k', e) && STACK_PAGE !in l'.Resident()
      && l'.activeMax == l.activeMax && l'.secondMax == l.secondMax && |l'.Resident()| < l'.Capacity()
      && |k.diskFree| <= |k'.diskFree| + FileDemand(g)
    decreases |g|
  {
    hide Owned, Grown, Loading, Filed, LoadPages, FileAll, FilePages, LoadCount, End, First, GoodSegment;
    if g == [] {
      GrownReflexive(k, e);
    } else {
      var n := LoadCount(g[0], remaining, prog.isTpp);
      LoadSegmentOk(l, k, e, g[0], remaining, prog);
      var (l1, k1) := LoadPages(l, k, e, First(g[0]), n, prog.image).value;
      var k2 := FileAll(k1, e, FilePages(g[0]), prog.filed).value;
      GrownOwned(k, k2, e);
      assert GoodProgram(g[1..]);
      assert Unloaded(l1, g[1..]) by {
        forall i, q | 0 <= i < |g[1..]| && First(g[1..][i]) <= q < End(g[1..][i]) ensures q !in l1.Resident() {
          assert g[1..][i] == g[i + 1];
          assert Apart(g[0], g[i + 1]);
        }
      }
      LoadSegmentsOk(l1, k2, e, g[1..], remaining - n, prog);
      GrownTransitive(k, k2, LoadSegments(l, k, e, g, remaining, prog).value.1, e);
    }
  }

  // ----- the stack page and the end of env_create -----

  /** Loading, but with the stack page in the last place of ActiveList. */
  ghost predicate LoadedAll(l: Lists, k: Kernel, e: EnvId) {
    && l.Valid() && Structured(k, e)
    && (forall p: Page :: (e, p) in k.pf ==> !IsHeap(p))
    && (forall p: Page :: k.Mapped(e, p) <==> p in l.Resident())
    && (forall p: Page :: k.Mapped(e, p) ==> k.Present(e, p) && !IsHeap(p) && (e, p) in k.pf)
  }

  lemma StackLoads(l: Lists, k: Kernel, k1: Kernel, k2: Kernel, k3: Kernel, e: EnvId)
    requires Loading(l, k, e) && Filed(l, k, e) && STACK_PAGE !in l.Resident()
    requires LoadedWords(k, k1, e, STACK_PAGE) && FiledWords(k2, k3, e, STACK_PAGE)
    requires k2 == SetModified(k1, e, STACK_PAGE, true)
    ensures LoadedAll(EnlistStack(l, STACK_PAGE), k3, e)
  {
    hide LoadedWords, FiledWords, SetModified, Loading, Structured;
    StackWords(k, k1, k2, k3, e);
    StackStructured(l, k, k3, e);
    StackLists(l, k, e);
    forall p: Page
      ensures (e, p) in k3.pf ==> !IsHeap(p)
      ensures k3.Mapped(e, p) <==> p in EnlistStack(l, STACK_PAGE).Resident()
      ensures k3.Mapped(e, p) ==> k3.Present(e, p) && !IsHeap(p) && (e, p) in k3.pf
    {
      LoadingPageFacts(l, k, e, p);
    }
  }

  lemma StackLists(l: Lists, k: Kernel, e: EnvId)
    requires Loading(l, k, e) && STACK_PAGE !in l.Resident()
    ensures EnlistStack(l, STACK_PAGE).Valid()
    ensures EnlistStack(l, STACK_PAGE).Resident() == [STACK_PAGE] + l.Resident()
  {
    assert EnlistStack(l, STACK_PAGE).Resident() == [STACK_PAGE] + l.Resident();
  }

  lemma LoadingPageFacts(l: Lists, k: Kernel, e: EnvId, p: Page)
    requires Loading(l, k, e)
    ensures (e, p) in k.pf ==> !IsHeap(p)
    ensures k.Mapped(e, p) <==> p in l.Resident()
    ensures k.Mapped(e, p) ==> k.Present(e, p) && !IsHeap(p)
  {
  }

  /** All that loading the stack page adds. */
  ghost predicate StackAdded(k: Kernel, k': Kernel, e: EnvId) {
    && (forall s :: s in k'.words <==> s in k.words || s in {Entry(e, STACK_PAGE), Table(e, Pdx(STACK_PAGE)),
                                                             DiskDirectory(e), DiskTable(e, Pdx(STACK_PAGE))})
    && (forall s :: s in k.words && s != Entry(e, STACK_PAGE) ==> k'.words[s] == k.words[s])
    && k'.Present(e, STACK_PAGE)
    && (forall x :: x in k'.pf <==> x in k.pf || x == (e, STACK_PAGE))
  }

  lemma StackWords(k: Kernel, k1: Kernel, k2: Kernel, k3: Kernel, e: EnvId)
    requires LoadedWords(k, k1, e, STACK_PAGE) && FiledWords(k2, k3, e, STACK_PAGE)
    requires k2 == SetModified(k1, e, STACK_PAGE, true)
    ensures StackAdded(k, k3, e)
  {
    assert k2.words.Keys == k1.words.Keys;
  }

  lemma StackStructured(l: Lists, k: Kernel, k3: Kernel, e: EnvId)
    requires Loading(l, k, e) && StackAdded(k, k3, e)
    ensures Structured(k3, e)
  {
  }

  lemma SetModifiedGrows(k: Kernel, e: EnvId, p: Page, on: bool)
    requires Owned(k)
    ensures Grown(k, SetModified(k, e, p, on), e)
  {
    SameFrames(k, SetModified(k, e, p, on), e, p);
  }

  lemma SetPresentGrows(k: Kernel, e: EnvId, p: Page, on: bool)
    requires Owned(k)
    ensures Grown(k, SetPresent(k, e, p, on), e)
  {
    SameFrames(k, SetPresent(k, e, p, on), e, p);
  }

  /** Changing the flags of one entry of e moves no frame. */
  lemma SameFrames(k: Kernel, k': Kernel, e: EnvId, p: Page)
    requires Owned(k) && k' == k.(words := k'.words) && k'.words.Keys == k.words.Keys
    requires forall s :: s in k.words ==> k'.words[s].frame == k.words[s].frame
    requires forall s :: s in k.words && s != Entry(e, p) ==> k'.words[s] == k.words[s]
    ensures Grown(k, k', e)
  {
    assert FramesOf(k'.words) == FramesOf(k.words);
    assert Owned(k');
    assert Undisturbed(k, k', e);
  }

  lemma LoadStackOk(l: Lists, k: Kernel, e: EnvId, image: map<Page, PageData>)
    requires Owned(k) && Loading(l, k, e) && Filed(l, k, e) && STACK_PAGE !in l.Resident()
    requires k.diskFree != [] && LoadStack(l, k, e, image).Ok?
    ensures var (l', k') := LoadStack(l, k, e, image).value;
      && Grown(k, k', e) && LoadedAll(l', k', e)
  {
    hide Owned, Grown, Loading, LoadPage, FilePage, Filed, LoadedAll;
    LoadingMapped(l, k, e, STACK_PAGE);
    LoadPageEffect(k, e, STACK_PAGE, Blank());
    var k1 := LoadPage(k, e, STACK_PAGE, Blank()).value;
    GrownOwned(k, k1, e);
    SetModifiedGrows(k1, e, STACK_PAGE, true);
    var k2 := SetModified(k1, e, STACK_PAGE, true);
    GrownOwned(k1, k2, e);
    GrownTransitive(k, k1, k2, e);
    FilePageEffect(k2, e, STACK_PAGE, ImageOf(image, STACK_PAGE));
    var k3 := FilePage(k2, e, STACK_PAGE, ImageOf(image, STACK_PAGE)).value;
    GrownTransitive(k, k2, k3, e);
    StackLoads(l, k, k1, k2, k3, e);
  }

  lemma {:induction false} HidePagesEffect(k: Kernel, e: EnvId, pages: seq<Page>)
    requires Owned(k)
    ensures var k' := HidePages(k, e, pages);
      && Grown(k, k', e)
      && k'.words.Keys == k.words.Keys && k'.pf == k.pf
      && (forall p :: k'.Present(e, p) <==> k.Present(e, p) && p !in pages)
    decreases |pages|
  {
    hide Owned, Grown;
    if pages == [] {
      GrownReflexive(k, e);
    } else {
      var k1 := SetPresent(k, e, pages[0], false);
      SetPresentGrows(k, e, pages[0], false);
      GrownOwned(k, k1, e);
      HidePagesEffect(k1, e, pages[1..]);
      GrownTransitive(k, k1, HidePages(k, e, pages), e);
      assert k1.words.Keys == k.words.Keys;
      assert pages == [pages[0]] + pages[1..];
      assert forall p :: k1.Present(e, p) <==> k.Present(e, p) && p != pages[0];
    }
  }

  lemma HiddenOk(l: Lists, k: Kernel, k': Kernel, e: EnvId)
    requires LoadedAll(l, k, e)
    requires k'.words.Keys == k.words.Keys && k'.pf == k.pf
    requires forall p :: k'.Present(e, p) <==> k.Present(e, p) && p !in l.second
    ensures EnvOk(l, k', e)
    ensures forall p: Page :: IsHeap(p) ==> !k'.Mapped(e, p)
  {
    Separate(l);
    assert forall p :: p in l.Resident() <==> p in l.active || p in l.second;
    assert forall p :: k'.Mapped(e, p) <==> k.Mapped(e, p);
  }

  lemma LoadingStarts(l: Lists, k: Kernel, e: EnvId)
    requires l.active == [] && l.second == [] && 1 <= l.activeMax && Ensure(k, Directory(e)).Ok?
    requires forall s :: s in k.words ==> s.env != e
    requires forall x :: x in k.pf ==> x.0 != e
    ensures var k0 := Ensure(k, Directory(e)).value;
      Loading(l, k0, e) && k0.diskFree == k.diskFree
  {
    EnsureEffect(k, Directory(e));
    var k0 := Ensure(k, Directory(e)).value;
    forall p ensures (e, p) !in k0.pf { assert (e, p) in k.pf ==> (e, p).0 != e; }
    forall s | s in k0.words && s.env == e ensures s == Directory(e) { }
  }

  /**
   * env_create builds a well-formed environment out of free frames and free disk frames only, and
   * leaves everything the other environments own alone.
   */
  lemma EnvCreateOk(k: Kernel, e: EnvId, activeMax: nat, secondMax: nat, prog: Program)
    requires Owned(k) && 1 <= activeMax && GoodProgram(prog.segments)
    requires forall s :: s in k.words ==> s.env != e
    requires forall x :: x in k.pf ==> x.0 != e
    requires FileDemand(prog.segments) < |k.diskFree| && EnvCreate(k, e, activeMax, secondMax, prog).Ok?
    ensures var (l', k') := EnvCreate(k, e, activeMax, secondMax, prog).value;
      && Grown(k, k', e) && EnvOk(l', k', e)
      && (forall p: Page :: IsHeap(p) ==> !k'.Mapped(e, p))
  {
    hide Owned, Grown, Loading, Ensure, LoadSegments, LoadStack, HidePages, LoadedAll, EnvOk, GoodProgram, FileDemand;
    var k0 := Ensure(k, Directory(e)).value;
    var l0 := Lists(activeMax, secondMax, [], []);
    EnsureGrows(k, e, Directory(e));
    LoadingStarts(l0, k, e);
    GrownOwned(k, k0, e);
    LoadSegmentsOk(l0, k0, e, prog.segments, activeMax + secondMax - 1, prog);
    var (l1, k1) := LoadSegments(l0, k0, e, prog.segments, activeMax + secondMax - 1, prog).value;
    GrownOwned(k0, k1, e);
    GrownTransitive(k, k0, k1, e);
    LoadStackOk(l1, k1, e, prog.filed);
    var (l2, k2) := LoadStack(l1, k1, e, prog.filed).value;
    GrownOwned(k1, k2, e);
    GrownTransitive(k, k1, k2, e);
    HidePagesEffect(k2, e, l2.second);
    GrownTransitive(k, k2, HidePages(k2, e, l2.second), e);
    HiddenOk(l2, k2, HidePages(k2, e, l2.second), e);
  }
}
