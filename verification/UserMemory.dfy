/** User stores, and the kernel side of malloc and free: allocateMem and freeMem. */
module UserMemory {
  import opened Sequences
  import opened TwoLists
  import opened KernelState
  import opened Paging

  // ----- stores -----

  /** The processor writes one byte of a present page and sets MODIFIED. */
  function StoreByte(k: Kernel, e: EnvId, p: Page, o: nat, v: byte): Kernel {
    if !k.Mapped(e, p) || o >= PAGE_SIZE then k else
    var f := k.words[Entry(e, p)].frame;
    SetModified(k.(ram := k.ram[f := k.Ram(f)[o := v]]), e, p, true)
  }

  function LoadByte(k: Kernel, e: EnvId, p: Page, o: nat): byte {
    if !k.Mapped(e, p) || o >= PAGE_SIZE then 0 else k.Ram(k.words[Entry(e, p)].frame)[o]
  }

  lemma StoreOwned(k: Kernel, e: EnvId, p: Page, o: nat, v: byte)
    requires Owned(k)
    ensures Owned(StoreByte(k, e, p, o, v))
    ensures Accounted(StoreByte(k, e, p, o, v)) == Accounted(k)
    ensures DiskAccounted(StoreByte(k, e, p, o, v)) == DiskAccounted(k)
  {
    var k' := StoreByte(k, e, p, o, v);
    assert k'.words.Keys == k.words.Keys;
    assert forall s :: s in k.words ==> k'.words[s].frame == k.words[s].frame;
    assert FramesOf(k'.words) == FramesOf(k.words);
  }

  lemma StoreKept(h: Stores, k: Kernel, e: EnvId, p: Page, o: nat, v: byte)
    requires FramesOwned(k) && Kept(h, k) && k.Mapped(e, p) && o < PAGE_SIZE
    ensures Kept(h[(e, p, o) := v], StoreByte(k, e, p, o, v))
  {
  }

  lemma StoreEnvOk(l: Lists, k: Kernel, e: EnvId, p: Page, o: nat, v: byte, d: EnvId)
    requires EnvOk(l, k, d)
    ensures EnvOk(l, StoreByte(k, e, p, o, v), d)
  {
    var k' := StoreByte(k, e, p, o, v);
    assert k'.words.Keys == k.words.Keys;
    assert forall q :: k'.Mapped(d, q) <==> k.Mapped(d, q);
    assert forall q :: k'.Present(d, q) <==> k.Present(d, q);
  }

  // ----- allocateMem -----

  function AllocatePage(k: Kernel, e: EnvId, p: Page): Result<Kernel> {
    var k1 :- PfAdd(k, e, p);
    if (e, p) !in k1.pf then Panic(NoPageFileSpace) else
    var (k2, f) :- AllocateFrame(k1);
    MapFrame(k2, e, p, f)
  }

  function AllocateMem(k: Kernel, e: EnvId, p: Page, n: nat): Result<Kernel>
    decreases n
  {
    if n == 0 then Ok(k) else
    var k1 :- AllocatePage(k, e, p);
    AllocateMem(k1, e, p + 1, n - 1)
  }

  /** The stores that survive when pages [p, p + n) of e are handed out or given back. */
  function Forget(h: Stores, e: EnvId, p: Page, n: nat): Stores {
    map x | x in h && !(x.0 == e && p <= x.1 < p + n) :: h[x]
  }

  /** Only page p of e has a new word, a table or an entry; an old frame of p is back in the free list. */
  ghost predicate Pinned(k: Kernel, k': Kernel, e: EnvId, p: Page) {
    && (forall s :: s in k'.words <==>
          s in k.words || s in {Entry(e, p), Table(e, Pdx(p)), DiskTable(e, Pdx(p)), DiskDirectory(e)})
    && (forall s :: s in k.words && s != Entry(e, p) ==> k'.words[s] == k.words[s])
    && k'.words[Entry(e, p)].present
    && (forall x :: x in k'.pf <==> x in k.pf || x == (e, p))
    && (forall x :: x in k.pf ==> k'.pf[x] == k.pf[x])
    && k'.disk == k.disk && k'.ram == k.ram
  }

  lemma MapFrameOwned(k: Kernel, e: EnvId, p: Page, f: Frame)
    requires FramesOwned(k) && Detached(k, f) && MapFrame(k, e, p, f).Ok? && (k.Mapped(e, p) ==> k.Present(e, p))
    ensures FramesOwned(MapFrame(k, e, p, f).value)
    ensures Accounted(MapFrame(k, e, p, f).value) == Accounted(k) + {f}
  {
    var t := Table(e, Pdx(p));
    EnsureDetached(k, t, f);
    var k1 := Ensure(k, t).value;
    EnsureEffect(k, t);
    if k1.Present(e, p) {
      UnmapFrameOwned(k1, Entry(e, p));
      var k2 := UnmapFrame(k1, Entry(e, p));
      assert Detached(k2, f);
      SetWordOwned(k2, Entry(e, p), f);
    } else {
      SetWordOwned(k1, Entry(e, p), f);
    }
  }

  /** Ensure takes its frame from the free list, so a detached frame stays detached. */
  lemma EnsureDetached(k: Kernel, s: Slot, f: Frame)
    requires FramesOwned(k) && Detached(k, f) && Ensure(k, s).Ok?
    ensures FramesOwned(Ensure(k, s).value) && Detached(Ensure(k, s).value, f)
    ensures Accounted(Ensure(k, s).value) == Accounted(k)
  {
    EnsureOwned(k, s);
    if s !in k.words {
      assert k.free[0] in k.free;
      assert forall g :: g in k.free[1..] ==> g in k.free;
    }
  }

  lemma AllocatePageOwned(k: Kernel, e: EnvId, p: Page)
    requires Owned(k) && AllocatePage(k, e, p).Ok? && (k.Mapped(e, p) ==> k.Present(e, p))
    ensures Owned(AllocatePage(k, e, p).value)
    ensures Accounted(AllocatePage(k, e, p).value) == Accounted(k)
    ensures DiskAccounted(AllocatePage(k, e, p).value) == DiskAccounted(k)
    ensures (e, p) in k.pf || k.diskFree != []
  {
    hide Unshared, Counted, DiskUnshared, FramesOf, DiskFramesOf;
    var k1 := PfAdd(k, e, p).value;
    EnsureEffect(k, DiskDirectory(e));
    EnsureEffect(Ensure(k, DiskDirectory(e)).value, DiskTable(e, Pdx(p)));
    PfAddOwned(k, e, p);
    PfAddEffect(k, e, p);
    AllocateFrameOwned(k1);
    var (k2, f) := AllocateFrame(k1).value;
    MapFrameOwned(k2, e, p, f);
    MapFrameDisk(k2, e, p, f);
  }

  lemma MapFrameDisk(k: Kernel, e: EnvId, p: Page, f: Frame)
    requires MapFrame(k, e, p, f).Ok?
    ensures var k' := MapFrame(k, e, p, f).value;
      k'.pf == k.pf && k'.diskFree == k.diskFree && k'.disk == k.disk && k'.ram == k.ram
  {
    EnsureEffect(k, Table(e, Pdx(p)));
    UnmapFrameDisk(Ensure(k, Table(e, Pdx(p))).value, Entry(e, p));
  }

  lemma UnmapFrameDisk(k: Kernel, s: Slot)
    ensures var k' := UnmapFrame(k, s);
      k'.pf == k.pf && k'.diskFree == k.diskFree && k'.disk == k.disk && k'.ram == k.ram
  {
  }

  lemma MapFrameWords(k: Kernel, e: EnvId, p: Page, f: Frame)
    requires MapFrame(k, e, p, f).Ok?
    ensures var k' := MapFrame(k, e, p, f).value;
      && (forall s :: s in k'.words <==> s in k.words || s in {Entry(e, p), Table(e, Pdx(p))})
      && (forall s :: s in k.words && s != Entry(e, p) ==> k'.words[s] == k.words[s])
      && k'.words[Entry(e, p)].present
  {
    EnsureEffect(k, Table(e, Pdx(p)));
    var k1 := Ensure(k, Table(e, Pdx(p))).value;
    UnmapFrameWords(k1, Entry(e, p));
    hide UnmapFrame, Ensure;
  }

  lemma UnmapFrameWords(k: Kernel, s: Slot)
    ensures UnmapFrame(k, s).words == k.words - {s}
  {
  }

  lemma AllocatePageEffect(k: Kernel, e: EnvId, p: Page)
    requires AllocatePage(k, e, p).Ok? && ((e, p) in k.pf || k.diskFree != [])
    ensures Pinned(k, AllocatePage(k, e, p).value, e, p)
  {
    PfAddEffect(k, e, p);
    var k1 := PfAdd(k, e, p).value;
    var (k2, f) := AllocateFrame(k1).value;
    MapFrameWords(k2, e, p, f);
    MapFrameDisk(k2, e, p, f);
  }

  lemma PinnedKeeps(h: Stores, l: Lists, k: Kernel, k': Kernel, e: EnvId, p: Page)
    requires EnvOk(l, k, e) && Kept(h, k) && Pinned(k, k', e, p) && IsHeap(p)
    ensures EnvOk(l, k', e)
    ensures Kept(Forget(h, e, p, 1), k')
  {
    PinnedStructured(k, k', e, p);
    PinnedResides(l, k, k', e, p);
    PinnedKept(h, k, k', e, p);
  }

  lemma PinnedStructured(k: Kernel, k': Kernel, e: EnvId, p: Page)
    requires Structured(k, e) && Pinned(k, k', e, p) && IsHeap(p)
    ensures Structured(k', e)
  {
    assert Pdx(p) < USER_TABLES;
  }

  lemma PinnedResides(l: Lists, k: Kernel, k': Kernel, e: EnvId, p: Page)
    requires Resides(l, k, e) && Pinned(k, k', e, p) && IsHeap(p)
    ensures Resides(l, k', e)
  {
    forall q: Page | q != p
      ensures k'.Mapped(e, q) <==> k.Mapped(e, q)
      ensures k'.Present(e, q) <==> k.Present(e, q)
    {
      assert Entry(e, q) != Entry(e, p);
    }
    assert p !in l.active && p !in l.second;
  }

  lemma PinnedKept(h: Stores, k: Kernel, k': Kernel, e: EnvId, p: Page)
    requires Kept(h, k) && Pinned(k, k', e, p)
    ensures Kept(Forget(h, e, p, 1), k')
  {
  }

  lemma PinnedOthers(k: Kernel, k': Kernel, e: EnvId, p: Page)
    requires Pinned(k, k', e, p)
    ensures forall d :: d != e ==> SameFor(k, k', d)
  {
  }

  lemma AllocatePageKeeps(h: Stores, l: Lists, k: Kernel, e: EnvId, p: Page)
    requires Owned(k) && EnvOk(l, k, e) && Kept(h, k) && IsHeap(p) && AllocatePage(k, e, p).Ok?
    ensures var k' := AllocatePage(k, e, p).value;
      && Owned(k') && Accounted(k') == Accounted(k) && DiskAccounted(k') == DiskAccounted(k)
      && EnvOk(l, k', e) && Kept(Forget(h, e, p, 1), k')
      && (forall d :: d != e ==> SameFor(k, k', d))
      && (forall q :: (e, q) in k'.pf <==> (e, q) in k.pf || q == p)
  {
    hide Owned, Kept, SameFor, Structured, Accounted, DiskAccounted, AllocatePage;
    assert k.Mapped(e, p) ==> k.Present(e, p);
    AllocatePageOwned(k, e, p);
    AllocatePageEffect(k, e, p);
    PinnedKeeps(h, l, k, AllocatePage(k, e, p).value, e, p);
    PinnedOthers(k, AllocatePage(k, e, p).value, e, p);
  }

  /** allocateMem on heap pages adds exactly their page-file entries and keeps every other stored byte. */
  lemma {:induction false} AllocateMemKeeps(h: Stores, l: Lists, k: Kernel, e: EnvId, p: Page, n: nat)
    requires Owned(k) && EnvOk(l, k, e) && Kept(h, k)
    requires HEAP_START <= p && p + n <= HEAP_MAX && AllocateMem(k, e, p, n).Ok?
    ensures var k' := AllocateMem(k, e, p, n).value;
      && Owned(k') && Accounted(k') == Accounted(k) && DiskAccounted(k') == DiskAccounted(k)
      && EnvOk(l, k', e) && Kept(Forget(h, e, p, n), k')
      && (forall d :: d != e ==> SameFor(k, k', d))
      && (forall q :: (e, q) in k'.pf <==> (e, q) in k.pf || p <= q < p + n)
    decreases n
  {
    hide EnvOk, Kept, SameFor, Owned, AllocatePage;
    if n == 0 {
      assert Forget(h, e, p, n) == h;
      forall d | d != e ensures SameFor(k, k, d) { SameForReflexive(k, d); }
    } else {
      var k1 := AllocatePage(k, e, p).value;
      AllocatePageKeeps(h, l, k, e, p);
      AllocateMemKeeps(Forget(h, e, p, 1), l, k1, e, p + 1, n - 1);
      assert Forget(Forget(h, e, p, 1), e, p + 1, n - 1) == Forget(h, e, p, n);
      var k' := AllocateMem(k, e, p, n).value;
      forall d | d != e ensures SameFor(k, k', d) { SameForTransitive(k, k1, k', d); }
    }
  }

  // ----- freeMem -----

  /** The table of pages [1024d, 1024d + 1024) goes when no entry is left in it. */
  function DropEmptyTable(k: Kernel, e: EnvId, d: nat): Kernel {
    var t := Table(e, d);
    if t !in k.words || (exists s :: s in k.words && s.Entry? && s.env == e && Pdx(s.page) == d) then k
    else ClearWord(FreeFrame(k, k.words[t].frame), t)
  }

  /** Takes one page out of the lists, if it is there, and out of memory. */
  function ReleasePage(l: Lists, k: Kernel, e: EnvId, p: Page): (Lists, Kernel) {
    if p in l.active || p in l.second then
      var k1 := UnmapFrame(k, Entry(e, p));
      var k2 := if p in l.active && l.second != [] then SetPresent(k1, e, l.second[0], true) else k1;
      (Unlisted(l, p), DropEmptyTable(k2, e, Pdx(p)))
    else (l, k)
  }

  function PfRemoveRange(k: Kernel, e: EnvId, p: Page, n: nat): Kernel
    decreases n
  {
    if n == 0 then k else PfRemoveRange(PfRemove(k, e, p), e, p + 1, n - 1)
  }

  function ReleaseRange(l: Lists, k: Kernel, e: EnvId, p: Page, n: nat): (Lists, Kernel)
    decreases n
  {
    if n == 0 then (l, k) else
    var (l1, k1) := ReleasePage(l, k, e, p);
    ReleaseRange(l1, k1, e, p + 1, n - 1)
  }

  /** freeMem makes two passes: the page file first, then the working set. */
  function FreeMem(l: Lists, k: Kernel, e: EnvId, p: Page, n: nat): (Lists, Kernel) {
    ReleaseRange(l, PfRemoveRange(k, e, p, n), e, p, n)
  }

  /** The same work done page by page. */
  function FreePage(l: Lists, k: Kernel, e: EnvId, p: Page): (Lists, Kernel) {
    ReleasePage(l, PfRemove(k, e, p), e, p)
  }

  /** The same kernel with another page file. */
  function Refiled(k: Kernel, pf: map<(EnvId, Page), DiskFrame>, diskFree: seq<DiskFrame>): Kernel {
    k.(pf := pf, diskFree := diskFree)
  }

  lemma UnmapRefiled(k: Kernel, s: Slot, pf: map<(EnvId, Page), DiskFrame>, diskFree: seq<DiskFrame>)
    ensures UnmapFrame(Refiled(k, pf, diskFree), s) == Refiled(UnmapFrame(k, s), pf, diskFree)
  {
    if s in k.words { DecrementRefiled(k, k.words[s].frame, pf, diskFree); }
    hide DecrementReferences;
  }

  lemma DecrementRefiled(k: Kernel, f: Frame, pf: map<(EnvId, Page), DiskFrame>, diskFree: seq<DiskFrame>)
    ensures DecrementReferences(Refiled(k, pf, diskFree), f) == Refiled(DecrementReferences(k, f), pf, diskFree)
  {
    assert Refiled(k, pf, diskFree).Refs(f) == k.Refs(f);
  }

  lemma DropRefiled(k: Kernel, e: EnvId, d: nat, pf: map<(EnvId, Page), DiskFrame>, diskFree: seq<DiskFrame>)
    ensures DropEmptyTable(Refiled(k, pf, diskFree), e, d) == Refiled(DropEmptyTable(k, e, d), pf, diskFree)
  {
  }

  lemma ReleaseRefiled(l: Lists, k: Kernel, e: EnvId, p: Page,
                       pf: map<(EnvId, Page), DiskFrame>, diskFree: seq<DiskFrame>)
    ensures ReleasePage(l, Refiled(k, pf, diskFree), e, p) ==
            (ReleasePage(l, k, e, p).0, Refiled(ReleasePage(l, k, e, p).1, pf, diskFree))
    ensures ReleasePage(l, k, e, p).1.pf == k.pf && ReleasePage(l, k, e, p).1.diskFree == k.diskFree
  {
    UnmapRefiled(k, Entry(e, p), pf, diskFree);
    UnmapFrameDisk(k, Entry(e, p));
    var k1 := UnmapFrame(k, Entry(e, p));
    var k2 := if p in l.active && l.second != [] then SetPresent(k1, e, l.second[0], true) else k1;
    DropRefiled(k2, e, Pdx(p), pf, diskFree);
    hide UnmapFrame;
  }

  lemma ReleaseCommutes(l: Lists, k: Kernel, e: EnvId, p: Page, q: Page)
    ensures ReleasePage(l, PfRemove(k, e, q), e, p).0 == ReleasePage(l, k, e, p).0
    ensures ReleasePage(l, PfRemove(k, e, q), e, p).1 == PfRemove(ReleasePage(l, k, e, p).1, e, q)
  {
    var j := PfRemove(k, e, q);
    assert j == Refiled(k, j.pf, j.diskFree);
    ReleaseRefiled(l, k, e, p, j.pf, j.diskFree);
    hide ReleasePage;
  }

  lemma {:induction false} ReleaseCommutesRange(l: Lists, k: Kernel, e: EnvId, p: Page, q: Page, n: nat)
    ensures ReleasePage(l, PfRemoveRange(k, e, q, n), e, p) ==
            (ReleasePage(l, k, e, p).0, PfRemoveRange(ReleasePage(l, k, e, p).1, e, q, n))
    decreases n
  {
    if n > 0 {
      hide ReleasePage;
      ReleaseCommutes(l, k, e, p, q);
      ReleaseCommutesRange(l, PfRemove(k, e, q), e, p, q + 1, n - 1);
    }
  }

  /** The two passes of freeMem have the effect of one pass over the pages. */
  lemma FreeMemByPage(l: Lists, k: Kernel, e: EnvId, p: Page, n: nat)
    requires n > 0
    ensures var (l1, k1) := FreePage(l, k, e, p);
      FreeMem(l, k, e, p, n) == FreeMem(l1, k1, e, p + 1, n - 1)
  {
    hide ReleasePage;
    ReleaseCommutesRange(l, PfRemove(k, e, p), e, p, p + 1, n - 1);
  }

  lemma DropEmptyTableEffect(k: Kernel, e: EnvId, d: nat)
    requires FramesOwned(k)
    ensures var k' := DropEmptyTable(k, e, d);
      && FramesOwned(k') && Accounted(k') == Accounted(k)
      && (k'.words == k.words ||
          (k'.words == k.words - {Table(e, d)} && forall p :: Pdx(p) == d ==> Entry(e, p) !in k.words))
      && k'.ram == k.ram && k'.pf == k.pf && k'.diskFree == k.diskFree && k'.disk == k.disk
  {
    var t := Table(e, d);
    if t in k.words {
      FreeIsUnmap(k, t);
      UnmapFrameOwned(k, t);
    }
    forall p | Pdx(p) == d && DropEmptyTable(k, e, d) != k ensures Entry(e, p) !in k.words {
      assert Entry(e, p).Entry?;
    }
  }

  /** What leaves memory with page p: its entry and perhaps its table; the head of second may become present. */
  ghost predicate Released(l: Lists, k: Kernel, k': Kernel, e: EnvId, p: Page) {
    && (forall s :: s in k'.words ==> s in k.words && s != Entry(e, p))
    && (forall s :: s in k.words && s != Entry(e, p) && s != Table(e, Pdx(p)) ==> s in k'.words)
    && (Table(e, Pdx(p)) in k.words && Table(e, Pdx(p)) !in k'.words ==>
          forall q :: Pdx(q) == Pdx(p) ==> Entry(e, q) !in k'.words)
    && (forall s :: s in k'.words ==>
          k'.words[s] == if p in l.active && l.second != [] && s == Entry(e, l.second[0])
                         then k.words[s].(present := true) else k.words[s])
    && k'.ram == k.ram && k'.disk == k.disk
  }

  lemma ReleasePageEffect(l: Lists, k: Kernel, e: EnvId, p: Page)
    requires Owned(k) && l.Valid() && p in l.Resident()
    requires p in l.active && l.second != [] ==> k.Mapped(e, l.second[0])
    ensures var k' := ReleasePage(l, k, e, p).1;
      && Owned(k') && Accounted(k') == Accounted(k)
      && Released(l, k, k', e, p) && k'.pf == k.pf && k'.diskFree == k.diskFree
  {
    Separate(l);
    var k1 := UnmapFrame(k, Entry(e, p));
    UnmapFrameOwned(k, Entry(e, p));
    UnmapFrameDisk(k, Entry(e, p));
    var k2 := k1;
    if p in l.active && l.second != [] {
      assert l.second[0] in l.second;
      SetPresentEffect(k1, e, l.second[0], true);
      k2 := SetPresent(k1, e, l.second[0], true);
    }
    DropEmptyTableEffect(k2, e, Pdx(p));
  }

  lemma ReleasedStructured(l: Lists, k: Kernel, k': Kernel, e: EnvId, p: Page)
    requires Structured(k, e) && Released(l, k, k', e, p) && (forall x :: x in k'.pf ==> x in k.pf)
    ensures Structured(k', e)
  {
  }

  lemma ReleasedResides(l: Lists, k: Kernel, k': Kernel, e: EnvId, p: Page)
    requires l.Valid() && Resides(l, k, e) && p in l.Resident() && Released(l, k, k', e, p)
    requires forall x :: x in k'.pf <==> x in k.pf && x != (e, p)
    ensures Resides(Unlisted(l, p), k', e)
  {
    UnlistMembers(l, p);
    Separate(l);
    assert p in l.active || p in l.second;
    forall q: Page
      ensures k'.Mapped(e, q) <==> k.Mapped(e, q) && q != p
      ensures k'.Mapped(e, q) && !(p in l.active && l.second != [] && q == l.second[0]) ==>
                (k'.Present(e, q) <==> k.Present(e, q))
      ensures p in l.active && l.second != [] && q == l.second[0] && k'.Mapped(e, q) ==> k'.Present(e, q)
    {
    }
  }

  lemma ReleasedKept(h: Stores, l: Lists, k: Kernel, k': Kernel, e: EnvId, p: Page)
    requires Kept(h, k) && Released(l, k, k', e, p)
    requires forall x :: x in k.pf && x != (e, p) ==> x in k'.pf && k'.pf[x] == k.pf[x]
    ensures Kept(Forget(h, e, p, 1), k')
  {
  }

  lemma ReleasedOthers(l: Lists, k: Kernel, k': Kernel, e: EnvId, p: Page)
    requires Released(l, k, k', e, p)
    requires forall x :: x in k'.pf <==> x in k.pf && x != (e, p)
    requires forall x :: x in k'.pf ==> k'.pf[x] == k.pf[x]
    ensures forall d :: d != e ==> SameFor(k, k', d)
  {
  }

  lemma PfRemoveFields(k: Kernel, e: EnvId, p: Page)
    ensures var j := PfRemove(k, e, p);
      && j.words == k.words && j.free == k.free && j.refs == k.refs && j.pf == k.pf - {(e, p)}
      && j.ram == k.ram && j.disk == k.disk
  {
  }

  lemma UnfiledOwned(k: Kernel, e: EnvId, p: Page)
    requires Owned(k)
    ensures var j := PfRemove(k, e, p);
      Owned(j) && Accounted(j) == Accounted(k) && DiskAccounted(j) == DiskAccounted(k)
  {
    PfRemoveOwned(k, e, p);
    PfRemoveFields(k, e, p);
    hide PfRemove, DiskOwned, DiskAccounted;
  }

  lemma FreePageOwned(l: Lists, k: Kernel, e: EnvId, p: Page)
    requires Owned(k) && EnvOk(l, k, e)
    ensures var (l', k') := FreePage(l, k, e, p);
      && Owned(k') && Accounted(k') == Accounted(k) && DiskAccounted(k') == DiskAccounted(k)
      && k'.pf == k.pf - {(e, p)}
      && (p in l.Resident() ==> l' == Unlisted(l, p) && Released(l, k, k', e, p))
      && (p !in l.Resident() ==> l' == l && k' == PfRemove(k, e, p))
  {
    hide PfRemove, DiskOwned, FramesOwned, Released, Accounted;
    var j := PfRemove(k, e, p);
    UnfiledOwned(k, e, p);
    PfRemoveFields(k, e, p);
    if p in l.Resident() {
      assert l.second != [] ==> l.second[0] in l.second;
      ReleasePageEffect(l, j, e, p);
      ReleasedFrom(l, k, j, ReleasePage(l, j, e, p).1, e, p);
      assert ReleasePage(l, j, e, p).0 == Unlisted(l, p) by { ReleaseUnlists(l, j, e, p); }
    } else {
      assert p !in l.active && p !in l.second;
    }
  }

  lemma ReleaseUnlists(l: Lists, k: Kernel, e: EnvId, p: Page)
    requires p in l.Resident()
    ensures ReleasePage(l, k, e, p).0 == Unlisted(l, p)
  {
  }

  lemma ReleasedFrom(l: Lists, k: Kernel, j: Kernel, k': Kernel, e: EnvId, p: Page)
    requires j.words == k.words && j.ram == k.ram && j.disk == k.disk && Released(l, j, k', e, p)
    ensures Released(l, k, k', e, p)
  {
  }

  lemma UnfiledKeeps(h: Stores, l: Lists, k: Kernel, e: EnvId, p: Page)
    requires EnvOk(l, k, e) && Kept(h, k) && p !in l.Resident()
    ensures var k' := PfRemove(k, e, p);
      && EnvOk(l, k', e) && Kept(Forget(h, e, p, 1), k') && (forall d :: d != e ==> SameFor(k, k', d))
  {
    UnfiledEnvOk(l, k, e, p);
    UnfiledKept(h, k, e, p);
    hide PfRemove, EnvOk, Kept, SameFor;
  }

  lemma UnfiledKept(h: Stores, k: Kernel, e: EnvId, p: Page)
    requires Kept(h, k)
    ensures var k' := PfRemove(k, e, p);
      Kept(Forget(h, e, p, 1), k') && (forall d :: d != e ==> SameFor(k, k', d))
  {
    PfRemoveFields(k, e, p);
    hide PfRemove;
  }

  lemma UnfiledEnvOk(l: Lists, k: Kernel, e: EnvId, p: Page)
    requires EnvOk(l, k, e) && p !in l.Resident()
    ensures EnvOk(l, PfRemove(k, e, p), e)
  {
    hide PfRemove;
    PfRemoveFields(k, e, p);
    var k' := PfRemove(k, e, p);
    assert p !in l.active && p !in l.second;
    assert Structured(k', e);
    assert Resides(l, k', e) by {
      assert forall q :: k'.Mapped(e, q) <==> k.Mapped(e, q);
      assert forall q :: k'.Present(e, q) <==> k.Present(e, q);
    }
  }

  lemma FreePageKeeps(h: Stores, l: Lists, k: Kernel, e: EnvId, p: Page)
    requires Owned(k) && EnvOk(l, k, e) && Kept(h, k)
    ensures var (l', k') := FreePage(l, k, e, p);
      && Owned(k') && Accounted(k') == Accounted(k) && DiskAccounted(k') == DiskAccounted(k)
      && EnvOk(l', k', e) && Kept(Forget(h, e, p, 1), k')
      && (forall d :: d != e ==> SameFor(k, k', d))
      && l'.Resident() == Without(l.Resident(), p)
      && k'.pf == k.pf - {(e, p)}
  {
    FreePageOwned(l, k, e, p);
    hide Owned, Structured, Resides, Kept, SameFor, Released, FreePage, PfRemove, Unlisted;
    var (l', k') := FreePage(l, k, e, p);
    if p in l.Resident() {
      UnlistedDeletes(l, p);
      ReleasedStructured(l, k, k', e, p);
      ReleasedResides(l, k, k', e, p);
      ReleasedKept(h, l, k, k', e, p);
      ReleasedOthers(l, k, k', e, p);
    } else {
      UnfiledKeeps(h, l, k, e, p);
      WithoutAbsent(l.Resident(), p);
    }
  }

  /** Deleting pages p, p + 1, ..., p + n - 1 in turn. */
  function WithoutRange(xs: seq<Page>, p: Page, n: nat): seq<Page>
    decreases n
  {
    if n == 0 then xs else WithoutRange(Without(xs, p), p + 1, n - 1)
  }

  lemma FreeMemNothing(l: Lists, k: Kernel, e: EnvId, p: Page)
    ensures FreeMem(l, k, e, p, 0) == (l, k)
  {
  }

  /**
   * freeMem removes exactly the range's page-file entries, deletes exactly its pages from the
   * lists in place, and keeps every invariant and every byte stored elsewhere.
   */
  lemma {:induction false} FreeMemKeeps(h: Stores, l: Lists, k: Kernel, e: EnvId, p: Page, n: nat)
    requires Owned(k) && EnvOk(l, k, e) && Kept(h, k)
    ensures var (l', k') := FreeMem(l, k, e, p, n);
      && Owned(k') && Accounted(k') == Accounted(k) && DiskAccounted(k') == DiskAccounted(k)
      && EnvOk(l', k', e) && Kept(Forget(h, e, p, n), k')
      && (forall d :: d != e ==> SameFor(k, k', d))
      && l'.Resident() == WithoutRange(l.Resident(), p, n)
      && (forall x :: x in k'.pf <==> x in k.pf && !(x.0 == e && p <= x.1 < p + n))
    decreases n
  {
    hide Owned, EnvOk, Kept, SameFor, FreePage, FreeMem;
    if n == 0 {
      FreeMemNothing(l, k, e, p);
      assert Forget(h, e, p, n) == h;
      forall d | d != e ensures SameFor(k, k, d) { SameForReflexive(k, d); }
    } else {
      var (l1, k1) := FreePage(l, k, e, p);
      FreePageKeeps(h, l, k, e, p);
      FreeMemByPage(l, k, e, p, n);
      FreeMemKeeps(Forget(h, e, p, 1), l1, k1, e, p + 1, n - 1);
      assert Forget(Forget(h, e, p, 1), e, p + 1, n - 1) == Forget(h, e, p, n);
      var k' := FreeMem(l, k, e, p, n).1;
      forall d | d != e ensures SameFor(k, k', d) { SameForTransitive(k, k1, k', d); }
    }
  }
}
