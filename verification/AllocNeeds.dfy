/**
 * What allocateMem needs: a frame for each word it fills, a disk frame for each page it files, and a
 * frame to spare at each page that is mapped already, whose old frame comes back only afterwards.
 */
module AllocNeeds {
  import opened Sequences
  import opened TwoLists
  import opened KernelState
  import opened Paging
  import opened UserMemory
  import E = EnvCreate
  import opened CreateNeeds

  function AllSlots(e: EnvId, p: Page): set<Slot> { FileSlots(e, p) + PageSlots(e, p) }

  /** The words of pages p to p + n - 1 and of their tables. */
  function MemSlots(e: EnvId, p: Page, n: nat): set<Slot>
    decreases n
  {
    if n == 0 then {} else AllSlots(e, p) + MemSlots(e, p + 1, n - 1)
  }

  function MemFiles(e: EnvId, p: Page, n: nat): set<Filed>
    decreases n
  {
    if n == 0 then {} else {(e, p)} + MemFiles(e, p + 1, n - 1)
  }

  /** After the words w a frame is still free. */
  ghost predicate Spare(k: Kernel, w: set<Slot>) { New(k.words.Keys, w) < |k.free| }

  // ----- one page -----

  /** pf_add_empty_env_page and the test for space. */
  function Added1(k: Kernel, e: EnvId, p: Page): Result<Kernel> {
    var k1 :- PfAdd(k, e, p);
    if (e, p) !in k1.pf then Panic(NoPageFileSpace) else Ok(k1)
  }

  /** allocate_frame and map_frame. */
  function Mapped1(k: Kernel, e: EnvId, p: Page): Result<Kernel> {
    var (k1, f) :- AllocateFrame(k);
    MapFrame(k1, e, p, f)
  }

  lemma PageSteps(k: Kernel, e: EnvId, p: Page)
    ensures AllocatePage(k, e, p) == if Added1(k, e, p).Panic? then Panic(Added1(k, e, p).why) else Mapped1(Added1(k, e, p).value, e, p)
  {
    hide PfAdd, MapFrame;
  }

  lemma AddedNeeds(k: Kernel, e: EnvId, p: Page)
    ensures Added1(k, e, p).Ok? <==> Enough(k, FileSlots(e, p), {(e, p)})
    ensures Added1(k, e, p).Ok? ==> Takes(k, Added1(k, e, p).value, FileSlots(e, p), {(e, p)})
  {
    hide PfAdd, Added, Fits, FileSlots;
    PfAddNeeds(k, e, p);
    AddNothing(k.pf.Keys, |k.diskFree|);
  }

  /** A page without an entry: the frame and perhaps a table. */
  lemma MapNewNeeds(k: Kernel, e: EnvId, p: Page)
    requires !k.Mapped(e, p)
    ensures Mapped1(k, e, p).Ok? <==> Enough(k, PageSlots(e, p), {})
    ensures Mapped1(k, e, p).Ok? ==> Takes(k, Mapped1(k, e, p).value, PageSlots(e, p), {})
  {
    hide Enough, Takes, SetWord, Ensure, Mapped1, Alike;
    NewWordNeeds(k, Entry(e, p));
    MapNewSteps(k, e, p);
    if k.free != [] {
      var k1 := SetWord(AllocateFrame(k).value.0, Entry(e, p), k.free[0]);
      var r := Ensure(k1, Table(e, Pdx(p)));
      EnsureNeeds(k1, Table(e, Pdx(p)));
      WordsInTurn(k, Ok(k1), r, {Entry(e, p)}, {Table(e, Pdx(p))});
      if r.Ok? { AlikeTakes(k, r.value, Mapped1(k, e, p).value, PageSlots(e, p), {}); }
    } else {
      WordsInTurn(k, Panic(NoFreeFrame), Panic(NoFreeFrame), {Entry(e, p)}, {Table(e, Pdx(p))});
    }
  }

  lemma MapNewSteps(k: Kernel, e: EnvId, p: Page)
    requires !k.Mapped(e, p)
    ensures k.free == [] ==> Mapped1(k, e, p).Panic?
    ensures k.free != [] ==>
      var r := Ensure(SetWord(AllocateFrame(k).value.0, Entry(e, p), k.free[0]), Table(e, Pdx(p)));
      && (Mapped1(k, e, p).Ok? <==> r.Ok?)
      && (r.Ok? ==> Alike(r.value, Mapped1(k, e, p).value))
  {
    hide SetWord, Ensure, MapFrame;
    if k.free != [] {
      var (k1, f) := AllocateFrame(k).value;
      EnsureCounts(k1, Table(e, Pdx(p)));
      EnsureCounts(SetWord(k1, Entry(e, p), f), Table(e, Pdx(p)));
      SetWordCounts(k1, Entry(e, p), f);
      if Ensure(k1, Table(e, Pdx(p))).Ok? {
        EnsureEntry(k1, e, p);
        SetWordCounts(Ensure(k1, Table(e, Pdx(p))).value, Entry(e, p), f);
      }
      MapFrameAbsent(k1, e, p, f);
    }
  }

  lemma MapFrameAbsent(k: Kernel, e: EnvId, p: Page, f: Frame)
    requires !k.Mapped(e, p)
    ensures var r := Ensure(k, Table(e, Pdx(p)));
      MapFrame(k, e, p, f) == if r.Ok? then Ok(SetWord(r.value, Entry(e, p), f)) else Panic(r.why)
  {
    if Ensure(k, Table(e, Pdx(p))).Ok? { EnsureEntry(k, e, p); }
  }

  lemma EnsureEntry(k: Kernel, e: EnvId, p: Page)
    requires !k.Mapped(e, p) && Ensure(k, Table(e, Pdx(p))).Ok?
    ensures !Ensure(k, Table(e, Pdx(p))).value.Present(e, p)
  {
  }

  /** A page that is mapped: its old frame comes back after the new one is taken. */
  lemma MapAgainNeeds(k: Kernel, e: EnvId, p: Page)
    requires FramesOwned(k) && k.Present(e, p) && Table(e, Pdx(p)) in k.words
    ensures Mapped1(k, e, p).Ok? <==> k.free != []
    ensures Mapped1(k, e, p).Ok? ==> Alike(k, Mapped1(k, e, p).value)
  {
    if k.free != [] {
      var f := k.words[Entry(e, p)].frame;
      assert k.Refs(f) == 1 && k.free[0] in k.free && f != k.free[0];
      assert Mapped1(k, e, p).value.words.Keys == k.words.Keys;
    }
  }

  /** What one page needs; a mapped one is present, as heap pages are. */
  lemma PageNeeds(k: Kernel, e: EnvId, p: Page)
    requires Owned(k) && (k.Mapped(e, p) ==> k.Present(e, p) && Table(e, Pdx(p)) in k.words)
    ensures AllocatePage(k, e, p).Ok? <==>
      Enough(k, AllSlots(e, p), {(e, p)}) && (k.Mapped(e, p) ==> Spare(k, AllSlots(e, p)))
    ensures AllocatePage(k, e, p).Ok? ==> Takes(k, AllocatePage(k, e, p).value, AllSlots(e, p), {(e, p)})
  {
    hide Enough, Takes, AllocatePage, Added1, Mapped1, Owned, FileSlots, PageSlots, Spare;
    PageSteps(k, e, p);
    AddedNeeds(k, e, p);
    var one: set<Filed> := {(e, p)};
    assert one + {} == one;
    if Added1(k, e, p).Ok? {
      var k1 := Added1(k, e, p).value;
      AddedKeeps(k, e, p);
      if k.Mapped(e, p) {
        MapAgainNeeds(k1, e, p);
        NothingMore(k, k1, e, p);
      } else {
        MapNewNeeds(k1, e, p);
        InTurn(k, Ok(k1), Mapped1(k1, e, p), FileSlots(e, p), one, PageSlots(e, p), {});
      }
    } else if Enough(k, AllSlots(e, p), one) {
      EnoughForFirst(k, FileSlots(e, p), one, PageSlots(e, p), {});
    }
  }

  lemma AddedKeeps(k: Kernel, e: EnvId, p: Page)
    requires Owned(k) && Added1(k, e, p).Ok?
    ensures var k1 := Added1(k, e, p).value;
      && FramesOwned(k1) && (forall s :: s in k.words ==> s in k1.words && k1.words[s] == k.words[s])
      && (k1.Mapped(e, p) <==> k.Mapped(e, p))
  {
    hide Unshared, Counted, DiskUnshared;
    E.PfAddSpace(k, e, p);
    PfAddOwned(k, e, p);
    PfAddEffect(k, e, p);
  }

  /** All words of a mapped page are there, so a second mapping adds none. */
  lemma NothingMore(k: Kernel, k1: Kernel, e: EnvId, p: Page)
    requires Takes(k, k1, FileSlots(e, p), {(e, p)}) && k.Mapped(e, p) && Table(e, Pdx(p)) in k.words
    ensures k1.free != [] <==> Spare(k, AllSlots(e, p))
    ensures Enough(k, AllSlots(e, p), {(e, p)}) && (forall k2 :: Alike(k1, k2) ==> Takes(k, k2, AllSlots(e, p), {(e, p)}))
  {
    CountTwice(k.words.Keys, FileSlots(e, p), PageSlots(e, p));
    var have := k.words.Keys + FileSlots(e, p);
    assert PageSlots(e, p) - have == {} && k.words.Keys + AllSlots(e, p) == have;
  }

  // ----- the range -----

  lemma SpareAfter(k: Kernel, k1: Kernel, w: set<Slot>, f: set<Filed>, v: set<Slot>)
    requires Takes(k, k1, w, f)
    ensures Spare(k1, v) <==> Spare(k, w + v)
  {
    CountTwice(k.words.Keys, w, v);
  }

  lemma MemSlotsStep(e: EnvId, p: Page, n: nat)
    requires n > 0
    ensures MemSlots(e, p, n) == AllSlots(e, p) + MemSlots(e, p + 1, n - 1)
    ensures MemFiles(e, p, n) == {(e, p)} + MemFiles(e, p + 1, n - 1)
    ensures MemSlots(e, p, 1) == AllSlots(e, p) && MemSlots(e, p, 0) == {} && MemFiles(e, p, 0) == {}
  {
    hide AllSlots;
    assert AllSlots(e, p) + MemSlots(e, p + 1, 0) == AllSlots(e, p);
  }

  lemma SameMapped(k: Kernel, k1: Kernel, e: EnvId, p: Page)
    requires Takes(k, k1, AllSlots(e, p), {(e, p)})
    ensures forall q :: q != p ==> (k1.Mapped(e, q) <==> k.Mapped(e, q))
  {
    hide Takes, AllSlots;
    TakesKeys(k, k1, AllSlots(e, p), {(e, p)});
    forall q | q != p ensures k1.Mapped(e, q) <==> k.Mapped(e, q) { OtherEntry(e, p, q); }
  }

  lemma OtherEntry(e: EnvId, p: Page, q: Page)
    requires q != p
    ensures Entry(e, q) !in AllSlots(e, p)
  {
  }

  lemma HeapPage(l: Lists, k: Kernel, e: EnvId, p: Page)
    requires EnvOk(l, k, e) && IsHeap(p)
    ensures k.Mapped(e, p) ==> k.Present(e, p) && Table(e, Pdx(p)) in k.words
  {
  }

  /** A frame is free when q comes up, after the words of pages p to q. */
  ghost predicate SpareAt(k: Kernel, e: EnvId, p: Page, q: Page) { p <= q && Spare(k, MemSlots(e, p, q + 1 - p)) }

  /** At every page that is mapped already a frame is free when its turn comes. */
  ghost predicate SpareAtMapped(k: Kernel, e: EnvId, p: Page, n: nat) {
    forall q :: p <= q < p + n && k.Mapped(e, q) ==> SpareAt(k, e, p, q)
  }

  /**
   * allocateMem on heap pages panics if and only if there are fewer free frames than new words (the
   * pages, their tables and disk tables, a shared table counted once), or fewer disk frames than pages
   * without an entry, or no frame is left when a page comes up that is mapped already, as pages are
   * that an earlier allocateMem mapped. It takes exactly these frames.
   */
  lemma {:induction false} AllocateMemOkIff(l: Lists, k: Kernel, e: EnvId, p: Page, n: nat)
    requires Owned(k) && EnvOk(l, k, e) && HEAP_START <= p && p + n <= HEAP_MAX
    ensures AllocateMem(k, e, p, n).Ok? <==> Enough(k, MemSlots(e, p, n), MemFiles(e, p, n)) && SpareAtMapped(k, e, p, n)
    ensures AllocateMem(k, e, p, n).Ok? ==> Takes(k, AllocateMem(k, e, p, n).value, MemSlots(e, p, n), MemFiles(e, p, n))
    decreases n
  {
    hide Owned, EnvOk, Enough, Takes, AllocatePage, AllSlots, MemSlots, MemFiles, Spare;
    if n == 0 {
      TakesNothing(k);
      EmptyMem(e, p);
    } else {
      MemSlotsStep(e, p, n);
      HeapPage(l, k, e, p);
      PageNeeds(k, e, p);
      var (w, f) := (AllSlots(e, p), {(e, p)});
      var (v, g) := (MemSlots(e, p + 1, n - 1), MemFiles(e, p + 1, n - 1));
      var r := AllocatePage(k, e, p);
      if r.Ok? {
        AllocatePageKeeps(map[], l, k, e, p);
        AllocateMemOkIff(l, r.value, e, p + 1, n - 1);
        EnoughAfter(k, r.value, w, f, v, g);
        RestSpare(k, r.value, e, p, n);
        var r2 := AllocateMem(r.value, e, p + 1, n - 1);
        if r2.Ok? { TakesTwice(k, r.value, r2.value, w, f, v, g); }
      } else if Enough(k, w + v, f + g) {
        EnoughForFirst(k, w, f, v, g);
      }
    }
  }

  lemma EmptyMem(e: EnvId, p: Page)
    ensures MemSlots(e, p, 0) == {} && MemFiles(e, p, 0) == {}
  {
  }

  lemma RestSpare(k: Kernel, k1: Kernel, e: EnvId, p: Page, n: nat)
    requires n > 0 && Takes(k, k1, AllSlots(e, p), {(e, p)})
    requires k.Mapped(e, p) ==> Spare(k, AllSlots(e, p))
    ensures SpareAtMapped(k1, e, p + 1, n - 1) <==> SpareAtMapped(k, e, p, n)
  {
    hide Spare, Takes, AllSlots, MemSlots;
    SameMapped(k, k1, e, p);
    MemSlotsStep(e, p, n);
    forall q: Page | p < q < p + n ensures SpareAt(k1, e, p + 1, q) <==> SpareAt(k, e, p, q) {
      MemSlotsStep(e, p, q + 1 - p);
      SpareAfter(k, k1, AllSlots(e, p), {(e, p)}, MemSlots(e, p + 1, q - p));
    }
    assert SpareAt(k, e, p, p) <==> Spare(k, AllSlots(e, p));
  }

  /** Five frames and one disk frame are enough for one page. */
  lemma OnePage(k: Kernel, e: EnvId, p: Page)
    requires |k.free| >= 5 && k.diskFree != []
    ensures Enough(k, MemSlots(e, p, 1), MemFiles(e, p, 1)) && SpareAtMapped(k, e, p, 1)
  {
    hide AllSlots, New, MemSlots, MemFiles;
    MemSlotsStep(e, p, 1);
    FourSlots(e, p);
    AtMostAll(k.words.Keys, AllSlots(e, p));
    AtMostAll(k.pf.Keys, {(e, p)});
    EmptyMem(e, p + 1);
    assert MemFiles(e, p, 1) == {(e, p)};
    forall q: Page | p <= q < p + 1 ensures SpareAt(k, e, p, q) { assert q + 1 - p == 1; }
  }

  lemma FourSlots(e: EnvId, p: Page)
    ensures |AllSlots(e, p)| <= 4
  {
    TwoSets({DiskDirectory(e)}, {DiskTable(e, Pdx(p))});
    TwoSets({Entry(e, p)}, {Table(e, Pdx(p))});
    TwoSets(FileSlots(e, p), PageSlots(e, p));
  }

  lemma TwoSets<T>(a: set<T>, b: set<T>)
    ensures |a + b| <= |a| + |b|
  {
  }

  lemma AtMostAll<T>(have: set<T>, w: set<T>)
    ensures New(have, w) <= |w|
  {
    assert w == (w - have) + (w * have);
  }
}
