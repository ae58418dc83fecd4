/** env_free and pf_free_env: what an environment gives back when it ends. */
module EnvFree {
  import opened Sequences
  import opened TwoLists
  import opened KernelState
  import opened Paging
  import opened UserMemory

  /** The loop over one list: unmap every page whose table exists. */
  function UnmapAll(k: Kernel, e: EnvId, pages: seq<Page>): Kernel
    decreases |pages|
  {
    if pages == [] then k else
    var k1 := if Table(e, Pdx(pages[0])) in k.words then UnmapFrame(k, Entry(e, pages[0])) else k;
    UnmapAll(k1, e, pages[1..])
  }

  /** Frees the frame of a slot outright, unless its count is already zero, and clears the slot. */
  function FreeSlot(k: Kernel, s: Slot): Kernel {
    if s !in k.words then k
    else ClearWord(if k.Refs(k.words[s].frame) != 0 then FreeFrame(k, k.words[s].frame) else k, s)
  }

  function FreeTables(k: Kernel, e: EnvId, d: nat): Kernel
    decreases USER_TABLES - d
  {
    if d >= USER_TABLES then k else FreeTables(FreeSlot(k, Table(e, d)), e, d + 1)
  }

  /** One disk page table: all its entries, then the table itself. */
  function FreeDiskTable(k: Kernel, e: EnvId, d: nat): Kernel {
    if DiskTable(e, d) !in k.words then k
    else UnmapFrame(PfRemoveRange(k, e, 1024 * d, 1024), DiskTable(e, d))
  }

  function FreeDiskTables(k: Kernel, e: EnvId, d: nat): Kernel
    decreases USER_TABLES - d
  {
    if d >= USER_TABLES then k else FreeDiskTables(FreeDiskTable(k, e, d), e, d + 1)
  }

  /** pf_free_env. */
  function PfFreeEnv(k: Kernel, e: EnvId): Kernel {
    UnmapFrame(FreeDiskTables(k, e, 0), DiskDirectory(e))
  }

  /** The words that lived in e's freed tables are gone, whatever they said. */
  function Vacate(k: Kernel, e: EnvId): Kernel {
    k.(words := map s | s in k.words && s.env != e :: k.words[s])
  }

  function EnvFree(l: Lists, k: Kernel, e: EnvId): Kernel {
    var k1 := UnmapAll(UnmapAll(k, e, l.second), e, l.active);
    var k2 := FreeSlot(FreeTables(k1, e, 0), Directory(e));
    Vacate(PfFreeEnv(k2, e), e)
  }

  /** k' is k after giving back some of what e owns. */
  ghost predicate Shrunk(k: Kernel, k': Kernel, e: EnvId) {
    && Owned(k') && Accounted(k') == Accounted(k) && DiskAccounted(k') == DiskAccounted(k)
    && (forall s :: s in k'.words ==> s in k.words && k'.words[s] == k.words[s])
    && (forall s :: s in k.words && s.env != e ==> s in k'.words)
    && (forall x :: x in k'.pf ==> x in k.pf && k'.pf[x] == k.pf[x])
    && (forall x :: x in k.pf && x.0 != e ==> x in k'.pf)
    && k'.ram == k.ram && k'.disk == k.disk
  }

  lemma ShrunkReflexive(k: Kernel, e: EnvId)
    requires Owned(k)
    ensures Shrunk(k, k, e)
  {
  }

  lemma ShrunkTransitive(k: Kernel, k1: Kernel, k2: Kernel, e: EnvId)
    requires Shrunk(k, k1, e) && Shrunk(k1, k2, e)
    ensures Shrunk(k, k2, e)
  {
  }

  lemma UnmapShrinks(k: Kernel, e: EnvId, s: Slot)
    requires Owned(k) && s.env == e
    ensures Shrunk(k, UnmapFrame(k, s), e)
    ensures UnmapFrame(k, s).words == k.words - {s} && UnmapFrame(k, s).pf == k.pf
  {
    UnmapFrameOwned(k, s);
    UnmapFrameDisk(k, s);
    hide Unshared, Counted, FramesOf, UnmapFrame;
  }

  lemma FreeSlotShrinks(k: Kernel, e: EnvId, s: Slot)
    requires Owned(k) && s.env == e
    ensures Shrunk(k, FreeSlot(k, s), e)
    ensures FreeSlot(k, s).words == k.words - {s} && FreeSlot(k, s).pf == k.pf
  {
    if s in k.words {
      FreeIsUnmap(k, s);
      UnmapShrinks(k, e, s);
    }
  }

  lemma {:induction false} UnmapAllShrinks(k: Kernel, e: EnvId, pages: seq<Page>)
    requires Owned(k)
    requires forall p :: Entry(e, p) in k.words ==> Table(e, Pdx(p)) in k.words
    ensures Shrunk(k, UnmapAll(k, e, pages), e)
    ensures forall s :: s in UnmapAll(k, e, pages).words <==> s in k.words && !(s.Entry? && s.env == e && s.page in pages)
    ensures UnmapAll(k, e, pages).pf == k.pf
    decreases |pages|
  {
    hide Shrunk, Owned;
    if pages == [] {
      ShrunkReflexive(k, e);
    } else {
      var p := pages[0];
      var k1 := if Table(e, Pdx(p)) in k.words then UnmapFrame(k, Entry(e, p)) else k;
      UnmapShrinks(k, e, Entry(e, p));
      ShrunkReflexive(k, e);
      assert Owned(k1) by { ShrunkOwned(k, k1, e); }
      assert k1.words == k.words - {Entry(e, p)};
      hide UnmapFrame;
      UnmapAllShrinks(k1, e, pages[1..]);
      ShrunkTransitive(k, k1, UnmapAll(k, e, pages), e);
      assert pages == [p] + pages[1..];
    }
  }

  lemma ShrunkOwned(k: Kernel, k': Kernel, e: EnvId)
    requires Shrunk(k, k', e)
    ensures Owned(k')
  {
  }

  lemma {:induction false} FreeTablesShrinks(k: Kernel, e: EnvId, d: nat)
    requires Owned(k)
    ensures Shrunk(k, FreeTables(k, e, d), e)
    ensures forall s :: s in FreeTables(k, e, d).words <==>
              s in k.words && !(s.Table? && s.env == e && d <= s.pdx < USER_TABLES)
    ensures FreeTables(k, e, d).pf == k.pf
    decreases USER_TABLES - d
  {
    hide Shrunk, Owned, FreeSlot;
    if d >= USER_TABLES {
      ShrunkReflexive(k, e);
    } else {
      var k1 := FreeSlot(k, Table(e, d));
      FreeSlotShrinks(k, e, Table(e, d));
      ShrunkOwned(k, k1, e);
      FreeTablesShrinks(k1, e, d + 1);
      ShrunkTransitive(k, k1, FreeTables(k, e, d), e);
    }
  }

  lemma {:induction false} PfRemoveRangeShrinks(k: Kernel, e: EnvId, p: Page, n: nat)
    requires Owned(k)
    ensures Shrunk(k, PfRemoveRange(k, e, p, n), e)
    ensures PfRemoveRange(k, e, p, n).words == k.words
    ensures forall x :: x in PfRemoveRange(k, e, p, n).pf <==> x in k.pf && !(x.0 == e && p <= x.1 < p + n)
    decreases n
  {
    hide Shrunk, Owned, PfRemove;
    if n == 0 {
      ShrunkReflexive(k, e);
    } else {
      var k1 := PfRemove(k, e, p);
      PfRemoveShrinks(k, e, p);
      ShrunkOwned(k, k1, e);
      PfRemoveRangeShrinks(k1, e, p + 1, n - 1);
      ShrunkTransitive(k, k1, PfRemoveRange(k, e, p, n), e);
    }
  }

  lemma PfRemoveShrinks(k: Kernel, e: EnvId, p: Page)
    requires Owned(k)
    ensures Shrunk(k, PfRemove(k, e, p), e)
    ensures PfRemove(k, e, p).words == k.words && PfRemove(k, e, p).pf == k.pf - {(e, p)}
  {
    PfRemoveOwned(k, e, p);
    hide Unshared, Counted, FramesOf, DiskUnshared, DiskFramesOf;
  }

  lemma FreeDiskTableShrinks(k: Kernel, e: EnvId, d: nat)
    requires Owned(k) && d < USER_TABLES
    requires forall p :: (e, p) in k.pf ==> DiskTable(e, Pdx(p)) in k.words
    ensures Shrunk(k, FreeDiskTable(k, e, d), e)
    ensures FreeDiskTable(k, e, d).words == k.words - {DiskTable(e, d)}
    ensures forall x :: x in FreeDiskTable(k, e, d).pf <==> x in k.pf && !(x.0 == e && Pdx(x.1) == d)
  {
    hide Shrunk, Owned, UnmapFrame, PfRemoveRange;
    if DiskTable(e, d) in k.words {
      var k1 := PfRemoveRange(k, e, 1024 * d, 1024);
      PfRemoveRangeShrinks(k, e, 1024 * d, 1024);
      ShrunkOwned(k, k1, e);
      UnmapShrinks(k1, e, DiskTable(e, d));
      ShrunkTransitive(k, k1, FreeDiskTable(k, e, d), e);
      assert forall p: Page :: 1024 * d <= p < 1024 * d + 1024 <==> Pdx(p) == d;
    } else {
      ShrunkReflexive(k, e);
    }
  }

  lemma {:induction false} FreeDiskTablesShrinks(k: Kernel, e: EnvId, d: nat)
    requires Owned(k)
    requires forall p :: (e, p) in k.pf ==> DiskTable(e, Pdx(p)) in k.words
    ensures Shrunk(k, FreeDiskTables(k, e, d), e)
    ensures forall s :: s in FreeDiskTables(k, e, d).words <==>
              s in k.words && !(s.DiskTable? && s.env == e && d <= s.pdx < USER_TABLES)
    ensures forall x :: x in FreeDiskTables(k, e, d).pf <==>
              x in k.pf && !(x.0 == e && d <= Pdx(x.1) < USER_TABLES)
    decreases USER_TABLES - d
  {
    hide Shrunk, Owned, FreeDiskTable;
    if d >= USER_TABLES {
      ShrunkReflexive(k, e);
    } else {
      var k1 := FreeDiskTable(k, e, d);
      FreeDiskTableShrinks(k, e, d);
      ShrunkOwned(k, k1, e);
      FreeDiskTablesShrinks(k1, e, d + 1);
      ShrunkTransitive(k, k1, FreeDiskTables(k, e, d), e);
    }
  }

  /** The frames pinned for e by allocateMem: mapped, in no list, so nothing in env_free frees them. */
  ghost function PinnedFrames(k: Kernel, e: EnvId): set<Frame> {
    set s | s in k.words && s.Entry? && s.env == e && IsHeap(s.page) :: k.words[s].frame
  }

  /** The state just before the environment's words disappear. */
  ghost function BeforeVacate(l: Lists, k: Kernel, e: EnvId): Kernel {
    PfFreeEnv(FreeSlot(FreeTables(UnmapAll(UnmapAll(k, e, l.second), e, l.active), e, 0), Directory(e)), e)
  }

  /** The memory half of env_free: pages, tables, directory. */
  lemma MemoryShrinks(l: Lists, k: Kernel, e: EnvId)
    requires Owned(k) && EnvOk(l, k, e)
    ensures var k' := FreeSlot(FreeTables(UnmapAll(UnmapAll(k, e, l.second), e, l.active), e, 0), Directory(e));
      && Shrunk(k, k', e) && k'.pf == k.pf
      && (forall s :: s in k'.words <==> s in k.words && (s.env != e || s.DiskTable? || s.DiskDirectory? ||
                                                          (s.Entry? && IsHeap(s.page))))
  {
    hide Shrunk, Owned, FreeSlot, UnmapFrame, UnmapAll, FreeTables, Resides;
    var k1 := UnmapAll(k, e, l.second);
    UnmapAllShrinks(k, e, l.second);
    ShrunkOwned(k, k1, e);
    var k2 := UnmapAll(k1, e, l.active);
    UnmapAllShrinks(k1, e, l.active);
    ShrunkOwned(k1, k2, e);
    ShrunkTransitive(k, k1, k2, e);
    var k3 := FreeTables(k2, e, 0);
    FreeTablesShrinks(k2, e, 0);
    ShrunkOwned(k2, k3, e);
    ShrunkTransitive(k, k2, k3, e);
    var k4 := FreeSlot(k3, Directory(e));
    FreeSlotShrinks(k3, e, Directory(e));
    ShrunkTransitive(k, k3, k4, e);
    forall s ensures s in k4.words <==> s in k.words && (s.env != e || s.DiskTable? || s.DiskDirectory? ||
                                                         (s.Entry? && IsHeap(s.page))) {
      if s in k.words && s.env == e { SlotAfterMemory(l, k, e, s); }
    }
  }

  lemma SlotAfterMemory(l: Lists, k: Kernel, e: EnvId, s: Slot)
    requires EnvOk(l, k, e) && s in k.words && s.env == e
    ensures s.Entry? ==> (IsHeap(s.page) <==> s.page !in l.second && s.page !in l.active)
    ensures s.Table? ==> s.pdx < USER_TABLES
  {
    assert InUserSpace(s);
    if s.Entry? {
      assert s == Entry(e, s.page);
      assert k.Mapped(e, s.page);
    }
  }

  /** The disk half: page file entries, disk tables, disk directory. */
  lemma DiskShrinks(k: Kernel, e: EnvId)
    requires Owned(k)
    requires forall p :: (e, p) in k.pf ==> DiskTable(e, Pdx(p)) in k.words
    requires forall s :: s in k.words && s.env == e ==> InUserSpace(s)
    ensures Shrunk(k, PfFreeEnv(k, e), e)
    ensures forall s :: s in PfFreeEnv(k, e).words <==>
              s in k.words && !(s.env == e && (s.DiskTable? || s.DiskDirectory?))
    ensures forall p :: (e, p) !in PfFreeEnv(k, e).pf
  {
    hide Shrunk, Owned, UnmapFrame, FreeDiskTables;
    var k1 := FreeDiskTables(k, e, 0);
    FreeDiskTablesShrinks(k, e, 0);
    ShrunkOwned(k, k1, e);
    UnmapShrinks(k1, e, DiskDirectory(e));
    ShrunkTransitive(k, k1, UnmapFrame(k1, DiskDirectory(e)), e);
    forall p ensures (e, p) !in k1.pf {
      if (e, p) in k.pf { assert InUserSpace(DiskTable(e, Pdx(p))); }
    }
    forall s | s in k.words && s.env == e && s.DiskTable? ensures s !in k1.words {
      assert InUserSpace(s);
    }
  }

  lemma EnvFreeShrinks(l: Lists, k: Kernel, e: EnvId)
    requires Owned(k) && EnvOk(l, k, e)
    ensures Shrunk(k, BeforeVacate(l, k, e), e)
    ensures forall s :: s in BeforeVacate(l, k, e).words <==>
              s in k.words && (s.env == e ==> s.Entry? && IsHeap(s.page))
    ensures forall p :: (e, p) !in BeforeVacate(l, k, e).pf
  {
    hide Shrunk, Owned, FreeSlot, FreeTables, UnmapAll, PfFreeEnv, Resides;
    MemoryShrinks(l, k, e);
    var k1 := FreeSlot(FreeTables(UnmapAll(UnmapAll(k, e, l.second), e, l.active), e, 0), Directory(e));
    ShrunkOwned(k, k1, e);
    DiskShrinks(k1, e);
    ShrunkTransitive(k, k1, PfFreeEnv(k1, e), e);
  }

  lemma PinnedFramesEmpty(k: Kernel, e: EnvId)
    ensures PinnedFrames(k, e) <= Accounted(k)
    ensures PinnedFrames(k, e) == {} <==> forall p: Page :: IsHeap(p) ==> !k.Mapped(e, p)
  {
    if p: Page :| IsHeap(p) && k.Mapped(e, p) {
      assert Entry(e, p).Entry? && k.words[Entry(e, p)].frame in PinnedFrames(k, e);
    }
  }

  /**
   * env_free returns everything the environment held to the free lists, once, except the frames
   * pinned by allocateMem; exactly those are lost.
   */
  lemma EnvFreeConserves(l: Lists, k: Kernel, e: EnvId)
    requires Owned(k) && EnvOk(l, k, e)
    ensures var k' := EnvFree(l, k, e);
      && Owned(k')
      && (forall s :: s in k'.words <==> s in k.words && s.env != e)
      && (forall x :: x in k'.pf <==> x in k.pf && x.0 != e)
      && Accounted(k') == Accounted(k) - PinnedFrames(k, e)
      && DiskAccounted(k') == DiskAccounted(k)
      && (Accounted(k') == Accounted(k) <==> forall p: Page :: IsHeap(p) ==> !k.Mapped(e, p))
  {
    hide EnvFree, BeforeVacate, Vacate, Shrunk, Owned, EnvOk, Accounted, DiskAccounted, PinnedFrames;
    EnvFreeShrinks(l, k, e);
    EnvFreeVacates(l, k, e);
    VacateLoses(k, BeforeVacate(l, k, e), e);
    PinnedFramesEmpty(k, e);
  }

  lemma EnvFreeVacates(l: Lists, k: Kernel, e: EnvId)
    ensures EnvFree(l, k, e) == Vacate(BeforeVacate(l, k, e), e)
  {
    hide UnmapAll, FreeTables, FreeSlot, PfFreeEnv, Vacate;
  }

  lemma VacateLoses(k: Kernel, j: Kernel, e: EnvId)
    requires Shrunk(k, j, e)
    requires forall s :: s in j.words && s.env == e ==> s.Entry? && IsHeap(s.page)
    requires forall s :: s in k.words && s.Entry? && s.env == e && IsHeap(s.page) ==> s in j.words
    requires forall p :: (e, p) !in j.pf
    ensures var k' := Vacate(j, e);
      && Owned(k')
      && (forall s :: s in k'.words <==> s in k.words && s.env != e)
      && (forall x :: x in k'.pf <==> x in k.pf && x.0 != e)
      && Accounted(k') == Accounted(k) - PinnedFrames(k, e)
      && DiskAccounted(k') == DiskAccounted(k)
  {
    var k' := Vacate(j, e);
    assert forall x :: x in k'.pf ==> x == (x.0, x.1);
    assert DiskAccounted(k') == DiskAccounted(j);
    VacateAccounts(j, e);
    assert PinnedFrames(j, e) == PinnedFrames(k, e);
  }

  lemma VacateAccounts(j: Kernel, e: EnvId)
    requires FramesOwned(j)
    requires forall s :: s in j.words && s.env == e ==> s.Entry? && IsHeap(s.page)
    ensures FramesOwned(Vacate(j, e))
    ensures Accounted(Vacate(j, e)) == Accounted(j) - PinnedFrames(j, e)
  {
    var k' := Vacate(j, e);
    forall f ensures f in Accounted(k') <==> f in Accounted(j) - PinnedFrames(j, e) {
      if f in FramesOf(j.words) {
        var s :| s in j.words && j.words[s].frame == f;
        if s.env != e {
          assert s in k'.words;
          assert f !in PinnedFrames(j, e);
        } else {
          assert f in PinnedFrames(j, e);
          assert f !in j.free;
          assert f !in FramesOf(k'.words);
        }
      }
    }
  }
}
