/**
 * The whole state after freeMem: which pages leave memory, which page tables go with them, and that
 * nothing else changes.
 */
module FreeMemEffect {
  import opened Sequences
  import opened TwoLists
  import opened KernelState
  import opened Paging
  import opened UserMemory

  /** Page q is one of the range that freeMem takes out of memory: those in one of the lists. */
  ghost predicate Gone(l: Lists, p: Page, n: nat, q: Page) { p <= q < p + n && q in l.Resident() }

  /** freeMem looks at table d: one of its pages goes. */
  ghost predicate Looks(l: Lists, p: Page, n: nat, d: nat) { exists q: Page :: Gone(l, p, n, q) && Pdx(q) == d }

  /** Some page of table d is mapped. */
  ghost predicate InUse(k: Kernel, e: EnvId, d: nat) { exists q: Page :: Pdx(q) == d && k.Mapped(e, q) }

  ghost predicate PagesFreed(l: Lists, k: Kernel, k': Kernel, e: EnvId, p: Page, n: nat) {
    && (forall q: Page :: k'.Mapped(e, q) <==> k.Mapped(e, q) && !Gone(l, p, n, q))
    && (forall q: Page :: k'.Mapped(e, q) ==>
          k'.words[Entry(e, q)].frame == k.words[Entry(e, q)].frame
          && k'.words[Entry(e, q)].modified == k.words[Entry(e, q)].modified)
    && k'.ram == k.ram && k'.disk == k.disk
  }

  /** A table goes if and only if freeMem looks at it and no page of it is mapped any more. */
  ghost predicate TablesFreed(l: Lists, k: Kernel, k': Kernel, e: EnvId, p: Page, n: nat) {
    && (forall d: nat :: Table(e, d) in k'.words <==> Table(e, d) in k.words && (Looks(l, p, n, d) ==> InUse(k', e, d)))
    && (forall s: Slot :: !s.Entry? && !s.Table? ==> (s in k'.words <==> s in k.words))
    && (forall s: Slot :: !s.Entry? && s in k'.words ==> s in k.words && k'.words[s] == k.words[s])
  }

  // ----- one page -----

  lemma DropIff(k: Kernel, e: EnvId, d: nat)
    ensures var k' := DropEmptyTable(k, e, d);
      && (Table(e, d) in k'.words <==> Table(e, d) in k.words && InUse(k, e, d))
      && (forall s :: s != Table(e, d) ==> (s in k'.words <==> s in k.words))
      && (forall s :: s in k'.words ==> k'.words[s] == k.words[s])
      && k'.ram == k.ram && k'.disk == k.disk
  {
    if s :| s in k.words && s.Entry? && s.env == e && Pdx(s.page) == d { assert k.Mapped(e, s.page); }
    if q: Page :| Pdx(q) == d && k.Mapped(e, q) { assert Entry(e, q).Entry?; }
  }

  /** What taking a listed page out of memory does to the words. */
  lemma ReleaseIs(l: Lists, k: Kernel, e: EnvId, p: Page)
    requires l.Valid() && p in l.Resident()
    ensures var k' := ReleasePage(l, k, e, p).1;
      && (Table(e, Pdx(p)) in k'.words <==> Table(e, Pdx(p)) in k.words && InUse(k', e, Pdx(p)))
      && (forall s :: s != Table(e, Pdx(p)) ==> (s in k'.words <==> s in k.words && s != Entry(e, p)))
      && (forall s :: s in k'.words ==> k'.words[s] == k.words[s] || (s.Entry? && k'.words[s] == k.words[s].(present := true)))
      && k'.ram == k.ram && k'.disk == k.disk
  {
    hide UnmapFrame, DropEmptyTable, SetPresent;
    UnmapFrameWords(k, Entry(e, p));
    UnmapFrameDisk(k, Entry(e, p));
    var k1 := UnmapFrame(k, Entry(e, p));
    var k2 := if p in l.active && l.second != [] then SetPresent(k1, e, l.second[0], true) else k1;
    if l.second != [] { SetPresentWords(k1, e, l.second[0]); }
    DropIff(k2, e, Pdx(p));
    SameUse(k2, DropEmptyTable(k2, e, Pdx(p)), e, Pdx(p));
    assert p in l.active || p in l.second;
  }

  lemma SetPresentWords(k: Kernel, e: EnvId, p: Page)
    ensures var k' := SetPresent(k, e, p, true);
      && k'.words.Keys == k.words.Keys && k'.ram == k.ram && k'.disk == k.disk
      && forall s :: s in k.words ==> k'.words[s] == k.words[s] || (s.Entry? && k'.words[s] == k.words[s].(present := true))
  {
  }

  lemma SameUse(k: Kernel, k': Kernel, e: EnvId, d: nat)
    requires forall s :: s != Table(e, d) ==> (s in k'.words <==> s in k.words)
    ensures InUse(k', e, d) <==> InUse(k, e, d)
  {
    assert forall q: Page :: k'.Mapped(e, q) <==> k.Mapped(e, q);
  }

  lemma FreePageChanges(l: Lists, k: Kernel, e: EnvId, p: Page)
    requires l.Valid()
    ensures var k' := FreePage(l, k, e, p).1; PagesFreed(l, k, k', e, p, 1) && TablesFreed(l, k, k', e, p, 1)
  {
    PfRemoveFields(k, e, p);
    hide PfRemove, ReleasePage;
    var j := PfRemove(k, e, p);
    var k' := ReleasePage(l, j, e, p).1;
    if p in l.Resident() {
      ReleaseIs(l, j, e, p);
      assert Gone(l, p, 1, p);
      assert forall q: Page :: Gone(l, p, 1, q) <==> q == p;
      OneFreed(l, k, k', e, p);
    } else {
      assert FreePage(l, k, e, p) == (l, j) by { NotListed(l, j, e, p); }
      assert forall q: Page :: !Gone(l, p, 1, q);
    }
  }

  lemma NotListed(l: Lists, k: Kernel, e: EnvId, p: Page)
    requires p !in l.Resident()
    ensures ReleasePage(l, k, e, p) == (l, k)
  {
    assert p !in l.active && p !in l.second;
  }

  lemma OneFreed(l: Lists, k: Kernel, k': Kernel, e: EnvId, p: Page)
    requires forall q: Page :: Gone(l, p, 1, q) <==> q == p
    requires Table(e, Pdx(p)) in k'.words <==> Table(e, Pdx(p)) in k.words && InUse(k', e, Pdx(p))
    requires forall s :: s != Table(e, Pdx(p)) ==> (s in k'.words <==> s in k.words && s != Entry(e, p))
    requires forall s :: s in k'.words ==> s in k.words && (k'.words[s] == k.words[s] || (s.Entry? && k'.words[s] == k.words[s].(present := true)))
    requires k'.ram == k.ram && k'.disk == k.disk
    ensures PagesFreed(l, k, k', e, p, 1) && TablesFreed(l, k, k', e, p, 1)
  {
    hide InUse;
    forall d: nat ensures Looks(l, p, 1, d) <==> d == Pdx(p) {
      if d == Pdx(p) { assert Gone(l, p, 1, p); }
    }
  }

  // ----- the range -----

  lemma TogetherFreed(l: Lists, l1: Lists, k: Kernel, k1: Kernel, k': Kernel, e: EnvId, p: Page, n: nat)
    requires n > 0 && forall q: Page :: Gone(l, p, n, q) <==> Gone(l, p, 1, q) || Gone(l1, p + 1, n - 1, q)
    requires PagesFreed(l, k, k1, e, p, 1) && TablesFreed(l, k, k1, e, p, 1)
    requires PagesFreed(l1, k1, k', e, p + 1, n - 1) && TablesFreed(l1, k1, k', e, p + 1, n - 1)
    ensures PagesFreed(l, k, k', e, p, n) && TablesFreed(l, k, k', e, p, n)
  {
    hide Gone;
    forall d: nat ensures Table(e, d) in k'.words <==> Table(e, d) in k.words && (Looks(l, p, n, d) ==> InUse(k', e, d)) {
      TableTogether(l, l1, k, k1, k', e, p, n, d);
    }
  }

  lemma TableTogether(l: Lists, l1: Lists, k: Kernel, k1: Kernel, k': Kernel, e: EnvId, p: Page, n: nat, d: nat)
    requires n > 0 && forall q: Page :: Gone(l, p, n, q) <==> Gone(l, p, 1, q) || Gone(l1, p + 1, n - 1, q)
    requires PagesFreed(l1, k1, k', e, p + 1, n - 1)
    requires Table(e, d) in k1.words <==> Table(e, d) in k.words && (Looks(l, p, 1, d) ==> InUse(k1, e, d))
    requires Table(e, d) in k'.words <==> Table(e, d) in k1.words && (Looks(l1, p + 1, n - 1, d) ==> InUse(k', e, d))
    ensures Table(e, d) in k'.words <==> Table(e, d) in k.words && (Looks(l, p, n, d) ==> InUse(k', e, d))
  {
    hide Gone;
    assert Looks(l, p, n, d) <==> Looks(l, p, 1, d) || Looks(l1, p + 1, n - 1, d);
    if InUse(k', e, d) {
      var q: Page :| Pdx(q) == d && k'.Mapped(e, q);
      assert k1.Mapped(e, q);
    }
    if InUse(k1, e, d) && !Looks(l1, p + 1, n - 1, d) {
      var q: Page :| Pdx(q) == d && k1.Mapped(e, q);
      assert !Gone(l1, p + 1, n - 1, q);
      assert k'.Mapped(e, q);
    }
  }

  lemma GoneSplits(l: Lists, l1: Lists, p: Page, n: nat)
    requires n > 0 && l.Valid() && l1.Resident() == Without(l.Resident(), p)
    ensures forall q: Page :: Gone(l, p, n, q) <==> Gone(l, p, 1, q) || Gone(l1, p + 1, n - 1, q)
  {
    WithoutDistinct(l.Resident(), p);
  }

  /**
   * What freeMem does besides the page file entries: exactly the pages of the range that are in one
   * of the lists leave memory; exactly the tables of such pages go that have no mapped page left; all
   * other words keep frame and MODIFIED, and no byte in memory or on disk changes.
   */
  lemma {:induction false} FreeMemChanges(l: Lists, k: Kernel, e: EnvId, p: Page, n: nat)
    requires Owned(k) && EnvOk(l, k, e)
    ensures var k' := FreeMem(l, k, e, p, n).1; PagesFreed(l, k, k', e, p, n) && TablesFreed(l, k, k', e, p, n)
    decreases n
  {
    hide Owned, FreePage, FreeMem, PagesFreed, TablesFreed, Structured, Resides;
    if n == 0 {
      FreeMemNothing(l, k, e, p);
      NothingFreed(l, k, e, p);
    } else {
      var (l1, k1) := FreePage(l, k, e, p);
      FreePageChanges(l, k, e, p);
      FreePageKeeps(map[], l, k, e, p);
      FreeMemByPage(l, k, e, p, n);
      FreeMemChanges(l1, k1, e, p + 1, n - 1);
      GoneSplits(l, l1, p, n);
      TogetherFreed(l, l1, k, k1, FreeMem(l1, k1, e, p + 1, n - 1).1, e, p, n);
    }
  }

  lemma NothingFreed(l: Lists, k: Kernel, e: EnvId, p: Page)
    ensures PagesFreed(l, k, k, e, p, 0) && TablesFreed(l, k, k, e, p, 0)
  {
  }
}
