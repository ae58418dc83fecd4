/** page_fault_handler as a function of one environment's lists and the kernel state. */
module Paging {
  import opened Sequences
  import opened TwoLists
  import opened KernelState

  /** Writes a modified victim to its page-file entry, then unmaps it. */
  function Evict(k: Kernel, e: EnvId, v: Page): Result<Kernel> {
    if !k.Mapped(e, v) then Ok(k) else
    var w := k.words[Entry(e, v)];
    var k1 :- if w.modified then PfUpdate(k, e, v, w.frame) else Ok(k);
    Ok(UnmapFrame(k1, Entry(e, v)))
  }

  /** Maps a fresh frame at p and fills it from the page file, or starts a new stack page. */
  function PageIn(k: Kernel, e: EnvId, p: Page): Result<Kernel> {
    var (k1, f) :- AllocateFrame(k);
    var k2 :- MapFrame(k1, e, p, f);
    if (e, p) in k2.pf then Ok(PfRead(k2, e, p))
    else if IsStack(p) then PfAdd(k2, e, p)
    else Panic(IllegalAccess)
  }

  /** A fault on a page of SecondList: it swaps places with the tail of ActiveList. */
  function Promote(l: Lists, k: Kernel, e: EnvId, p: Page): Kernel {
    var k1 := SetPresent(k, e, p, true);
    if l.active == [] then k1 else SetPresent(k1, e, Last(l.active), false)
  }

  /** A full working set loses its last resident page. */
  function EvictLast(l: Lists, k: Kernel, e: EnvId): Result<Kernel> {
    if l.Full() && l.Resident() != [] then Evict(k, e, Last(l.Resident())) else Ok(k)
  }

  /** A full ActiveList hands its tail to SecondList, if there is one. */
  function DemoteTail(l: Lists, k: Kernel, e: EnvId): Kernel {
    if |l.active| == l.activeMax && l.active != [] && l.secondMax > 0
    then SetPresent(k, e, Last(l.active), false) else k
  }

  function MakeRoom(l: Lists, k: Kernel, e: EnvId): Result<Kernel> {
    var k1 :- EvictLast(l, k, e);
    Ok(DemoteTail(l, k1, e))
  }

  function PageFault(l: Lists, k: Kernel, e: EnvId, p: Page): Result<(Lists, Kernel)> {
    if p in l.second then Ok((Faulted(l, p), Promote(l, k, e, p)))
    else
      var k1 :- MakeRoom(l, k, e);
      var k2 :- PageIn(k1, e, p);
      Ok((Faulted(l, p), k2))
  }

  /**
   * A user access: fault_handler runs until the page is present. A missing table faults first
   * (table_fault_handler) and the retried access then faults on the page.
   */
  function Touch(l: Lists, k: Kernel, e: EnvId, p: Page): Result<(Lists, Kernel)> {
    if k.Present(e, p) then Ok((l, k))
    else if p >= STACK_TOP then Panic(StackUnderflow)
    else
      var k1 :- Ensure(k, Table(e, Pdx(p)));
      PageFault(l, k1, e, p)
  }

  // ----- what every reachable state keeps -----

  /** Every entry of e has its table, in memory and on disk, below USER_TOP. */
  ghost predicate Structured(k: Kernel, e: EnvId) {
    && Directory(e) in k.words
    && DiskDirectory(e) in k.words
    && (forall p :: Entry(e, p) in k.words ==> Table(e, Pdx(p)) in k.words)
    && (forall p :: (e, p) in k.pf ==> DiskTable(e, Pdx(p)) in k.words)
    && (forall s :: s in k.words && s.env == e ==> InUserSpace(s))
  }

  /** Active pages are present, second pages are mapped only, all other mapped pages are pinned heap pages. */
  ghost predicate Resides(l: Lists, k: Kernel, e: EnvId) {
    && (forall p :: p in l.active ==> k.Present(e, p))
    && (forall p :: p in l.second ==> k.Mapped(e, p) && !k.Present(e, p))
    && (forall p :: p in l.active || p in l.second ==> (e, p) in k.pf && !IsHeap(p))
    && (forall p :: k.Mapped(e, p) ==> p in l.active || p in l.second || (IsHeap(p) && k.Present(e, p)))
    && (forall p: Page :: IsHeap(p) && (e, p) in k.pf ==> k.Mapped(e, p))
  }

  /** Environment e's lists, page tables and page file agree. */
  ghost predicate EnvOk(l: Lists, k: Kernel, e: EnvId) {
    l.Valid() && Structured(k, e) && Resides(l, k, e)
  }

  /** The bytes stored so far and not released since: (environment, page, offset) -> value. */
  type Stores = map<(EnvId, Page, nat), byte>

  /** Where a stored byte must be: in the page's frame, and on disk too unless the frame is modified. */
  ghost predicate Kept(h: Stores, k: Kernel) {
    forall e, p, o :: (e, p, o) in h ==>
      && o < PAGE_SIZE
      && (k.Mapped(e, p) ==> k.Ram(k.words[Entry(e, p)].frame)[o] == h[(e, p, o)])
      && (!k.Mapped(e, p) || !k.words[Entry(e, p)].modified ==>
            (e, p) in k.pf && k.Disk(k.pf[(e, p)])[o] == h[(e, p, o)])
  }

  ghost predicate Owned(k: Kernel) { FramesOwned(k) && DiskOwned(k) }

  /** Nothing that belongs to environment e differs between k and k'. */
  ghost predicate SameFor(k: Kernel, k': Kernel, e: EnvId) {
    && (forall s: Slot :: s.env == e ==> (s in k.words <==> s in k'.words))
    && (forall s: Slot :: s.env == e && s in k.words ==> k.words[s] == k'.words[s])
    && (forall p :: (e, p) in k.pf <==> (e, p) in k'.pf)
    && (forall p :: (e, p) in k.pf ==> k.pf[(e, p)] == k'.pf[(e, p)])
  }

  lemma SameForKeepsEnvOk(l: Lists, k: Kernel, k': Kernel, e: EnvId)
    requires EnvOk(l, k, e) && SameFor(k, k', e)
    ensures EnvOk(l, k', e)
  {
    assert forall p :: k.Mapped(e, p) <==> k'.Mapped(e, p) by {
      assert forall p :: Entry(e, p).env == e;
    }
    assert forall p :: k.Present(e, p) <==> k'.Present(e, p) by {
      assert forall p :: Entry(e, p).env == e;
    }
    assert forall p :: Table(e, Pdx(p)).env == e && DiskTable(e, Pdx(p)).env == e;
    assert Directory(e).env == e && DiskDirectory(e).env == e;
  }

  // ----- effects of the building blocks -----

  lemma EvictEffect(k: Kernel, e: EnvId, v: Page)
    requires Owned(k) && k.Mapped(e, v) && (e, v) in k.pf && DiskDirectory(e) in k.words
    ensures Evict(k, e, v).Ok?
    ensures var k' := Evict(k, e, v).value;
      && Owned(k')
      && k'.words == k.words - {Entry(e, v)}
      && k'.ram == k.ram && k'.pf == k.pf && k'.diskFree == k.diskFree
      && Accounted(k') == Accounted(k)
      && (forall x :: x in k.pf && x != (e, v) ==> k'.Disk(k.pf[x]) == k.Disk(k.pf[x]))
      && k'.Disk(k.pf[(e, v)]) ==
           (if k.words[Entry(e, v)].modified then k.Ram(k.words[Entry(e, v)].frame) else k.Disk(k.pf[(e, v)]))
  {
    var w := k.words[Entry(e, v)];
    var k1 := if w.modified then PfUpdate(k, e, v, w.frame).value else k;
    assert FramesOwned(k1);
    UnmapFrameOwned(k1, Entry(e, v));
    assert Accounted(k1) == Accounted(k);
  }

  lemma SetPresentEffect(k: Kernel, e: EnvId, p: Page, on: bool)
    requires Owned(k) && k.Mapped(e, p)
    ensures var k' := SetPresent(k, e, p, on);
      && Owned(k')
      && k'.words.Keys == k.words.Keys
      && Accounted(k') == Accounted(k)
      && (forall s :: s in k.words && s != Entry(e, p) ==> k'.words[s] == k.words[s])
      && k'.words[Entry(e, p)] == k.words[Entry(e, p)].(present := on)
  {
    var k' := SetPresent(k, e, p, on);
    assert forall s :: s in k.words ==> k'.words[s].frame == k.words[s].frame;
  }

  lemma PfAddOwned(k: Kernel, e: EnvId, p: Page)
    requires Owned(k) && PfAdd(k, e, p).Ok? && ((e, p) in k.pf || k.diskFree != [])
    ensures Owned(PfAdd(k, e, p).value)
    ensures Accounted(PfAdd(k, e, p).value) == Accounted(k)
    ensures DiskAccounted(PfAdd(k, e, p).value) == DiskAccounted(k)
  {
    hide Unshared, Counted, DiskUnshared, FramesOf, DiskFramesOf;
    EnsureOwned(k, DiskDirectory(e));
    var k1 := Ensure(k, DiskDirectory(e)).value;
    EnsureOwned(k1, DiskTable(e, Pdx(p)));
    var k2 := Ensure(k1, DiskTable(e, Pdx(p))).value;
    TakeDiskFrameOwned(k2, e, p);
  }

  lemma PfAddEffect(k: Kernel, e: EnvId, p: Page)
    requires PfAdd(k, e, p).Ok? && ((e, p) in k.pf || k.diskFree != [])
    ensures var k' := PfAdd(k, e, p).value;
      && (forall s :: s in k'.words <==> s in k.words || s == DiskDirectory(e) || s == DiskTable(e, Pdx(p)))
      && (forall s :: s in k.words ==> k'.words[s] == k.words[s])
      && k'.ram == k.ram && k'.disk == k.disk
      && (forall x :: x in k'.pf <==> x in k.pf || x == (e, p))
      && (forall x :: x in k.pf ==> k'.pf[x] == k.pf[x])
  {
    EnsureEffect(k, DiskDirectory(e));
    var k1 := Ensure(k, DiskDirectory(e)).value;
    EnsureEffect(k1, DiskTable(e, Pdx(p)));
    var k2 := Ensure(k1, DiskTable(e, Pdx(p))).value;
    var k' := TakeDiskFrame(k2, e, p);
    assert k'.words == k2.words;
    if (e, p) !in k2.pf { assert k'.pf == k2.pf[(e, p) := k2.diskFree[0]]; }
  }

  lemma MapFreshEffect(k: Kernel, e: EnvId, p: Page)
    requires FramesOwned(k) && k.free != [] && !k.Mapped(e, p) && Table(e, Pdx(p)) in k.words
    ensures var (k1, f) := AllocateFrame(k).value;
      && MapFrame(k1, e, p, f) == Ok(SetWord(k1, Entry(e, p), f))
      && FramesOwned(SetWord(k1, Entry(e, p), f))
      && Accounted(SetWord(k1, Entry(e, p), f)) == Accounted(k)
      && Detached(k1, f) && f in k.free
  {
    AllocateFrameOwned(k);
    var (k1, f) := AllocateFrame(k).value;
    SetWordOwned(k1, Entry(e, p), f);
  }

  lemma PfReadOwned(k: Kernel, e: EnvId, p: Page)
    requires Owned(k) && k.Mapped(e, p) && (e, p) in k.pf
    ensures Owned(PfRead(k, e, p))
    ensures Accounted(PfRead(k, e, p)) == Accounted(k)
    ensures DiskAccounted(PfRead(k, e, p)) == DiskAccounted(k)
  {
    var k' := PfRead(k, e, p);
    assert forall s :: s in k.words ==> k'.words[s].frame == k.words[s].frame;
    assert FramesOf(k'.words) == FramesOf(k.words);
  }

  lemma PageInOwned(k: Kernel, e: EnvId, p: Page)
    requires Owned(k) && !k.Mapped(e, p) && Table(e, Pdx(p)) in k.words
    requires ((e, p) in k.pf || k.diskFree != []) && PageIn(k, e, p).Ok?
    ensures Owned(PageIn(k, e, p).value)
    ensures Accounted(PageIn(k, e, p).value) == Accounted(k)
    ensures DiskAccounted(PageIn(k, e, p).value) == DiskAccounted(k)
    ensures (e, p) in k.pf || IsStack(p)
  {
    MapFreshEffect(k, e, p);
    var (k1, f) := AllocateFrame(k).value;
    var k2 := SetWord(k1, Entry(e, p), f);
    if (e, p) in k.pf { PfReadOwned(k2, e, p); } else { PfAddOwned(k2, e, p); }
  }

  /** Everything but page p's own words and entry is the same, and p is freshly mapped. */
  ghost predicate Placed(k: Kernel, k': Kernel, e: EnvId, p: Page) {
    && (forall s :: s in k'.words <==> s in k.words || s == Entry(e, p) || s == DiskTable(e, Pdx(p)))
    && (forall s :: s in k.words ==> k'.words[s] == k.words[s])
    && k'.words[Entry(e, p)].present && !k'.words[Entry(e, p)].modified
    && (forall x :: x in k'.pf <==> x in k.pf || x == (e, p))
    && (forall x :: x in k.pf ==> k'.pf[x] == k.pf[x])
    && k'.disk == k.disk
    && ((e, p) in k.pf ==> k'.Ram(k'.words[Entry(e, p)].frame) == k.Disk(k.pf[(e, p)]))
    && (forall s :: s in k.words ==> k'.Ram(k.words[s].frame) == k.Ram(k.words[s].frame))
  }

  lemma ReadPlaces(k: Kernel, k2: Kernel, e: EnvId, p: Page, f: Frame)
    requires k2.words == k.words[Entry(e, p) := Word(f, true, false)]
    requires k2.ram == k.ram && k2.pf == k.pf && k2.disk == k.disk
    requires (e, p) in k.pf && Entry(e, p) !in k.words && DiskTable(e, Pdx(p)) in k.words
    requires forall s :: s in k.words ==> k.words[s].frame != f
    ensures Placed(k, PfRead(k2, e, p), e, p)
  {
    var k' := PfRead(k2, e, p);
    assert k'.words == k2.words;
  }

  lemma StartPlaces(k: Kernel, k2: Kernel, e: EnvId, p: Page, f: Frame)
    requires k2.words == k.words[Entry(e, p) := Word(f, true, false)]
    requires k2.ram == k.ram && k2.pf == k.pf && k2.disk == k.disk
    requires (e, p) !in k.pf && Entry(e, p) !in k.words && DiskDirectory(e) in k.words
    requires k2.diskFree != [] && PfAdd(k2, e, p).Ok?
    ensures Placed(k, PfAdd(k2, e, p).value, e, p)
  {
    PfAddEffect(k2, e, p);
  }

  lemma PageInEffect(k: Kernel, e: EnvId, p: Page)
    requires FramesOwned(k) && !k.Mapped(e, p) && Table(e, Pdx(p)) in k.words && DiskDirectory(e) in k.words
    requires (e, p) in k.pf ==> DiskTable(e, Pdx(p)) in k.words
    requires ((e, p) in k.pf || k.diskFree != []) && PageIn(k, e, p).Ok?
    ensures Placed(k, PageIn(k, e, p).value, e, p)
  {
    MapFreshEffect(k, e, p);
    var (k1, f) := AllocateFrame(k).value;
    var k2 := SetWord(k1, Entry(e, p), f);
    assert forall s :: s in k.words ==> k.words[s].frame != f;
    if (e, p) in k.pf {
      ReadPlaces(k, k2, e, p, f);
    } else {
      StartPlaces(k, k2, e, p, f);
    }
  }

  // ----- the handler keeps what was stored -----

  lemma EvictKept(h: Stores, k: Kernel, e: EnvId, v: Page)
    requires Owned(k) && k.Mapped(e, v) && (e, v) in k.pf && DiskDirectory(e) in k.words && Kept(h, k)
    ensures Evict(k, e, v).Ok? && Kept(h, Evict(k, e, v).value)
  {
    EvictEffect(k, e, v);
  }

  lemma SetPresentKept(h: Stores, k: Kernel, e: EnvId, p: Page, on: bool)
    requires Kept(h, k)
    ensures Kept(h, SetPresent(k, e, p, on))
  {
  }

  lemma PlacedKept(h: Stores, k: Kernel, k': Kernel, e: EnvId, p: Page)
    requires Kept(h, k) && Placed(k, k', e, p) && !k.Mapped(e, p)
    ensures Kept(h, k')
  {
  }

  // ----- one fault, step by step -----

  /** MakeRoom's effect on the words: the victim's entry is gone, the active tail is not present. */
  ghost predicate RoomMade(l: Lists, k: Kernel, k': Kernel, e: EnvId) {
    && (forall s :: s in k'.words <==> s in k.words && !(l.Full() && l.Resident() != [] && s == Entry(e, Last(l.Resident()))))
    && (forall s :: s in k'.words ==>
          k'.words[s] == if |l.active| == l.activeMax && l.active != [] && s == Entry(e, Last(l.active))
                         then k.words[s].(present := false) else k.words[s])
    && k'.pf == k.pf && k'.diskFree == k.diskFree && k'.ram == k.ram
  }

  lemma StructuredBasics(k: Kernel, e: EnvId)
    ensures Structured(k, e) ==> Directory(e) in k.words && DiskDirectory(e) in k.words
  {
  }

  lemma EvictLastEffect(l: Lists, k: Kernel, e: EnvId)
    requires EnvOk(l, k, e) && Owned(k)
    ensures EvictLast(l, k, e).Ok?
    ensures var k1 := EvictLast(l, k, e).value;
      && Owned(k1) && Accounted(k1) == Accounted(k)
      && k1.words == (if l.Full() then k.words - {Entry(e, Last(l.Resident()))} else k.words)
      && k1.pf == k.pf && k1.diskFree == k.diskFree && k1.ram == k.ram
      && (|l.active| == l.activeMax && l.secondMax > 0 ==> k1.Mapped(e, Last(l.active)))
  {
    hide Owned, Structured, Evict, Accounted;
    assert Structured(k, e) ==> DiskDirectory(e) in k.words by { StructuredBasics(k, e); }
    Separate(l);
    assert l.active != [] ==> Last(l.active) in l.active;
    if l.Full() {
      var v := Last(l.Resident());
      assert v == if l.second == [] then Last(l.active) else Last(l.second);
      assert v in l.active || v in l.second;
      EvictEffect(k, e, v);
    }
  }

  lemma DemoteTailEffect(l: Lists, k: Kernel, k1: Kernel, e: EnvId)
    requires l.Valid() && Owned(k1)
    requires |l.active| == l.activeMax && l.secondMax > 0 ==> k1.Mapped(e, Last(l.active))
    requires k1.words == if l.Full() then k.words - {Entry(e, Last(l.Resident()))} else k.words
    requires k1.pf == k.pf && k1.diskFree == k.diskFree && k1.ram == k.ram
    ensures var k' := DemoteTail(l, k1, e);
      Owned(k') && Accounted(k') == Accounted(k1) && RoomMade(l, k, k', e)
  {
    if |l.active| == l.activeMax && l.secondMax > 0 {
      SetPresentEffect(k1, e, Last(l.active), false);
    } else if l.Full() {
      assert l.second == [] && l.Resident() == l.active;
    }
  }

  lemma MakeRoomEffect(l: Lists, k: Kernel, e: EnvId)
    requires EnvOk(l, k, e) && Owned(k)
    ensures MakeRoom(l, k, e).Ok?
    ensures Owned(MakeRoom(l, k, e).value)
    ensures Accounted(MakeRoom(l, k, e).value) == Accounted(k)
    ensures RoomMade(l, k, MakeRoom(l, k, e).value, e)
  {
    EvictLastEffect(l, k, e);
    DemoteTailEffect(l, k, EvictLast(l, k, e).value, e);
  }

  /** The page a full working set gives up is mapped and in the page file. */
  lemma VictimListed(l: Lists, k: Kernel, e: EnvId)
    requires EnvOk(l, k, e) && l.Full()
    ensures l.Resident() != [] && DiskDirectory(e) in k.words
    ensures k.Mapped(e, Last(l.Resident())) && (e, Last(l.Resident())) in k.pf
  {
    Separate(l);
    var v := Last(l.Resident());
    assert v == if l.second == [] then Last(l.active) else Last(l.second);
    assert v in l.active || v in l.second;
  }

  lemma MakeRoomKept(h: Stores, l: Lists, k: Kernel, e: EnvId)
    requires EnvOk(l, k, e) && Owned(k) && Kept(h, k)
    ensures MakeRoom(l, k, e).Ok? && Kept(h, MakeRoom(l, k, e).value)
  {
    hide Kept, Evict, Owned;
    if l.Full() {
      VictimListed(l, k, e);
      EvictKept(h, k, e, Last(l.Resident()));
    }
    var k1 := if l.Full() then Evict(k, e, Last(l.Resident())).value else k;
    if l.active != [] { SetPresentKept(h, k1, e, Last(l.active), false); }
  }

  /** How one page's entry is carried through a fault on another page. */
  lemma PlacedPage(l: Lists, k: Kernel, k1: Kernel, k': Kernel, e: EnvId, p: Page, q: Page)
    requires RoomMade(l, k, k1, e) && Placed(k1, k', e, p) && q != p && l.Valid()
    ensures k'.Mapped(e, q) <==> k.Mapped(e, q) && !(l.Full() && q == Last(l.Resident()))
    ensures k'.Mapped(e, q) ==>
      (k'.Present(e, q) <==> k.Present(e, q) && !(|l.active| == l.activeMax && q == Last(l.active)))
  {
    var s := Entry(e, q);
    if s in k1.words { assert k'.words[s] == k1.words[s]; }
  }

  lemma PlacedPageOk(l: Lists, k: Kernel, k1: Kernel, k': Kernel, e: EnvId, p: Page, q: Page)
    requires l.Valid() && Resides(l, k, e) && RoomMade(l, k, k1, e) && Placed(k1, k', e, p)
    requires !k.Mapped(e, p) && p !in l.Resident() && !IsHeap(p)
    ensures q in Faulted(l, p).active ==> k'.Present(e, q)
    ensures q in Faulted(l, p).second ==> k'.Mapped(e, q) && !k'.Present(e, q)
    ensures k'.Mapped(e, q) ==>
              q in Faulted(l, p).active || q in Faulted(l, p).second || (IsHeap(q) && k'.Present(e, q))
    ensures q in Faulted(l, p).active || q in Faulted(l, p).second ==> (e, q) in k'.pf && !IsHeap(q)
    ensures IsHeap(q) && (e, q) in k'.pf ==> k'.Mapped(e, q)
  {
    hide Faulted;
    FaultMembers(l, p);
    if q == p {
      assert q !in l.active && q !in l.second;
      assert |l.active| == l.activeMax ==> Last(l.active) in l.active;
      hide RoomMade, Resides;
    } else {
      PlacedOther(l, k, k1, k', e, p, q);
    }
  }

  /** A page other than the faulting one: only the victim is unmapped, only the active tail hidden. */
  lemma PlacedOther(l: Lists, k: Kernel, k1: Kernel, k': Kernel, e: EnvId, p: Page, q: Page)
    requires l.Valid() && Resides(l, k, e) && RoomMade(l, k, k1, e) && Placed(k1, k', e, p) && q != p
    ensures var gone := l.Full() && q == Last(l.Resident());
      var tail := |l.active| == l.activeMax && q == Last(l.active);
      && (q in l.active && !tail ==> k'.Present(e, q))
      && (l.secondMax > 0 && tail ==> k'.Mapped(e, q) && !k'.Present(e, q))
      && (q in l.second && !gone ==> k'.Mapped(e, q) && !k'.Present(e, q))
      && (k'.Mapped(e, q) ==>
            (q in l.active && !(tail && l.secondMax == 0)) || (q in l.second && !gone) || (IsHeap(q) && k'.Present(e, q)))
      && (q in l.active || q in l.second ==> (e, q) in k'.pf && !IsHeap(q))
      && (IsHeap(q) && (e, q) in k'.pf ==> k'.Mapped(e, q))
  {
    Separate(l);
    if l.Full() { assert Last(l.Resident()) == if l.second == [] then Last(l.active) else Last(l.second); }
    PlacedPage(l, k, k1, k', e, p, q);
    assert k.Mapped(e, q) ==> q in l.active || q in l.second || (IsHeap(q) && k.Present(e, q));
    assert l.active != [] ==> Last(l.active) in l.active;
    assert l.second != [] ==> Last(l.second) in l.second;
  }

  lemma PlacedStructured(l: Lists, k: Kernel, k1: Kernel, k': Kernel, e: EnvId, p: Page)
    requires Structured(k, e) && RoomMade(l, k, k1, e) && Placed(k1, k', e, p) && Table(e, Pdx(p)) in k.words
    ensures Structured(k', e)
  {
    assert forall s: Slot :: !s.Entry? && s in k.words ==> s in k1.words && s in k'.words;
  }

  lemma PlacedEnvOk(l: Lists, k: Kernel, k1: Kernel, k': Kernel, e: EnvId, p: Page)
    requires EnvOk(l, k, e) && RoomMade(l, k, k1, e) && Placed(k1, k', e, p)
    requires !k.Mapped(e, p) && Table(e, Pdx(p)) in k.words && !IsHeap(p)
    ensures EnvOk(Faulted(l, p), k', e)
  {
    var l' := Faulted(l, p);
    assert p !in l.Resident() by { assert p !in l.active && p !in l.second; }
    FaultedIsMoveToFront(l, p);
    PlacedStructured(l, k, k1, k', e, p);
    PlacedResides(l, k, k1, k', e, p);
  }

  lemma PlacedResides(l: Lists, k: Kernel, k1: Kernel, k': Kernel, e: EnvId, p: Page)
    requires l.Valid() && Resides(l, k, e) && RoomMade(l, k, k1, e) && Placed(k1, k', e, p)
    requires !k.Mapped(e, p) && p !in l.Resident() && !IsHeap(p)
    ensures Resides(Faulted(l, p), k', e)
  {
    hide RoomMade, Placed, Faulted;
    var l' := Faulted(l, p);
    forall q: Page
      ensures q in l'.active ==> k'.Present(e, q)
      ensures q in l'.second ==> k'.Mapped(e, q) && !k'.Present(e, q)
      ensures k'.Mapped(e, q) ==> q in l'.active || q in l'.second || (IsHeap(q) && k'.Present(e, q))
      ensures q in l'.active || q in l'.second ==> (e, q) in k'.pf && !IsHeap(q)
      ensures IsHeap(q) && (e, q) in k'.pf ==> k'.Mapped(e, q)
    {
      PlacedPageOk(l, k, k1, k', e, p, q);
    }
  }

  // ----- promotion: a fault on a page of SecondList -----

  lemma PromoteEffect(l: Lists, k: Kernel, e: EnvId, p: Page)
    requires EnvOk(l, k, e) && Owned(k) && p in l.second
    ensures l.active != [] && p != Last(l.active) && k.Mapped(e, Last(l.active)) && k.Mapped(e, p)
    ensures var k' := Promote(l, k, e, p);
      && Owned(k') && Accounted(k') == Accounted(k)
      && k'.words == k.words[Entry(e, p) := k.words[Entry(e, p)].(present := true)]
                            [Entry(e, Last(l.active)) := k.words[Entry(e, Last(l.active))].(present := false)]
      && k'.pf == k.pf && k'.diskFree == k.diskFree && k'.ram == k.ram && k'.disk == k.disk
  {
    hide Owned, Accounted, Structured;
    Separate(l);
    assert Last(l.active) in l.active;
    SetPresentEffect(k, e, p, true);
    SetPresentEffect(SetPresent(k, e, p, true), e, Last(l.active), false);
  }

  lemma PromotePage(l: Lists, k: Kernel, k': Kernel, e: EnvId, p: Page, q: Page)
    requires EnvOk(l, k, e) && p in l.second && l.active != [] && k.Mapped(e, p) && k.Mapped(e, Last(l.active))
    requires k'.words == k.words[Entry(e, p) := k.words[Entry(e, p)].(present := true)]
                                [Entry(e, Last(l.active)) := k.words[Entry(e, Last(l.active))].(present := false)]
    ensures q in Faulted(l, p).active ==> k'.Present(e, q)
    ensures q in Faulted(l, p).second ==> k'.Mapped(e, q) && !k'.Present(e, q)
    ensures k'.Mapped(e, q) ==>
              q in Faulted(l, p).active || q in Faulted(l, p).second || (IsHeap(q) && k'.Present(e, q))
  {
    PromotionMembers(l, p);
    Separate(l);
    assert Last(l.active) in l.active;
    assert k.Mapped(e, q) ==> q in l.active || q in l.second || (IsHeap(q) && k.Present(e, q));
    assert q in l.active ==> k.Present(e, q);
    assert q in l.second ==> k.Mapped(e, q) && !k.Present(e, q);
  }

  lemma PromoteEnvOk(l: Lists, k: Kernel, k': Kernel, e: EnvId, p: Page)
    requires EnvOk(l, k, e) && p in l.second && l.active != [] && k.Mapped(e, p) && k.Mapped(e, Last(l.active))
    requires k'.words == k.words[Entry(e, p) := k.words[Entry(e, p)].(present := true)]
                                [Entry(e, Last(l.active)) := k.words[Entry(e, Last(l.active))].(present := false)]
    requires k'.pf == k.pf
    ensures EnvOk(Faulted(l, p), k', e)
  {
    var l' := Faulted(l, p);
    PromotionMembers(l, p);
    FaultedIsMoveToFront(l, p);
    assert Last(l.active) in l.active;
    assert k'.words.Keys == k.words.Keys;
    forall q: Page
      ensures q in l'.active ==> k'.Present(e, q)
      ensures q in l'.second ==> k'.Mapped(e, q) && !k'.Present(e, q)
      ensures k'.Mapped(e, q) ==> q in l'.active || q in l'.second || (IsHeap(q) && k'.Present(e, q))
    {
      PromotePage(l, k, k', e, p, q);
    }
  }

  // ----- the main results about one access -----

  /** What a fault on a page outside SecondList keeps. */
  lemma PageInFaultKeeps(h: Stores, l: Lists, k: Kernel, e: EnvId, p: Page)
    requires Owned(k) && EnvOk(l, k, e) && Kept(h, k)
    requires !k.Mapped(e, p) && Table(e, Pdx(p)) in k.words
    requires ((e, p) in k.pf || k.diskFree != []) && PageFault(l, k, e, p).Ok?
    ensures var (l', k') := PageFault(l, k, e, p).value;
      && Owned(k') && Accounted(k') == Accounted(k) && DiskAccounted(k') == DiskAccounted(k)
      && EnvOk(l', k', e) && Kept(h, k') && k'.Present(e, p)
      && (forall d :: d != e ==> SameFor(k, k', d))
  {
    assert p !in l.second;
    MakeRoomEffect(l, k, e);
    MakeRoomKept(h, l, k, e);
    var k1 := MakeRoom(l, k, e).value;
    assert k1.Mapped(e, p) ==> k.Mapped(e, p);
    assert forall s: Slot :: !s.Entry? ==> (s in k1.words <==> s in k.words);
    PageInOwned(k1, e, p);
    PageInEffect(k1, e, p);
    var k2 := PageIn(k1, e, p).value;
    PlacedKept(h, k1, k2, e, p);
    assert !IsHeap(p) by { assert IsHeap(p) && (e, p) in k.pf ==> k.Mapped(e, p); }
    PlacedEnvOk(l, k, k1, k2, e, p);
    forall d | d != e ensures SameFor(k, k2, d) {
      OthersUntouched(l, k, k1, k2, e, p, d);
    }
  }

  lemma OthersUntouched(l: Lists, k: Kernel, k1: Kernel, k2: Kernel, e: EnvId, p: Page, d: EnvId)
    requires RoomMade(l, k, k1, e) && Placed(k1, k2, e, p) && d != e
    ensures SameFor(k, k2, d)
  {
    forall s: Slot | s.env == d
      ensures s in k.words <==> s in k2.words
      ensures s in k.words ==> k.words[s] == k2.words[s]
    {
      assert s in k.words <==> s in k1.words;
    }
  }

  lemma PromotionKeeps(h: Stores, l: Lists, k: Kernel, e: EnvId, p: Page)
    requires Owned(k) && EnvOk(l, k, e) && Kept(h, k) && p in l.second
    ensures var k' := Promote(l, k, e, p);
      && Owned(k') && Accounted(k') == Accounted(k) && DiskAccounted(k') == DiskAccounted(k)
      && EnvOk(Faulted(l, p), k', e) && Kept(h, k') && k'.Present(e, p)
      && (forall d :: d != e ==> SameFor(k, k', d))
  {
    PromotedOk(l, k, e, p);
    PromoteKept(h, l, k, e, p);
    PromotedOthers(l, k, e, p);
  }

  lemma PromotedOk(l: Lists, k: Kernel, e: EnvId, p: Page)
    requires Owned(k) && EnvOk(l, k, e) && p in l.second
    ensures var k' := Promote(l, k, e, p);
      && Owned(k') && Accounted(k') == Accounted(k) && DiskAccounted(k') == DiskAccounted(k)
      && EnvOk(Faulted(l, p), k', e) && k'.Present(e, p)
  {
    hide EnvOk, Owned, Promote, Faulted;
    PromoteEffect(l, k, e, p);
    PromoteEnvOk(l, k, Promote(l, k, e, p), e, p);
  }

  lemma PromotedOthers(l: Lists, k: Kernel, e: EnvId, p: Page)
    requires Owned(k) && EnvOk(l, k, e) && p in l.second
    ensures forall d :: d != e ==> SameFor(k, Promote(l, k, e, p), d)
  {
    hide EnvOk, Owned, Promote, Accounted, SameFor;
    PromoteEffect(l, k, e, p);
    var k' := Promote(l, k, e, p);
    assert k'.words.Keys == k.words.Keys;
    forall d | d != e ensures SameFor(k, k', d) {
      OthersKept(k, k', e, p, Last(l.active), d);
    }
  }

  lemma PromoteKept(h: Stores, l: Lists, k: Kernel, e: EnvId, p: Page)
    requires Kept(h, k)
    ensures Kept(h, Promote(l, k, e, p))
  {
    SetPresentKept(h, k, e, p, true);
    if l.active != [] { SetPresentKept(h, SetPresent(k, e, p, true), e, Last(l.active), false); }
  }

  lemma OthersKept(k: Kernel, k': Kernel, e: EnvId, p: Page, q: Page, d: EnvId)
    requires d != e && k'.pf == k.pf && k'.words.Keys == k.words.Keys
    requires forall s :: s in k.words && s != Entry(e, p) && s != Entry(e, q) ==> k'.words[s] == k.words[s]
    ensures SameFor(k, k', d)
  {
  }

  /**
   * Every access that does not panic leaves the page present, keeps every invariant, every byte
   * stored so far by any environment, and every word and page-file entry of other environments.
   */
  lemma TouchKeeps(h: Stores, l: Lists, k: Kernel, e: EnvId, p: Page)
    requires Owned(k) && EnvOk(l, k, e) && Kept(h, k)
    requires (k.Mapped(e, p) || (e, p) in k.pf || k.diskFree != []) && Touch(l, k, e, p).Ok?
    ensures var (l', k') := Touch(l, k, e, p).value;
      && Owned(k') && Accounted(k') == Accounted(k) && DiskAccounted(k') == DiskAccounted(k)
      && EnvOk(l', k', e) && Kept(h, k') && k'.Present(e, p)
      && (forall d :: d != e ==> SameFor(k, k', d))
      && l' == (if k.Present(e, p) then l else Faulted(l, p))
  {
    hide EnvOk, Unshared, Counted, DiskUnshared, FramesOf, DiskFramesOf, Kept, PageFault, Faulted;
    if !k.Present(e, p) {
      var t := Table(e, Pdx(p));
      var k1 := Ensure(k, t).value;
      assert Owned(k1) && Accounted(k1) == Accounted(k) && DiskAccounted(k1) == DiskAccounted(k) by {
        EnsureOwned(k, t);
        EnsureEffect(k, t);
      }
      assert EnvOk(l, k1, e) && Kept(h, k1) && (forall d :: d != e ==> SameFor(k, k1, d)) by {
        EnsureEffect(k, t);
        TableFaultKeeps(h, l, k, k1, e, t);
      }
      assert t in k1.words && k1.pf == k.pf && k1.diskFree == k.diskFree by { EnsureEffect(k, t); }
      RetryKeeps(h, l, k, k1, e, p);
    }
  }

  /** The retried access: the table is there now, so the page fault runs. */
  lemma RetryKeeps(h: Stores, l: Lists, k: Kernel, k1: Kernel, e: EnvId, p: Page)
    requires Owned(k1) && EnvOk(l, k1, e) && Kept(h, k1) && Table(e, Pdx(p)) in k1.words && !k1.Present(e, p)
    requires (k1.Mapped(e, p) || (e, p) in k1.pf || k1.diskFree != []) && PageFault(l, k1, e, p).Ok?
    requires forall d :: d != e ==> SameFor(k, k1, d)
    ensures var (l', k') := PageFault(l, k1, e, p).value;
      && Owned(k') && Accounted(k') == Accounted(k1) && DiskAccounted(k') == DiskAccounted(k1)
      && EnvOk(l', k', e) && Kept(h, k') && k'.Present(e, p)
      && (forall d :: d != e ==> SameFor(k, k', d))
      && l' == Faulted(l, p)
  {
    hide Owned, Kept, SameFor, Structured, Faulted, Accounted, DiskAccounted;
    var k' := PageFault(l, k1, e, p).value.1;
    if p in l.second {
      PromotionKeeps(h, l, k1, e, p);
    } else {
      assert !k1.Mapped(e, p) by { assert k1.Mapped(e, p) ==> p in l.active || k1.Present(e, p); }
      PageInFaultKeeps(h, l, k1, e, p);
    }
    forall d | d != e ensures SameFor(k, k', d) {
      SameForTransitive(k, k1, k', d);
    }
  }

  lemma SameForReflexive(k: Kernel, d: EnvId)
    ensures SameFor(k, k, d)
  {
  }

  lemma SameForTransitive(k: Kernel, k1: Kernel, k2: Kernel, d: EnvId)
    requires SameFor(k, k1, d) && SameFor(k1, k2, d)
    ensures SameFor(k, k2, d)
  {
  }

  lemma TableFaultKeeps(h: Stores, l: Lists, k: Kernel, k1: Kernel, e: EnvId, t: Slot)
    requires t.Table? && t.env == e && InUserSpace(t)
    requires forall s :: s in k1.words <==> s in k.words || s == t
    requires forall s :: s in k.words ==> k1.words[s] == k.words[s]
    requires k1.ram == k.ram && k1.pf == k.pf && k1.disk == k.disk
    ensures EnvOk(l, k, e) ==> EnvOk(l, k1, e)
    ensures Kept(h, k) ==> Kept(h, k1)
    ensures forall d :: d != e ==> SameFor(k, k1, d)
  {
    assert forall d, q :: k1.Mapped(d, q) <==> k.Mapped(d, q);
    assert forall d, q :: k1.Present(d, q) <==> k.Present(d, q);
  }
}
