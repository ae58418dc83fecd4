/** Create-run-free: an environment that ends gives back exactly what it was given. */
module Conservation {
  import opened Sequences
  import opened TwoLists
  import opened KernelState
  import opened Paging
  import opened UserMemory
  import opened EnvFree
  import opened EnvCreate
  import opened Machine

  /** The same heap pages of e are mapped. */
  ghost predicate SamePins(k: Kernel, k': Kernel, e: EnvId) {
    forall q: Page :: IsHeap(q) ==> (k'.Mapped(e, q) <==> k.Mapped(e, q))
  }

  /** The same heap pages of e are in the page file. */
  ghost predicate SameFiles(k: Kernel, k': Kernel, e: EnvId) {
    forall q: Page :: IsHeap(q) ==> ((e, q) in k'.pf <==> (e, q) in k.pf)
  }

  lemma TouchPins(h: Stores, l: Lists, k: Kernel, e: EnvId, p: Page)
    requires Owned(k) && EnvOk(l, k, e) && Kept(h, k)
    requires (k.Mapped(e, p) || (e, p) in k.pf || k.diskFree != []) && Touch(l, k, e, p).Ok?
    ensures SamePins(k, Touch(l, k, e, p).value.1, e) && SameFiles(k, Touch(l, k, e, p).value.1, e)
  {
    if !k.Present(e, p) {
      var k1 := Ensure(k, Table(e, Pdx(p))).value;
      TableReady(h, l, k, e, p);
      EnsureEffect(k, Table(e, Pdx(p)));
      assert SamePins(k, k1, e) && SameFiles(k, k1, e);
      hide Owned, EnvOk, Kept, Ensure, PageFault;
      FaultPins(h, l, k1, e, p);
    }
  }

  lemma TableReady(h: Stores, l: Lists, k: Kernel, e: EnvId, p: Page)
    requires Owned(k) && EnvOk(l, k, e) && Kept(h, k) && p < STACK_TOP && Ensure(k, Table(e, Pdx(p))).Ok?
    ensures var k1 := Ensure(k, Table(e, Pdx(p))).value;
      && Owned(k1) && EnvOk(l, k1, e) && Kept(h, k1) && Table(e, Pdx(p)) in k1.words
      && k1.pf == k.pf && k1.diskFree == k.diskFree
      && (k1.Mapped(e, p) <==> k.Mapped(e, p)) && (k1.Present(e, p) <==> k.Present(e, p))
  {
    var t := Table(e, Pdx(p));
    EnsureOwned(k, t);
    EnsureEffect(k, t);
    hide Ensure, EnvOk, Kept, Unshared, Counted, DiskUnshared;
    TableFaultKeeps(h, l, k, Ensure(k, t).value, e, t);
  }

  lemma FaultPins(h: Stores, l: Lists, k: Kernel, e: EnvId, p: Page)
    requires Owned(k) && EnvOk(l, k, e) && Kept(h, k) && Table(e, Pdx(p)) in k.words && !k.Present(e, p)
    requires (k.Mapped(e, p) || (e, p) in k.pf || k.diskFree != []) && PageFault(l, k, e, p).Ok?
    ensures SamePins(k, PageFault(l, k, e, p).value.1, e) && SameFiles(k, PageFault(l, k, e, p).value.1, e)
  {
    if p in l.second {
      PromotePins(l, k, e, p);
    } else {
      assert !k.Mapped(e, p) by { assert k.Mapped(e, p) ==> p in l.active || k.Present(e, p); }
      MakeRoomEffect(l, k, e);
      PageInPins(l, k, MakeRoom(l, k, e).value, e, p);
    }
  }

  lemma PromotePins(l: Lists, k: Kernel, e: EnvId, p: Page)
    requires Owned(k) && EnvOk(l, k, e) && p in l.second
    ensures SamePins(k, Promote(l, k, e, p), e) && SameFiles(k, Promote(l, k, e, p), e)
  {
    PromoteEffect(l, k, e, p);
    hide Promote, Owned, EnvOk;
  }

  lemma PageInPins(l: Lists, k: Kernel, k1: Kernel, e: EnvId, p: Page)
    requires EnvOk(l, k, e) && RoomMade(l, k, k1, e) && Owned(k1) && !k.Mapped(e, p)
    requires Table(e, Pdx(p)) in k.words && ((e, p) in k.pf || k.diskFree != []) && PageIn(k1, e, p).Ok?
    ensures SamePins(k, PageIn(k1, e, p).value, e) && SameFiles(k, PageIn(k1, e, p).value, e)
  {
    hide Unshared, Counted, DiskUnshared, PageIn, EnvOk, SamePins, SameFiles;
    RoomKeepsTables(l, k, k1, e, p);
    PageInLegal(k1, e, p);
    PageInEffect(k1, e, p);
    PlacedPins(l, k, k1, PageIn(k1, e, p).value, e, p);
  }

  lemma RoomKeepsTables(l: Lists, k: Kernel, k1: Kernel, e: EnvId, p: Page)
    requires EnvOk(l, k, e) && RoomMade(l, k, k1, e) && !k.Mapped(e, p) && Table(e, Pdx(p)) in k.words
    ensures !k1.Mapped(e, p) && DiskDirectory(e) in k1.words && Table(e, Pdx(p)) in k1.words
    ensures (e, p) in k1.pf ==> DiskTable(e, Pdx(p)) in k1.words && !IsHeap(p)
  {
    assert forall s: Slot :: !s.Entry? ==> (s in k1.words <==> s in k.words);
  }

  lemma PageInLegal(k: Kernel, e: EnvId, p: Page)
    requires PageIn(k, e, p).Ok?
    ensures (e, p) in k.pf || IsStack(p)
  {
    var (k1, f) := AllocateFrame(k).value;
    MapFrameDisk(k1, e, p, f);
    hide MapFrame;
  }

  lemma PlacedPins(l: Lists, k: Kernel, k1: Kernel, k': Kernel, e: EnvId, p: Page)
    requires EnvOk(l, k, e) && RoomMade(l, k, k1, e) && Placed(k1, k', e, p) && !IsHeap(p)
    ensures SamePins(k, k', e) && SameFiles(k, k', e)
  {
    Separate(l);
    var gone := l.Full() && l.Resident() != [];
    assert gone ==> Last(l.Resident()) in l.active || Last(l.Resident()) in l.second;
    forall q: Page | IsHeap(q) ensures k'.Mapped(e, q) <==> k.Mapped(e, q) {
      assert Entry(e, q) in k'.words <==> Entry(e, q) in k1.words;
    }
  }

  lemma FreePagePins(l: Lists, k: Kernel, e: EnvId, p: Page)
    requires Owned(k) && EnvOk(l, k, e)
    ensures SamePins(k, FreePage(l, k, e, p).1, e)
  {
    FreePageOwned(l, k, e, p);
    hide FreePage, Owned, EnvOk;
  }

  lemma {:induction false} FreeMemPins(h: Stores, l: Lists, k: Kernel, e: EnvId, p: Page, n: nat)
    requires Owned(k) && EnvOk(l, k, e) && Kept(h, k)
    ensures SamePins(k, FreeMem(l, k, e, p, n).1, e)
    decreases n
  {
    hide Owned, EnvOk, Kept, FreePage, FreeMem;
    if n == 0 {
      FreeMemNothing(l, k, e, p);
    } else {
      var (l1, k1) := FreePage(l, k, e, p);
      FreePagePins(l, k, e, p);
      FreePageKeeps(h, l, k, e, p);
      FreeMemByPage(l, k, e, p, n);
      FreeMemPins(Forget(h, e, p, 1), l1, k1, e, p + 1, n - 1);
    }
  }

  /** allocateMem pins exactly its range. */
  lemma {:induction false} AllocateMemPins(h: Stores, l: Lists, k: Kernel, e: EnvId, p: Page, n: nat)
    requires Owned(k) && EnvOk(l, k, e) && Kept(h, k)
    requires HEAP_START <= p && p + n <= HEAP_MAX && AllocateMem(k, e, p, n).Ok?
    ensures var k' := AllocateMem(k, e, p, n).value;
      forall q: Page :: IsHeap(q) ==> (k'.Mapped(e, q) <==> k.Mapped(e, q) || p <= q < p + n)
    decreases n
  {
    hide Owned, EnvOk, Kept, AllocatePage, Pinned;
    if n > 0 {
      var k1 := AllocatePage(k, e, p).value;
      AllocatePageKeeps(h, l, k, e, p);
      AllocatePagePins(k, e, p);
      AllocateMemPins(Forget(h, e, p, 1), l, k1, e, p + 1, n - 1);
    }
  }

  lemma AllocatePagePins(k: Kernel, e: EnvId, p: Page)
    requires AllocatePage(k, e, p).Ok?
    ensures forall q: Page :: AllocatePage(k, e, p).value.Mapped(e, q) <==> k.Mapped(e, q) || q == p
  {
    AllocateFiles(k, e, p);
    AllocatePageEffect(k, e, p);
    hide AllocatePage;
    forall q: Page ensures AllocatePage(k, e, p).value.Mapped(e, q) <==> k.Mapped(e, q) || q == p {
      assert Entry(e, q) in AllocatePage(k, e, p).value.words <==> Entry(e, q) in k.words || Entry(e, q) == Entry(e, p);
    }
  }

  lemma AllocateFiles(k: Kernel, e: EnvId, p: Page)
    requires AllocatePage(k, e, p).Ok?
    ensures (e, p) in k.pf || k.diskFree != []
  {
    PfAddSpace(k, e, p);
  }

  ghost predicate OthersSame(k: Kernel, k': Kernel, e: EnvId) {
    forall d :: d != e ==> SameFor(k, k', d)
  }

  lemma OthersSameTransitive(k: Kernel, k1: Kernel, k2: Kernel, e: EnvId)
    requires OthersSame(k, k1, e) && OthersSame(k1, k2, e)
    ensures OthersSame(k, k2, e)
  {
    forall d | d != e ensures SameFor(k, k2, d) { SameForTransitive(k, k1, k2, d); }
  }

  lemma StoreSame(k: Kernel, e: EnvId, p: Page, o: nat, v: byte)
    ensures OthersSame(k, StoreByte(k, e, p, o, v), e)
    ensures SamePins(k, StoreByte(k, e, p, o, v), e) && StoreByte(k, e, p, o, v).pf == k.pf
  {
  }

  // ----- one environment's run -----

  /** An operation the environment makes while it lives. */
  predicate Own(op: Op, e: EnvId) { op.e == e && !op.Create? && !op.Exit? }

  /** It asks for a heap page. */
  predicate Pins(op: Op) { op.Alloc? && op.n > 0 }

  ghost predicate Unpinned(k: Kernel, e: EnvId) {
    forall q: Page :: IsHeap(q) ==> !k.Mapped(e, q)
  }

  /** One operation leaves the others alone; a heap page of e stays mapped, and only allocateMem maps one. */
  lemma OwnStep(s: Sys, h: Stores, op: Op, e: EnvId)
    requires Good(s, h) && Allowed(s, op) && Step(s, op).Ok? && Own(op, e)
    ensures OthersSame(s.k, Step(s, op).value.0.k, e)
    ensures Unpinned(Step(s, op).value.0.k, e) <==> Unpinned(s.k, e) && !Pins(op)
    ensures e in s.envs && Step(s, op).value.0.envs.Keys == s.envs.Keys
  {
    hide EnvsOk, Owned, EnvOk, Kept, Belongs, Touch, AllocateMem, FreeMem, StoreByte, OthersSame, Unpinned, Good;
    match op
    case Release(_, p, n) => OwnRelease(s, h, e, p, n);
    case Load(_, p, o) => OwnTouch(s, h, e, p);
    case Store(_, p, o, v) => OwnStore(s, h, e, p, o, v);
    case Alloc(_, p, n) => OwnAlloc(s, h, e, p, n);
  }

  lemma OwnAlloc(s: Sys, h: Stores, e: EnvId, p: Page, n: nat)
    requires Good(s, h) && e in s.envs && HEAP_START <= p && p + n <= HEAP_MAX && AllocateMem(s.k, e, p, n).Ok?
    ensures var k' := AllocateMem(s.k, e, p, n).value;
      OthersSame(s.k, k', e) && (Unpinned(k', e) <==> Unpinned(s.k, e) && n == 0)
  {
    hide EnvsOk, Owned, EnvOk, Kept, Belongs, AllocateMem, SameFor;
    EnvsOkAt(s, e);
    AllocateMemKeeps(h, s.envs[e], s.k, e, p, n);
    AllocateMemPins(h, s.envs[e], s.k, e, p, n);
    assert n > 0 ==> IsHeap(p) && AllocateMem(s.k, e, p, n).value.Mapped(e, p);
  }

  lemma OwnRelease(s: Sys, h: Stores, e: EnvId, p: Page, n: nat)
    requires Good(s, h) && e in s.envs
    ensures var k' := FreeMem(s.envs[e], s.k, e, p, n).1;
      OthersSame(s.k, k', e) && (Unpinned(k', e) <==> Unpinned(s.k, e))
  {
    hide EnvsOk, Owned, EnvOk, Kept, Belongs, FreeMem, SameFor;
    EnvsOkAt(s, e);
    FreeMemKeeps(h, s.envs[e], s.k, e, p, n);
    FreeMemPins(h, s.envs[e], s.k, e, p, n);
  }

  lemma OwnTouch(s: Sys, h: Stores, e: EnvId, p: Page)
    requires Good(s, h) && e in s.envs && HasPlace(s.k, e, p) && Touch(s.envs[e], s.k, e, p).Ok?
    ensures var k' := Touch(s.envs[e], s.k, e, p).value.1;
      OthersSame(s.k, k', e) && (Unpinned(k', e) <==> Unpinned(s.k, e))
  {
    hide EnvsOk, Owned, EnvOk, Kept, Belongs, Touch, SameFor;
    EnvsOkAt(s, e);
    TouchKeeps(h, s.envs[e], s.k, e, p);
    TouchPins(h, s.envs[e], s.k, e, p);
  }

  lemma OwnStore(s: Sys, h: Stores, e: EnvId, p: Page, o: nat, v: byte)
    requires Good(s, h) && e in s.envs && HasPlace(s.k, e, p) && Touch(s.envs[e], s.k, e, p).Ok?
    ensures var k' := StoreByte(Touch(s.envs[e], s.k, e, p).value.1, e, p, o, v);
      OthersSame(s.k, k', e) && (Unpinned(k', e) <==> Unpinned(s.k, e))
  {
    hide Good, Touch, StoreByte, OthersSame;
    OwnTouch(s, h, e, p);
    var k1 := Touch(s.envs[e], s.k, e, p).value.1;
    StoreSame(k1, e, p, o, v);
    OthersSameTransitive(s.k, k1, StoreByte(k1, e, p, o, v), e);
  }

  /** After a run of e's operations it has a mapped heap page if and only if one of them asked for one. */
  lemma {:induction false} OwnRun(s: Sys, h: Stores, ops: seq<Op>, e: EnvId)
    requires Good(s, h) && RunsFrom(s, ops) && e in s.envs
    requires forall i :: 0 <= i < |ops| ==> Own(ops[i], e)
    ensures OthersSame(s.k, After(s, ops).k, e) && e in After(s, ops).envs
    ensures Unpinned(After(s, ops).k, e) <==> Unpinned(s.k, e) && forall i :: 0 <= i < |ops| ==> !Pins(ops[i])
    ensures Accounted(After(s, ops).k) == Accounted(s.k)
    decreases |ops|
  {
    hide Good, Allowed, Step, SameFor, Accounted, Unpinned, Pins;
    if ops == [] {
      forall d | d != e ensures SameFor(s.k, s.k, d) { SameForReflexive(s.k, d); }
    } else {
      var s1 := Step(s, ops[0]).value.0;
      assert Own(ops[0], e);
      StepKeeps(s, h, ops[0]);
      OwnStep(s, h, ops[0], e);
      OwnRun(s1, Remember(h, ops[0]), ops[1..], e);
      OthersSameTransitive(s.k, s1.k, After(s, ops).k, e);
      assert forall i :: 0 <= i < |ops| ==> ops[i] == if i == 0 then ops[0] else ops[1..][i - 1];
      assert forall i :: 0 <= i < |ops[1..]| ==> ops[1..][i] == ops[i + 1];
    }
  }

  // ----- create, run, exit -----

  /** When only e's words differ and e has none left, the free lists hold what they held, but for the lost frames. */
  lemma SameFreeLists(k: Kernel, k': Kernel, e: EnvId, lost: set<Frame>)
    requires Owned(k) && Owned(k') && OthersSame(k, k', e)
    requires Accounted(k') == Accounted(k) - lost && DiskAccounted(k') == DiskAccounted(k)
    requires (forall s :: s in k.words ==> s.env != e) && (forall s :: s in k'.words ==> s.env != e)
    requires (forall x :: x in k.pf ==> x.0 != e) && (forall x :: x in k'.pf ==> x.0 != e)
    ensures ToSet(k'.free) == ToSet(k.free) - lost && |k'.free| == |ToSet(k'.free)| && |k.free| == |ToSet(k.free)|
    ensures ToSet(k'.diskFree) == ToSet(k.diskFree) && |k'.diskFree| == |k.diskFree|
  {
    hide Owned, Accounted, DiskAccounted, OthersSame, FramesOf, DiskFramesOf;
    SameWords(k, k', e);
    assert k'.words == k.words && k'.pf == k.pf;
    DistinctFree(k);
    DistinctFree(k');
    FreeSet(k);
    FreeSet(k');
    DistinctToSet(k.free);
    DistinctToSet(k'.free);
    DistinctToSet(k.diskFree);
    DistinctToSet(k'.diskFree);
  }

  /** What belongs to other environments is in both. */
  lemma SameWords(k: Kernel, k': Kernel, e: EnvId)
    requires OthersSame(k, k', e)
    ensures forall s: Slot :: s.env != e ==> (s in k.words <==> s in k'.words)
    ensures forall s: Slot :: s.env != e && s in k.words ==> k'.words[s] == k.words[s]
    ensures forall x: (EnvId, Page) :: x.0 != e ==> (x in k.pf <==> x in k'.pf)
    ensures forall x: (EnvId, Page) :: x.0 != e && x in k.pf ==> k'.pf[x] == k.pf[x]
  {
    forall s: Slot | s.env != e
      ensures s in k.words <==> s in k'.words
      ensures s in k.words ==> k'.words[s] == k.words[s]
    {
      assert SameFor(k, k', s.env);
    }
    forall x: (EnvId, Page) | x.0 != e
      ensures x in k.pf <==> x in k'.pf
      ensures x in k.pf ==> k'.pf[x] == k.pf[x]
    {
      assert SameFor(k, k', x.0) && x == (x.0, x.1);
    }
  }

  lemma DistinctFree(k: Kernel)
    requires Owned(k)
    ensures Distinct(k.free) && Distinct(k.diskFree)
  {
  }

  lemma FreeSet(k: Kernel)
    requires Owned(k)
    ensures ToSet(k.free) == Accounted(k) - FramesOf(k.words)
    ensures ToSet(k.diskFree) == DiskAccounted(k) - DiskFramesOf(k.pf)
  {
  }

  /** The frames e has pinned were free before e was there. */
  lemma PinnedWereFree(k: Kernel, k2: Kernel, e: EnvId)
    requires Owned(k) && Owned(k2) && OthersSame(k, k2, e) && Accounted(k2) == Accounted(k)
    requires forall s :: s in k.words ==> s.env != e
    ensures PinnedFrames(k2, e) <= ToSet(k.free)
  {
    forall f | f in PinnedFrames(k2, e) ensures f in ToSet(k.free) {
      var s :| s in k2.words && s.Entry? && s.env == e && IsHeap(s.page) && k2.words[s].frame == f;
      assert f in FramesOf(k2.words) && f in Accounted(k);
      SameWords(k, k2, e);
      assert forall t :: t in k.words ==> t in k2.words && t != s && k.words[t].frame != f;
    }
  }

  /**
   * An environment is created, makes any operations, and ends. The free-frame list then holds its
   * old frames, each once, but for those of mapped heap pages; it holds them all if and only if no
   * operation asked for a heap page. The free disk-frame list holds all its old frames in any case.
   */
  lemma CreateRunExitIff(s: Sys, h: Stores, create: Op, ops: seq<Op>)
    requires Good(s, h) && create.Create? && forall i :: 0 <= i < |ops| ==> Own(ops[i], create.e)
    requires RunsFrom(s, [create]) && RunsFrom(After(s, [create]), ops)
    ensures var e := create.e;
      var s1 := After(s, [create]);
      var s2 := After(s1, ops);
      && Step(s2, Exit(e)).Ok?
      && var k' := Step(s2, Exit(e)).value.0.k;
      && Owned(k')
      && ToSet(k'.free) == ToSet(s.k.free) - PinnedFrames(s2.k, e)
      && (ToSet(k'.free) == ToSet(s.k.free) <==> forall i :: 0 <= i < |ops| ==> !Pins(ops[i]))
      && (|k'.free| == |s.k.free| <==> forall i :: 0 <= i < |ops| ==> !Pins(ops[i]))
      && ToSet(k'.diskFree) == ToSet(s.k.diskFree) && |k'.diskFree| == |s.k.diskFree|
  {
    hide Step, EnvsOk, Owned, Kept, Accounted, DiskAccounted, RunsFrom, After, SameFor, PinnedFrames, Unpinned, Pins, Own, Allowed;
    var e := create.e;
    OneStep(s, create);
    var s1 := Step(s, create).value.0;
    StepKeeps(s, h, create);
    CreateFacts(s, h, create);
    RunKeeps(s1, Remember(h, create), ops);
    OwnRun(s1, Remember(h, create), ops, e);
    var s2 := After(s1, ops);
    ExitFacts(s2, Remembered(Remember(h, create), ops), e);
    var k' := Step(s2, Exit(e)).value.0.k;
    OthersSameTransitive(s.k, s1.k, s2.k, e);
    OthersSameTransitive(s.k, s2.k, k', e);
    SameFreeLists(s.k, k', e, PinnedFrames(s2.k, e));
    PinnedWereFree(s.k, s2.k, e);
    PinnedNone(s2.k, e);
    SizeOfRest(ToSet(s.k.free), PinnedFrames(s2.k, e));
  }

  lemma PinnedNone(k: Kernel, e: EnvId)
    ensures PinnedFrames(k, e) == {} <==> Unpinned(k, e)
  {
    PinnedFramesEmpty(k, e);
  }

  lemma SizeOfRest(a: set<Frame>, b: set<Frame>)
    requires b <= a
    ensures |a - b| == |a| <==> b == {}
    ensures a - b == a <==> b == {}
  {
    assert a == (a - b) + b;
    assert |a| == |a - b| + |b|;
  }

  lemma OneStep(s: Sys, op: Op)
    requires RunsFrom(s, [op])
    ensures Allowed(s, op) && Step(s, op).Ok? && After(s, [op]) == Step(s, op).value.0
  {
    hide Step, Allowed;
    assert [op][1..] == [];
    if Step(s, op).Ok? { assert After(Step(s, op).value.0, []) == Step(s, op).value.0; }
  }

  lemma CreateFacts(s: Sys, h: Stores, op: Op)
    requires Good(s, h) && op.Create? && Allowed(s, op) && Step(s, op).Ok?
    ensures OthersSame(s.k, Step(s, op).value.0.k, op.e) && Unpinned(Step(s, op).value.0.k, op.e)
    ensures op.e in Step(s, op).value.0.envs
    ensures (forall t :: t in s.k.words ==> t.env != op.e) && (forall x :: x in s.k.pf ==> x.0 != op.e)
  {
    hide Owned, EnvsOk, Kept, EnvOk, EnvCreate.EnvCreate, Grown, SameFor, GoodProgram, FileDemand;
    EnvCreateOk(s.k, op.e, op.activeMax, op.secondMax, op.prog);
    var k' := EnvCreate.EnvCreate(s.k, op.e, op.activeMax, op.secondMax, op.prog).value.1;
    GrownOwned(s.k, k', op.e);
  }

  lemma ExitFacts(s: Sys, h: Stores, e: EnvId)
    requires Good(s, h) && e in s.envs
    ensures Step(s, Exit(e)).Ok?
    ensures var k' := Step(s, Exit(e)).value.0.k;
      && Owned(k') && OthersSame(s.k, k', e)
      && Accounted(k') == Accounted(s.k) - PinnedFrames(s.k, e) && DiskAccounted(k') == DiskAccounted(s.k)
      && (forall t :: t in k'.words ==> t.env != e) && (forall x :: x in k'.pf ==> x.0 != e)
  {
    hide EnvFree.EnvFree, Owned, EnvOk, EnvsOk, Kept, Belongs, Undisturbed, SameFor, Accounted, DiskAccounted, PinnedFrames;
    EnvsOkAt(s, e);
    EnvFreeConserves(s.envs[e], s.k, e);
    EnvFreeUndisturbed(s.envs[e], s.k, e);
    var k' := EnvFree.EnvFree(s.envs[e], s.k, e);
    forall d | d != e ensures SameFor(s.k, k', d) { UndisturbedSame(s.k, k', e, d); }
  }
}
