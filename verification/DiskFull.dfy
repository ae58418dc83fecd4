/**
 * A stack page started while no disk frame is free: the kernel ignores that the page got no entry,
 * and at its eviction its bytes are gone. Shown on a working set of one page.
 */
module DiskFull {
  import opened Sequences
  import opened TwoLists
  import opened KernelState
  import opened Paging
  import opened UserMemory
  import opened FaultEffect
  import opened EnvCreate
  import opened ProgramBytes
  import opened Machine
  import N = CreateNeeds
  import C = Conservation
  import S = SecondListSize

  function One(q: Page): Lists { Lists(1, 0, [q], []) }

  /** q alone is in memory, in frame f, and the tables for p are there. */
  ghost predicate Holds(k: Kernel, e: EnvId, q: Page, p: Page, f: Frame) {
    && k.Present(e, q) && k.words[Entry(e, q)].frame == f && k.Refs(f) == 1
    && !k.Mapped(e, p) && p != q
    && DiskDirectory(e) in k.words && Table(e, Pdx(p)) in k.words && Table(e, Pdx(q)) in k.words
    && DiskTable(e, Pdx(p)) in k.words && DiskTable(e, Pdx(q)) in k.words
  }

  /** The disk after q's eviction. */
  ghost predicate WrittenBack(k: Kernel, k': Kernel, e: EnvId, q: Page, f: Frame) {
    forall d: DiskFrame :: k'.Disk(d) ==
      if (e, q) in k.pf && d == k.pf[(e, q)] && Entry(e, q) in k.words && k.words[Entry(e, q)].modified then k.Ram(f) else k.Disk(d)
  }

  /** An access to p evicts q and takes its frame, and its contents too unless p is in the page file. */
  lemma Turn(k: Kernel, e: EnvId, q: Page, p: Page, f: Frame)
    requires Holds(k, e, q, p, f) && p < STACK_TOP && ((e, p) in k.pf || IsStack(p))
    ensures Touch(One(q), k, e, p).Ok?
    ensures var (l', k') := Touch(One(q), k, e, p).value;
      && l' == One(p) && Holds(k', e, p, q, f) && !k'.words[Entry(e, p)].modified
      && k'.pf == Filing(k, e, p) && WrittenBack(k, k', e, q, f) && ((e, p) !in k'.pf ==> k'.diskFree == [])
      && k'.Ram(f) == if (e, p) in k.pf then k'.Disk(k.pf[(e, p)]) else k.Ram(f)
  {
    hide Evict, PageIn, Touch, WrittenBack;
    EvictFrame(k, e, q, p, f);
    var k1 := Evict(k, e, q).value;
    PageInFrame(k1, e, p, f);
    TouchIs(k, e, q, p);
    TurnHolds(k, PageIn(k1, e, p).value, e, q, p, f);
    StillWrittenBack(k, k1, PageIn(k1, e, p).value, e, q, f);
  }

  lemma TurnHolds(k: Kernel, k': Kernel, e: EnvId, q: Page, p: Page, f: Frame)
    requires Holds(k, e, q, p, f) && k'.Refs(f) == 1
    requires k'.words == (k.words - {Entry(e, q)})[Entry(e, p) := Word(f, true, false)]
    ensures Holds(k', e, p, q, f) && !k'.words[Entry(e, p)].modified
  {
  }

  lemma StillWrittenBack(k: Kernel, k1: Kernel, k': Kernel, e: EnvId, q: Page, f: Frame)
    requires WrittenBack(k, k1, e, q, f) && k'.disk == k1.disk
    ensures WrittenBack(k, k', e, q, f)
    ensures forall d: DiskFrame :: k'.Disk(d) == k1.Disk(d)
  {
    assert forall d: DiskFrame :: k'.Disk(d) == k1.Disk(d);
  }

  lemma TouchIs(k: Kernel, e: EnvId, q: Page, p: Page)
    requires !k.Present(e, p) && p < STACK_TOP && Table(e, Pdx(p)) in k.words && p != q
    requires Evict(k, e, q).Ok? && PageIn(Evict(k, e, q).value, e, p).Ok?
    ensures Touch(One(q), k, e, p) == Ok((One(p), PageIn(Evict(k, e, q).value, e, p).value))
  {
    var k1 := Evict(k, e, q).value;
    hide Evict, PageIn;
    assert One(q).Resident() == [q] && Last([q]) == q;
    assert MakeRoom(One(q), k, e) == Ok(k1);
    FaultedOne(q, p);
  }

  lemma FaultedOne(q: Page, p: Page)
    requires p != q
    ensures Faulted(One(q), p) == One(p)
  {
    assert One(q).Resident() == [q];
    WithoutAbsent([q], p);
    assert MoveToFront(p, [q]) == [p] + [q];
    assert Take([p] + [q], 1) == [p];
  }

  lemma EvictFrame(k: Kernel, e: EnvId, q: Page, p: Page, f: Frame)
    requires Holds(k, e, q, p, f)
    ensures Evict(k, e, q).Ok?
    ensures var k1 := Evict(k, e, q).value;
      && k1.words == k.words - {Entry(e, q)} && k1.free == [f] + k.free
      && k1.pf == k.pf && k1.diskFree == k.diskFree && k1.ram == k.ram && WrittenBack(k, k1, e, q, f)
  {
  }

  lemma PageInFrame(k: Kernel, e: EnvId, p: Page, f: Frame)
    requires k.free != [] && k.free[0] == f && !k.Mapped(e, p) && ((e, p) in k.pf || IsStack(p))
    requires Table(e, Pdx(p)) in k.words && DiskDirectory(e) in k.words && DiskTable(e, Pdx(p)) in k.words
    ensures PageIn(k, e, p).Ok?
    ensures var k' := PageIn(k, e, p).value;
      && k'.words == k.words[Entry(e, p) := Word(f, true, false)] && k'.Refs(f) == 1
      && k'.pf == Filing(k, e, p) && k'.disk == k.disk && ((e, p) !in k'.pf ==> k'.diskFree == [])
      && k'.Ram(f) == if (e, p) in k.pf then k.Disk(k.pf[(e, p)]) else k.Ram(f)
  {
  }

  /** The byte of q that an eviction of q leaves on disk. */
  function ByteOf(k: Kernel, e: EnvId, q: Page, o: nat): byte
    requires o < PAGE_SIZE && k.Mapped(e, q) && (e, q) in k.pf
  {
    if k.words[Entry(e, q)].modified then k.Ram(k.words[Entry(e, q)].frame)[o] else k.Disk(k.pf[(e, q)])[o]
  }

  lemma StoreHolds(k: Kernel, e: EnvId, p: Page, q: Page, f: Frame, o: nat, v: byte)
    requires Holds(k, e, p, q, f) && o < PAGE_SIZE
    ensures var k' := StoreByte(k, e, p, o, v);
      && Holds(k', e, p, q, f) && k'.words[Entry(e, p)].modified && k'.Ram(f) == k.Ram(f)[o := v]
      && k'.pf == k.pf && k'.diskFree == k.diskFree && k'.disk == k.disk
  {
  }

  lemma HoldsEntry(k: Kernel, e: EnvId, q: Page, p: Page, f: Frame)
    requires Holds(k, e, q, p, f)
    ensures Entry(e, q) in k.words && k.words[Entry(e, q)].frame == f
  {
  }

  /** The kernel after a store to p; an access to q; an access to p. */
  lemma ThreeTurns(k: Kernel, e: EnvId, q: Page, p: Page, f: Frame, o: nat, v: byte)
    requires Holds(k, e, q, p, f) && DiskOwned(k) && (e, q) in k.pf && (e, p) !in k.pf && IsStack(p)
    requires q < STACK_TOP && o < PAGE_SIZE
    ensures Touch(One(q), k, e, p).Ok?
    ensures var k1 := StoreByte(Touch(One(q), k, e, p).value.1, e, p, o, v);
      && Touch(One(q), k, e, p).value.0 == One(p) && Touch(One(p), k1, e, q).Ok?
      && Touch(One(p), k1, e, q).value.0 == One(q)
      && var k2 := Touch(One(p), k1, e, q).value.1;
      && Touch(One(q), k2, e, p).Ok?
      && LoadByte(Touch(One(q), k2, e, p).value.1, e, p, o) == if k.diskFree != [] then v else ByteOf(k, e, q, o)
  {
    hide Touch, StoreByte, Holds, WrittenBack;
    Turn(k, e, q, p, f);
    var k0 := Touch(One(q), k, e, p).value.1;
    StoreHolds(k0, e, p, q, f, o, v);
    var k1 := StoreByte(k0, e, p, o, v);
    Turn(k1, e, p, q, f);
    var k2 := Touch(One(p), k1, e, q).value.1;
    Turn(k2, e, q, p, f);
    var k3 := Touch(One(q), k2, e, p).value.1;
    HoldsEntry(k1, e, p, q, f);
    HoldsEntry(k2, e, q, p, f);
    HoldsEntry(k3, e, p, q, f);
    LastByte(k, k0, k1, k2, k3, e, q, p, f, o, v);
  }

  lemma LastByte(k: Kernel, k0: Kernel, k1: Kernel, k2: Kernel, k3: Kernel, e: EnvId, q: Page, p: Page, f: Frame, o: nat, v: byte)
    requires Holds(k, e, q, p, f) && DiskOwned(k) && (e, q) in k.pf && (e, p) !in k.pf && o < PAGE_SIZE && IsStack(p)
    requires k0.pf == Filing(k, e, p) && WrittenBack(k, k0, e, q, f)
    requires k1.pf == k0.pf && k1.diskFree == k0.diskFree && k1.disk == k0.disk && k1.Ram(f) == k0.Ram(f)[o := v]
    requires Entry(e, p) in k1.words && k1.words[Entry(e, p)].modified
    requires k2.pf == k1.pf && WrittenBack(k1, k2, e, p, f) && k2.Ram(f) == k2.Disk(k1.pf[(e, q)])
    requires Entry(e, q) in k2.words && !k2.words[Entry(e, q)].modified
    requires WrittenBack(k2, k3, e, q, f) && k3.Ram(f) == if (e, p) in k2.pf then k3.Disk(k2.pf[(e, p)]) else k2.Ram(f)
    requires Entry(e, p) in k3.words && k3.words[Entry(e, p)].frame == f
    requires (e, p) !in k0.pf ==> k1.diskFree == []
    ensures LoadByte(k3, e, p, o) == if k.diskFree != [] then v else ByteOf(k, e, q, o)
  {
    if k.diskFree != [] {
      assert k2.Disk(k1.pf[(e, p)]) == k1.Ram(f);
    } else {
      assert k0.Disk(k.pf[(e, q)])[o] == ByteOf(k, e, q, o);
    }
  }

  /** A store to p, a load of q, a load of p: what the last one reads. */
  function Outcome(s: Sys, e: EnvId, p: Page, q: Page, o: nat, v: byte): Result<byte> {
    var (s1, _) :- Step(s, Store(e, p, o, v));
    var (s2, _) :- Step(s1, Load(e, q, o));
    var (_, r) :- Step(s2, Load(e, p, o));
    Ok(r)
  }

  lemma OutcomeIs(s: Sys, h: Stores, e: EnvId, p: Page, q: Page, o: nat, v: byte)
    requires Good(s, h) && e in s.envs && s.envs[e] == One(q) && o < PAGE_SIZE && q < STACK_TOP
    requires IsStack(p) && !s.k.Mapped(e, p) && (e, p) !in s.k.pf
    requires Table(e, Pdx(p)) in s.k.words && DiskTable(e, Pdx(p)) in s.k.words
    ensures s.k.Mapped(e, q) && (e, q) in s.k.pf
    ensures Outcome(s, e, p, q, o, v) == Ok(if s.k.diskFree != [] then v else ByteOf(s.k, e, q, o))
  {
    StartHolds(s, h, e, p, q);
    hide Good, Touch, Holds, StoreByte, LoadByte, ByteOf, Step;
    ThreeTurns(s.k, e, q, p, s.k.words[Entry(e, q)].frame, o, v);
    var k1 := StoreByte(Touch(One(q), s.k, e, p).value.1, e, p, o, v);
    var (s1, k2) := (Sys(s.envs[e := One(p)], k1), Touch(One(p), k1, e, q).value.1);
    StoreIs(s, e, p, o, v);
    LoadIs(s1, e, q, o);
    LoadIs(Sys(s1.envs[e := One(q)], k2), e, p, o);
  }

  lemma StoreIs(s: Sys, e: EnvId, p: Page, o: nat, v: byte)
    requires e in s.envs && Touch(s.envs[e], s.k, e, p).Ok?
    ensures var (l, k) := Touch(s.envs[e], s.k, e, p).value;
      Step(s, Store(e, p, o, v)) == Ok((Sys(s.envs[e := l], StoreByte(k, e, p, o, v)), 0))
  {
    hide Touch, StoreByte;
  }

  lemma LoadIs(s: Sys, e: EnvId, p: Page, o: nat)
    requires e in s.envs && Touch(s.envs[e], s.k, e, p).Ok?
    ensures var (l, k) := Touch(s.envs[e], s.k, e, p).value;
      Step(s, Load(e, p, o)) == Ok((Sys(s.envs[e := l], k), LoadByte(k, e, p, o)))
  {
    hide Touch, LoadByte;
  }

  lemma StartHolds(s: Sys, h: Stores, e: EnvId, p: Page, q: Page)
    requires Good(s, h) && e in s.envs && s.envs[e] == One(q) && !s.k.Mapped(e, p)
    requires Table(e, Pdx(p)) in s.k.words && DiskTable(e, Pdx(p)) in s.k.words
    ensures s.k.Mapped(e, q) && Holds(s.k, e, q, p, s.k.words[Entry(e, q)].frame) && (e, q) in s.k.pf && DiskOwned(s.k)
  {
    hide Kept, Belongs;
    EnvsOkAt(s, e);
    assert q in One(q).active;
  }

  /**
   * With a working set of one page, a store to a new stack page survives the page's eviction if and
   * only if a disk frame is free when the page is started. No access panics in either case.
   */
  lemma SurvivesIff(s: Sys, h: Stores, e: EnvId, p: Page, q: Page, o: nat)
    requires Good(s, h) && e in s.envs && s.envs[e] == One(q) && o < PAGE_SIZE && q < STACK_TOP
    requires IsStack(p) && !s.k.Mapped(e, p) && (e, p) !in s.k.pf
    requires Table(e, Pdx(p)) in s.k.words && DiskTable(e, Pdx(p)) in s.k.words
    ensures forall v: byte :: Outcome(s, e, p, q, o, v).Ok?
    ensures (forall v: byte :: Outcome(s, e, p, q, o, v) == Ok(v)) <==> s.k.diskFree != []
  {
    hide Outcome, Good, ByteOf;
    OutcomeIs(s, h, e, p, q, o, 0);
    forall v: byte
      ensures Outcome(s, e, p, q, o, v) == Ok(if s.k.diskFree != [] then v else ByteOf(s.k, e, q, o))
    {
      OutcomeIs(s, h, e, p, q, o, v);
    }
    var other: byte := if s.k.diskFree == [] && ByteOf(s.k, e, q, o) == 0 then 1 else 0;
    assert s.k.diskFree == [] ==> Outcome(s, e, p, q, o, other) != Ok(other);
  }

  // ----- a machine with one disk frame -----

  function Boot(): Sys {
    Sys(map[], Kernel(map[], map[], seq(20, i => i), map[], map[], [1], map[]))
  }

  /** A program of no segments, with one place in ActiveList. */
  function Start(): Op { Create(0, 1, 0, Program([], map[], map[], false)) }

  const SECOND_STACK_PAGE: Page := STACK_PAGE - 1

  /** From boot: whatever is stored in the second stack page, after its eviction a zero is read. */
  lemma StoredByteIsLost()
    ensures Good(Boot(), map[]) && RunsFrom(Boot(), [Start()])
    ensures forall v: byte :: Outcome(After(Boot(), [Start()]), 0, SECOND_STACK_PAGE, STACK_PAGE, 0, v) == Ok(0)
  {
    hide Good, Outcome, ByteOf;
    var h := BootRuns();
    var s := After(Boot(), [Start()]);
    DiskIsFull(s, h);
    forall v: byte ensures Outcome(s, 0, SECOND_STACK_PAGE, STACK_PAGE, 0, v) == Ok(0) {
      OutcomeIs(s, h, 0, SECOND_STACK_PAGE, STACK_PAGE, 0, v);
      StackByte(s, h);
    }
  }

  lemma BootRuns() returns (h: Stores)
    ensures Good(Boot(), map[]) && RunsFrom(Boot(), [Start()])
    ensures var s := After(Boot(), [Start()]);
      && Good(s, h) && 0 in s.envs && s.envs[0] == One(STACK_PAGE) && DiskAccounted(s.k) == {1}
      && (0, STACK_PAGE, 0) in h && h[(0, STACK_PAGE, 0)] == 0
  {
    hide Good, Allowed, Step, RunsFrom, After, InitialBytes, DiskAccounted, Start, Boot;
    BootGood(seq(20, i => i), [1]);
    BootIs();
    Starts();
    StepKeeps(Boot(), map[], Start());
    C.OneStep(Boot(), Start());
    h := Remember(map[], Start());
    StackStartsZero();
  }

  lemma BootIs()
    ensures Boot() == Sys(map[], Kernel(map[], map[], seq(20, i => i), map[], map[], [1], map[]))
    ensures DiskAccounted(Boot().k) == {1}
  {
  }

  lemma Starts()
    ensures Allowed(Boot(), Start()) && Step(Boot(), Start()).Ok?
    ensures var s := Step(Boot(), Start()).value.0; 0 in s.envs && s.envs[0] == One(STACK_PAGE)
    ensures !Start().Exit? && !Start().Load?
    ensures RunsFrom(Boot(), [Start()])
  {
    hide EnvCreate.EnvCreate, N.CreateSlots, N.SegmentFiles;
    N.StackOnly(0, 1, Start().prog);
    N.CreateOkIff(Boot().k, 0, 1, 0, Start().prog);
    S.CreatedIs(Boot().k, 0, 1, 0, Start().prog);
    assert [Start()][1..] == [];
    assert RunsFrom(Step(Boot(), Start()).value.0, []);
  }

  lemma StackStartsZero()
    ensures var h := Remember(map[], Start()); (0, STACK_PAGE, 0) in h && h[(0, STACK_PAGE, 0)] == 0
  {
    assert (0, STACK_PAGE, 0) in InitialBytes(0, Start().prog);
    InitialByte(0, Start().prog, 0, STACK_PAGE, 0);
  }

  lemma DiskIsFull(s: Sys, h: Stores)
    requires Good(s, h) && 0 in s.envs && s.envs[0] == One(STACK_PAGE) && DiskAccounted(s.k) == {1}
    ensures s.k.diskFree == [] && !s.k.Mapped(0, SECOND_STACK_PAGE) && (0, SECOND_STACK_PAGE) !in s.k.pf
    ensures Table(0, Pdx(SECOND_STACK_PAGE)) in s.k.words && DiskTable(0, Pdx(SECOND_STACK_PAGE)) in s.k.words
  {
    hide Kept, Belongs, FramesOwned;
    EnvsOkAt(s, 0);
    assert STACK_PAGE in One(STACK_PAGE).active;
    OneDiskFrame(s.k);
    AllTaken(s.k, (0, STACK_PAGE));
  }

  lemma AllTaken(k: Kernel, x: (EnvId, Page))
    requires DiskOwned(k) && x in k.pf
    requires (forall d :: d in k.diskFree ==> d == k.pf[x]) && forall y :: y in k.pf ==> k.pf[y] == k.pf[x]
    ensures k.diskFree == [] && forall y :: y in k.pf ==> y == x
  {
    FirstIsIn(k.diskFree);
    assert k.pf[x] !in k.diskFree;
  }

  lemma FirstIsIn<T>(s: seq<T>)
    ensures s == [] || s[0] in s
  {
  }

  lemma OneDiskFrame(k: Kernel)
    requires DiskAccounted(k) == {1}
    ensures forall d :: d in k.diskFree ==> d == 1
    ensures forall x :: x in k.pf ==> k.pf[x] == 1
  {
    assert forall d :: d in k.diskFree ==> d in DiskAccounted(k);
    assert forall x :: x in k.pf ==> k.pf[x] in DiskAccounted(k);
  }

  lemma StackByte(s: Sys, h: Stores)
    requires Good(s, h) && s.k.Mapped(0, STACK_PAGE) && (0, STACK_PAGE) in s.k.pf
    requires (0, STACK_PAGE, 0) in h && h[(0, STACK_PAGE, 0)] == 0
    ensures ByteOf(s.k, 0, STACK_PAGE, 0) == 0
  {
    hide Owned, EnvsOk, Belongs;
  }
}
