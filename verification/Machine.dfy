/**
 * Whole runs: any number of environments, created and ended at any time, loading and storing
 * bytes and calling allocateMem and freeMem, interleaved in any order.
 */
module Machine {
  import opened Sequences
  import opened TwoLists
  import opened KernelState
  import opened Paging
  import opened UserMemory
  import opened EnvFree
  import opened EnvCreate
  import opened ProgramBytes

  datatype Sys = Sys(envs: map<EnvId, Lists>, k: Kernel)

  datatype Op =
    | Load(e: EnvId, p: Page, o: nat)
    | Store(e: EnvId, p: Page, o: nat, v: byte)
    | Alloc(e: EnvId, p: Page, n: nat)
    | Release(e: EnvId, p: Page, n: nat)
    | Create(e: EnvId, activeMax: nat, secondMax: nat, prog: Program)
    | Exit(e: EnvId)

  /** One operation; a load also yields the byte it read. */
  function Step(s: Sys, op: Op): Result<(Sys, byte)> {
    if !op.Create? && op.e !in s.envs then Panic(IllegalAccess) else
    match op
    case Load(e, p, o) =>
      var (l, k) :- Touch(s.envs[e], s.k, e, p);
      Ok((Sys(s.envs[e := l], k), LoadByte(k, e, p, o)))
    case Store(e, p, o, v) =>
      var (l, k) :- Touch(s.envs[e], s.k, e, p);
      Ok((Sys(s.envs[e := l], StoreByte(k, e, p, o, v)), 0))
    case Alloc(e, p, n) =>
      var k :- AllocateMem(s.k, e, p, n);
      Ok((s.(k := k), 0))
    case Release(e, p, n) =>
      var (l, k) := FreeMem(s.envs[e], s.k, e, p, n);
      Ok((Sys(s.envs[e := l], k), 0))
    case Create(e, a, m, prog) =>
      var (l, k) :- EnvCreate.EnvCreate(s.k, e, a, m, prog);
      Ok((Sys(s.envs[e := l], k), 0))
    case Exit(e) =>
      Ok((Sys(s.envs - {e}, EnvFree.EnvFree(s.envs[e], s.k, e)), 0))
  }

  /** The page is mapped or in the page file, or there is a disk frame for it. */
  predicate HasPlace(k: Kernel, e: EnvId, p: Page) { k.Mapped(e, p) || (e, p) in k.pf || k.diskFree != [] }

  /** What the kernel's callers are held to, and enough page-file space for what the code does not check. */
  ghost predicate Allowed(s: Sys, op: Op) {
    match op
    case Load(e, p, o) => o < PAGE_SIZE && HasPlace(s.k, e, p)
    case Store(e, p, o, v) => o < PAGE_SIZE && HasPlace(s.k, e, p)
    case Alloc(e, p, n) => HEAP_START <= p && p + n <= HEAP_MAX
    case Release(e, p, n) => true
    case Create(e, a, m, prog) =>
      e !in s.envs && 1 <= a && GoodProgram(prog.segments) && FileDemand(prog.segments) < |s.k.diskFree|
    case Exit(e) => true
  }

  /**
   * What a program may rely on, told by the operations alone: the last value stored in a byte, or
   * the one the program's file gave it, until the page is released.
   */
  function Remember(h: Stores, op: Op): Stores {
    match op
    case Load(_, _, _) => h
    case Store(e, p, o, v) => h[(e, p, o) := v]
    case Alloc(e, p, n) => Forget(h, e, p, n)
    case Release(e, p, n) => Forget(h, e, p, n)
    case Create(e, _, _, prog) => h + InitialBytes(e, prog)
    case Exit(e) => map x | x in h && x.0 != e :: h[x]
  }

  ghost predicate Belongs(s: Sys, h: Stores) {
    && (forall t :: t in s.k.words ==> t.env in s.envs)
    && (forall x :: x in s.k.pf ==> x.0 in s.envs)
    && (forall x :: x in h ==> x.0 in s.envs)
  }

  ghost predicate EnvsOk(s: Sys) {
    forall e :: e in s.envs ==> EnvOk(s.envs[e], s.k, e)
  }

  /** The invariant of every reachable state. */
  ghost predicate Good(s: Sys, h: Stores) {
    Owned(s.k) && EnvsOk(s) && Kept(h, s.k) && Belongs(s, h)
  }

  /** Environment e moved from s to s'; all others stand as they were. */
  lemma OthersStand(s: Sys, l: Lists, k': Kernel, e: EnvId)
    requires EnvsOk(s) && EnvOk(l, k', e) && forall d :: d != e ==> SameFor(s.k, k', d)
    ensures EnvsOk(Sys(s.envs[e := l], k'))
  {
    var envs := s.envs[e := l];
    forall d | d in envs ensures EnvOk(envs[d], k', d) {
      if d != e { SameForKeepsEnvOk(s.envs[d], s.k, k', d); }
    }
  }

  lemma StillBelongs(s: Sys, h: Stores, l: Lists, k': Kernel, e: EnvId)
    requires Belongs(s, h) && forall d :: d != e ==> SameFor(s.k, k', d)
    ensures Belongs(Sys(s.envs[e := l], k'), h)
  {
    var s' := Sys(s.envs[e := l], k');
    forall t | t in k'.words ensures t.env in s'.envs {
      if t.env != e { assert SameFor(s.k, k', t.env); }
    }
    forall x | x in k'.pf ensures x.0 in s'.envs {
      if x.0 != e { assert SameFor(s.k, k', x.0); assert (x.0, x.1) in s.k.pf; }
    }
  }

  lemma TouchGood(s: Sys, h: Stores, e: EnvId, p: Page)
    requires Good(s, h) && e in s.envs && HasPlace(s.k, e, p) && Touch(s.envs[e], s.k, e, p).Ok?
    ensures var (l, k) := Touch(s.envs[e], s.k, e, p).value;
      && Good(Sys(s.envs[e := l], k), h) && k.Mapped(e, p)
      && Accounted(k) == Accounted(s.k) && DiskAccounted(k) == DiskAccounted(s.k)
  {
    hide Owned, EnvOk, Kept, Belongs, Touch, SameFor, EnvsOk;
    assert EnvOk(s.envs[e], s.k, e) by { EnvsOkAt(s, e); }
    TouchKeeps(h, s.envs[e], s.k, e, p);
    var (l, k) := Touch(s.envs[e], s.k, e, p).value;
    OthersStand(s, l, k, e);
    StillBelongs(s, h, l, k, e);
  }

  lemma EnvsOkAt(s: Sys, e: EnvId)
    requires EnvsOk(s) && e in s.envs
    ensures EnvOk(s.envs[e], s.k, e)
  {
  }

  lemma StoreGood(s: Sys, h: Stores, e: EnvId, p: Page, o: nat, v: byte)
    requires Good(s, h) && e in s.envs && s.k.Mapped(e, p) && o < PAGE_SIZE
    ensures Good(s.(k := StoreByte(s.k, e, p, o, v)), h[(e, p, o) := v])
    ensures Accounted(StoreByte(s.k, e, p, o, v)) == Accounted(s.k)
    ensures DiskAccounted(StoreByte(s.k, e, p, o, v)) == DiskAccounted(s.k)
  {
    hide StoreByte, EnvOk, Kept, Accounted, DiskAccounted, Unshared, Counted, DiskUnshared;
    StoreOwned(s.k, e, p, o, v);
    StoreKept(h, s.k, e, p, o, v);
    StoreKeys(s.k, e, p, o, v);
    var k' := StoreByte(s.k, e, p, o, v);
    forall d | d in s.envs ensures EnvOk(s.envs[d], k', d) {
      StoreEnvOk(s.envs[d], s.k, e, p, o, v, d);
    }
  }

  lemma StoreKeys(k: Kernel, e: EnvId, p: Page, o: nat, v: byte)
    ensures StoreByte(k, e, p, o, v).words.Keys == k.words.Keys && StoreByte(k, e, p, o, v).pf == k.pf
  {
  }

  lemma AllocGood(s: Sys, h: Stores, e: EnvId, p: Page, n: nat)
    requires Good(s, h) && e in s.envs && HEAP_START <= p && p + n <= HEAP_MAX && AllocateMem(s.k, e, p, n).Ok?
    ensures var k := AllocateMem(s.k, e, p, n).value;
      && Good(s.(k := k), Forget(h, e, p, n))
      && Accounted(k) == Accounted(s.k) && DiskAccounted(k) == DiskAccounted(s.k)
  {
    hide Owned, EnvOk, Kept, AllocateMem, SameFor, EnvsOk;
    EnvsOkAt(s, e);
    AllocateMemKeeps(h, s.envs[e], s.k, e, p, n);
    var k := AllocateMem(s.k, e, p, n).value;
    OthersStand(s, s.envs[e], k, e);
    StillBelongs(s, h, s.envs[e], k, e);
    assert s.envs[e := s.envs[e]] == s.envs;
  }

  lemma ReleaseGood(s: Sys, h: Stores, e: EnvId, p: Page, n: nat)
    requires Good(s, h) && e in s.envs
    ensures var (l, k) := FreeMem(s.envs[e], s.k, e, p, n);
      && Good(Sys(s.envs[e := l], k), Forget(h, e, p, n))
      && Accounted(k) == Accounted(s.k) && DiskAccounted(k) == DiskAccounted(s.k)
  {
    hide Owned, EnvOk, Kept, FreeMem, SameFor, EnvsOk;
    EnvsOkAt(s, e);
    FreeMemKeeps(h, s.envs[e], s.k, e, p, n);
    var (l, k) := FreeMem(s.envs[e], s.k, e, p, n);
    OthersStand(s, l, k, e);
    StillBelongs(s, h, l, k, e);
  }

  lemma CreateGood(s: Sys, h: Stores, e: EnvId, a: nat, m: nat, prog: Program)
    requires Good(s, h) && Allowed(s, Create(e, a, m, prog)) && EnvCreate.EnvCreate(s.k, e, a, m, prog).Ok?
    ensures var (l, k) := EnvCreate.EnvCreate(s.k, e, a, m, prog).value;
      && Good(Sys(s.envs[e := l], k), Remember(h, Create(e, a, m, prog)))
      && Accounted(k) == Accounted(s.k) && DiskAccounted(k) == DiskAccounted(s.k)
  {
    hide Owned, EnvOk, Kept, EnvCreate.EnvCreate, SameFor, EnvsOk, Grown, GoodProgram, FileDemand, InitialBytes;
    EnvCreateOk(s.k, e, a, m, prog);
    EnvCreateInitial(s.k, e, a, m, prog);
    var (l, k) := EnvCreate.EnvCreate(s.k, e, a, m, prog).value;
    GrownOwned(s.k, k, e);
    GrownKept(h, s.k, k, e);
    KeptBoth(h, InitialBytes(e, prog), k);
    OthersStand(s, l, k, e);
    StillBelongs(s, h, l, k, e);
  }

  lemma KeptBoth(h: Stores, g: Stores, k: Kernel)
    requires Kept(h, k) && Kept(g, k)
    ensures Kept(h + g, k)
  {
    forall e, p, o | (e, p, o) in h + g
      ensures (h + g)[(e, p, o)] == if (e, p, o) in g then g[(e, p, o)] else h[(e, p, o)]
    {
    }
  }

  lemma ExitGood(s: Sys, h: Stores, e: EnvId)
    requires Good(s, h) && e in s.envs
    ensures Good(Sys(s.envs - {e}, EnvFree.EnvFree(s.envs[e], s.k, e)), Remember(h, Exit(e)))
    ensures DiskAccounted(EnvFree.EnvFree(s.envs[e], s.k, e)) == DiskAccounted(s.k)
    ensures Accounted(EnvFree.EnvFree(s.envs[e], s.k, e)) == Accounted(s.k) - PinnedFrames(s.k, e)
  {
    hide EnvFree.EnvFree, Owned, EnvOk, Accounted, DiskAccounted, PinnedFrames, Kept, SameFor, Undisturbed;
    EnvsOkAt(s, e);
    var k' := EnvFree.EnvFree(s.envs[e], s.k, e);
    EnvFreeConserves(s.envs[e], s.k, e);
    EnvFreeUndisturbed(s.envs[e], s.k, e);
    forall d | d in s.envs - {e} ensures EnvOk(s.envs[d], k', d) {
      UndisturbedSame(s.k, k', e, d);
      SameForKeepsEnvOk(s.envs[d], s.k, k', d);
    }
    UndisturbedKept(h, s.k, k', e);
  }

  lemma UndisturbedSame(k: Kernel, k': Kernel, e: EnvId, d: EnvId)
    requires Undisturbed(k, k', e) && d != e
    ensures SameFor(k, k', d)
  {
  }

  lemma UndisturbedKept(h: Stores, k: Kernel, k': Kernel, e: EnvId)
    requires Undisturbed(k, k', e) && Kept(h, k)
    ensures Kept(Remember(h, Exit(e)), k')
  {
    forall d, p, o | (d, p, o) in Remember(h, Exit(e))
      ensures k'.Mapped(d, p) <==> k.Mapped(d, p)
      ensures k.Mapped(d, p) ==> k'.words[Entry(d, p)] == k.words[Entry(d, p)]
    {
      assert (d, p, o).0 != e;
      assert Entry(d, p).env != e;
    }
  }

  lemma EnvFreeUndisturbed(l: Lists, k: Kernel, e: EnvId)
    requires Owned(k) && EnvOk(l, k, e)
    ensures Undisturbed(k, EnvFree.EnvFree(l, k, e), e)
  {
    hide EnvFree.EnvFree, BeforeVacate, Owned, Shrunk, EnvOk, Vacate, Undisturbed;
    EnvFreeShrinks(l, k, e);
    EnvFreeVacates(l, k, e);
    VacateUndisturbed(k, BeforeVacate(l, k, e), e);
  }

  lemma VacateUndisturbed(k: Kernel, j: Kernel, e: EnvId)
    requires Shrunk(k, j, e)
    ensures Undisturbed(k, Vacate(j, e), e)
  {
    hide Owned, Accounted, DiskAccounted;
  }

  /**
   * One operation of one environment keeps the invariant; a load of a byte that was stored, or came
   * from the program's file, and was not released since returns that value; and no frame or disk frame appears or vanishes,
   * but for the frames pinned by allocateMem when their environment ends.
   */
  lemma StepKeeps(s: Sys, h: Stores, op: Op)
    requires Good(s, h) && Allowed(s, op) && Step(s, op).Ok?
    ensures var (s', r) := Step(s, op).value;
      && Good(s', Remember(h, op))
      && (op.Load? && (op.e, op.p, op.o) in h ==> r == h[(op.e, op.p, op.o)])
      && DiskAccounted(s'.k) == DiskAccounted(s.k)
      && Accounted(s'.k) == (if op.Exit? then Accounted(s.k) - PinnedFrames(s.k, op.e) else Accounted(s.k))
  {
    hide Owned, EnvsOk, Belongs, Touch, AllocateMem, FreeMem, EnvCreate.EnvCreate, EnvFree.EnvFree, StoreByte,
      Accounted, DiskAccounted, Forget, PinnedFrames, GoodProgram, FileDemand, InitialBytes;
    match op
    case Load(e, p, o) => TouchGood(s, h, e, p);
    case Store(e, p, o, v) =>
      TouchGood(s, h, e, p);
      var (l, k) := Touch(s.envs[e], s.k, e, p).value;
      StoreGood(Sys(s.envs[e := l], k), h, e, p, o, v);
    case Alloc(e, p, n) => AllocGood(s, h, e, p, n);
    case Release(e, p, n) => ReleaseGood(s, h, e, p, n);
    case Create(e, a, m, prog) => CreateGood(s, h, e, a, m, prog);
    case Exit(e) => ExitGood(s, h, e);
  }

  // ----- runs -----

  /** Every operation of the run is allowed where it happens and none panics. */
  ghost predicate RunsFrom(s: Sys, ops: seq<Op>)
    decreases |ops|
  {
    ops == [] || (Allowed(s, ops[0]) && Step(s, ops[0]).Ok? && RunsFrom(Step(s, ops[0]).value.0, ops[1..]))
  }

  function After(s: Sys, ops: seq<Op>): Sys
    decreases |ops|
  {
    if ops == [] || Step(s, ops[0]).Panic? then s else After(Step(s, ops[0]).value.0, ops[1..])
  }

  function Remembered(h: Stores, ops: seq<Op>): Stores
    decreases |ops|
  {
    if ops == [] then h else Remembered(Remember(h, ops[0]), ops[1..])
  }

  lemma {:induction false} RunKeeps(s: Sys, h: Stores, ops: seq<Op>)
    requires Good(s, h) && RunsFrom(s, ops)
    ensures Good(After(s, ops), Remembered(h, ops))
    ensures DiskAccounted(After(s, ops).k) == DiskAccounted(s.k)
    decreases |ops|
  {
    hide Good, Allowed, Step, DiskAccounted;
    if ops != [] {
      StepKeeps(s, h, ops[0]);
      RunKeeps(Step(s, ops[0]).value.0, Remember(h, ops[0]), ops[1..]);
    }
  }

  /**
   * Paging is invisible: after any run, however its pages were placed, demoted, evicted and read
   * back, a load of a byte returns the value the run last stored there or, if it stored none, the
   * byte of the program's file.
   */
  lemma PagingIsInvisible(s: Sys, h: Stores, ops: seq<Op>, e: EnvId, p: Page, o: nat)
    requires Good(s, h) && RunsFrom(s, ops + [Load(e, p, o)])
    ensures RunsFrom(s, ops) && Step(After(s, ops), Load(e, p, o)).Ok?
    ensures (e, p, o) in Remembered(h, ops) ==>
              Step(After(s, ops), Load(e, p, o)).value.1 == Remembered(h, ops)[(e, p, o)]
  {
    RunPrefix(s, ops, Load(e, p, o));
    RunKeeps(s, h, ops);
    StepKeeps(After(s, ops), Remembered(h, ops), Load(e, p, o));
  }

  lemma {:induction false} RunPrefix(s: Sys, ops: seq<Op>, op: Op)
    requires RunsFrom(s, ops + [op])
    ensures RunsFrom(s, ops) && Allowed(After(s, ops), op) && Step(After(s, ops), op).Ok?
    decreases |ops|
  {
    hide Allowed, Step;
    if ops == [] {
      assert ops + [op] == [op];
    } else {
      assert (ops + [op])[1..] == ops[1..] + [op];
      RunPrefix(Step(s, ops[0]).value.0, ops[1..], op);
    }
  }

  /** The kernel just after boot: no environment, every frame of the free lists at count zero. */
  lemma BootGood(free: seq<Frame>, diskFree: seq<DiskFrame>)
    requires Distinct(free) && Distinct(diskFree) && 0 !in diskFree
    ensures Good(Sys(map[], Kernel(map[], map[], free, map[], map[], diskFree, map[])), map[])
  {
  }
}
