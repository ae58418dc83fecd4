/**
 * The user heap and the kernel together: one environment's runs of malloc, free, loads and stores,
 * with every system call made on the kernel's own state.
 */
module HeapAndKernel {
  import opened TwoLists
  import opened KernelState
  import opened Paging
  import opened UserMemory
  import C = Conservation
  import E = EnvCreate
  import M = Machine
  import H = UserHeap

  /** The heap's table and what the model says is filed, the working set lists, and the kernel. */
  datatype World = World(h: H.Heap, l: Lists, k: Kernel)

  datatype Op = Malloc(size: nat) | Free(va: int) | Load(p: Page, o: nat) | Store(p: Page, o: nat, v: byte)

  /** A step ends the run when the kernel panics, and when free finds no entry. */
  datatype Outcome = Next(w: World) | Stopped

  function PageAt(p: int): Page { if p >= 0 then p else 0 }

  function Do(w: World, e: EnvId, op: Op): Outcome {
    match op
    case Malloc(size) =>
      var (h', p) := H.Malloced(w.h, size);
      if p == 0 then Next(w.(h := h'))
      else
        var k' := AllocateMem(w.k, e, PageAt(p), H.RequestPages(size));
        if k'.Panic? then Stopped else Next(World(h', w.l, k'.value))
    case Free(va) =>
      var i := H.Found(w.h, va);
      if i == |w.h.records| then Stopped
      else
        var r := w.h.records[i];
        var (l', k') := FreeMem(w.l, w.k, e, PageAt(r.start), H.ReleasePages(r.pages));
        Next(World(H.Released(w.h, va), l', k'))
    case Load(p, o) =>
      var t := Touch(w.l, w.k, e, p);
      if t.Panic? then Stopped else Next(World(w.h, t.value.0, t.value.1))
    case Store(p, o, v) =>
      var t := Touch(w.l, w.k, e, p);
      if t.Panic? then Stopped else Next(World(w.h, t.value.0, StoreByte(t.value.1, e, p, o, v)))
  }

  /** Sizes of at least a page after rounding, no free(NULL), room in the table, a place for the page. */
  ghost predicate Allowed(w: World, e: EnvId, op: Op) {
    match op
    case Malloc(size) => 1 <= size <= 0xFFFF_F000 && (H.NeedsEntry(w.h, size) ==> |w.h.records| < H.NUM_PAGES)
    case Free(va) => va != 0
    case Load(p, o) => o < PAGE_SIZE && M.HasPlace(w.k, e, p)
    case Store(p, o, v) => o < PAGE_SIZE && M.HasPlace(w.k, e, p)
  }

  /** The heap pages in the kernel's page file are exactly the pages of the table's allocated entries. */
  ghost predicate Agree(w: World, e: EnvId) {
    forall p: Page :: H.START <= p < H.LIMIT ==> ((e, p) in w.k.pf <==> H.AllocatedAt(w.h.records, p))
  }

  ghost predicate Joint(w: World, e: EnvId) {
    Owned(w.k) && EnvOk(w.l, w.k, e) && H.InStep(w.h) && H.FiledAre(w.k, e, w.h.filed)
  }

  lemma JointAgrees(w: World, e: EnvId)
    requires Joint(w, e)
    ensures Agree(w, e)
  {
    hide EnvOk, Owned, H.Whole, H.AllocatedAt;
  }

  lemma NothingKept(k: Kernel)
    ensures Kept(map[], k)
  {
  }

  lemma MallocKeeps(w: World, e: EnvId, size: nat)
    requires Joint(w, e) && Allowed(w, e, Malloc(size)) && Do(w, e, Malloc(size)).Next?
    ensures Joint(Do(w, e, Malloc(size)).w, e)
  {
    hide Owned, EnvOk, Kept, AllocateMem, H.Malloced, H.Whole, H.FiledRight, H.RequestPages, H.FiledAre;
    var (h', p) := H.Malloced(w.h, size);
    H.MallocInStepIff(w.h, size);
    H.MallocGives(w.h, size);
    if p != 0 {
      H.AllocateMemFiles(w.l, w.k, e, w.h.filed, p, H.RequestPages(size));
      NothingKept(w.k);
      AllocateMemKeeps(map[], w.l, w.k, e, p, H.RequestPages(size));
    }
  }

  lemma FreeKeeps(w: World, e: EnvId, va: int)
    requires Joint(w, e) && va != 0 && Do(w, e, Free(va)).Next?
    ensures Joint(Do(w, e, Free(va)).w, e)
  {
    hide Owned, EnvOk, Kept, FreeMem, H.Released, H.Whole, H.FiledRight, H.ReleasePages, H.FiledAre, H.Live;
    H.FreeInStepIff(w.h, va);
    H.FreeTakes(w.h, va);
    var r := w.h.records[H.Found(w.h, va)];
    LiveEntry(r);
    H.FreeMemUnfiles(w.l, w.k, e, w.h.filed, r.start, r.pages);
    NothingKept(w.k);
    FreeMemKeeps(map[], w.l, w.k, e, r.start, r.pages);
  }

  lemma LiveEntry(r: H.Info)
    requires H.Live(r)
    ensures r.start > 0 && r.pages > 0 && H.ReleasePages(r.pages) == r.pages
  {
  }

  lemma TouchKeepsJoint(w: World, e: EnvId, p: Page)
    requires Joint(w, e) && M.HasPlace(w.k, e, p) && Touch(w.l, w.k, e, p).Ok?
    ensures var (l, k) := Touch(w.l, w.k, e, p).value; Joint(World(w.h, l, k), e) && k.Mapped(e, p)
  {
    hide Owned, EnvOk, Kept, Touch, H.InStep;
    NothingKept(w.k);
    TouchKeeps(map[], w.l, w.k, e, p);
    C.TouchPins(map[], w.l, w.k, e, p);
    var k := Touch(w.l, w.k, e, p).value.1;
    forall q: Page | H.START <= q < H.LIMIT ensures (e, q) in k.pf <==> q in w.h.filed { assert IsHeap(q); }
  }

  lemma StoreKeepsJoint(w: World, e: EnvId, p: Page, o: nat, v: byte)
    requires Joint(w, e)
    ensures Joint(w.(k := StoreByte(w.k, e, p, o, v)), e)
  {
    hide EnvOk, H.InStep, Owned;
    StoreOwned(w.k, e, p, o, v);
    StoreEnvOk(w.l, w.k, e, p, o, v, e);
    M.StoreKeys(w.k, e, p, o, v);
    hide StoreByte;
  }

  /** Every step of the program keeps heap, lists and kernel in step. */
  lemma StepKeepsJoint(w: World, e: EnvId, op: Op)
    requires Joint(w, e) && Allowed(w, e, op) && Do(w, e, op).Next?
    ensures Joint(Do(w, e, op).w, e)
  {
    hide Joint, Touch, FreeMem, AllocateMem, H.Malloced, H.Released, StoreByte, M.HasPlace;
    match op
    case Malloc(size) => MallocKeeps(w, e, size);
    case Free(va) => FreeKeeps(w, e, va);
    case Load(p, o) => TouchKeepsJoint(w, e, p);
    case Store(p, o, v) =>
      TouchKeepsJoint(w, e, p);
      var (l, k) := Touch(w.l, w.k, e, p).value;
      StoreKeepsJoint(World(w.h, l, k), e, p, o, v);
  }

  ghost predicate Runs(w: World, e: EnvId, ops: seq<Op>)
    decreases |ops|
  {
    ops == [] || (Allowed(w, e, ops[0]) && Do(w, e, ops[0]).Next? && Runs(Do(w, e, ops[0]).w, e, ops[1..]))
  }

  function After(w: World, e: EnvId, ops: seq<Op>): World
    decreases |ops|
  {
    if ops == [] || Do(w, e, ops[0]).Stopped? then w else After(Do(w, e, ops[0]).w, e, ops[1..])
  }

  /**
   * After every run of malloc, free, loads and stores the heap pages in the kernel's page file are
   * exactly the pages of the allocated entries, and the entries partition the heap.
   */
  lemma {:induction false} HeapStaysFiled(w: World, e: EnvId, ops: seq<Op>)
    requires Joint(w, e) && Runs(w, e, ops)
    ensures var w' := After(w, e, ops); Joint(w', e) && Agree(w', e) && H.Whole(w'.h)
    decreases |ops|
  {
    hide Allowed, Do, Agree, EnvOk, Owned, H.Whole, H.FiledAre;
    if ops == [] {
      JointAgrees(w, e);
    } else {
      StepKeepsJoint(w, e, ops[0]);
      HeapStaysFiled(Do(w, e, ops[0]).w, e, ops[1..]);
    }
  }

  /** A program starts so: env_create files no heap page, and the heap's table is unused. */
  lemma NewProgramAgrees(k: Kernel, e: EnvId, activeMax: nat, secondMax: nat, prog: E.Program)
    requires Owned(k) && 1 <= activeMax && E.GoodProgram(prog.segments)
    requires (forall s :: s in k.words ==> s.env != e) && (forall x :: x in k.pf ==> x.0 != e)
    requires E.FileDemand(prog.segments) < |k.diskFree| && E.EnvCreate(k, e, activeMax, secondMax, prog).Ok?
    ensures var (l', k') := E.EnvCreate(k, e, activeMax, secondMax, prog).value; Joint(World(H.Heap([], {}), l', k'), e)
  {
    hide E.EnvCreate, E.GoodProgram, E.FileDemand, Owned, Structured;
    E.EnvCreateOk(k, e, activeMax, secondMax, prog);
    var (l', k') := E.EnvCreate(k, e, activeMax, secondMax, prog).value;
    E.GrownOwned(k, k', e);
    forall p: Page | H.START <= p < H.LIMIT ensures (e, p) !in k'.pf { assert IsHeap(p) && !k'.Mapped(e, p); }
  }
}
