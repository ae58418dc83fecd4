/**
 * The kernel's memory state as a value, and the primitive operations of memory_manager.c and
 * file_manager.c as functions on it. Every word of memory that names a frame (a directory
 * register, a page-directory entry, a page-table entry, or their disk counterparts) is a Slot.
 */
module KernelState {
  import opened Sequences
  import opened TwoLists

  type EnvId = nat
  type Frame = nat
  type DiskFrame = nat

  newtype byte = x: int | 0 <= x < 256

  const PAGE_SIZE: nat := 4096

  // Page numbers of the user address space (inc/memlayout.h). The size expression that
  // USTACKBOTTOM is built from is computed in 32 bits and wraps, which gives this value.
  const HEAP_START: Page := 0x80000
  const HEAP_MAX: Page := 0xA0000
  const STACK_BOTTOM: Page := 0xA00EC
  const STACK_TOP: Page := 0xEEBFE
  const USER_TABLES: nat := 955  // PDX(USER_TOP)

  type PageData = s: seq<byte> | |s| == PAGE_SIZE witness seq(PAGE_SIZE, _ => 0)

  function Blank(): PageData { seq(PAGE_SIZE, _ => 0) }

  predicate IsHeap(p: Page) { HEAP_START <= p < HEAP_MAX }

  predicate IsStack(p: Page) { STACK_BOTTOM <= p < STACK_TOP }

  function Pdx(p: Page): nat { p / 1024 }

  datatype Slot =
    | Directory(env: EnvId)             // env_cr3
    | Table(env: EnvId, pdx: nat)       // env_page_directory[pdx]
    | Entry(env: EnvId, page: Page)     // the page-table entry of a page
    | DiskDirectory(env: EnvId)         // disk_env_pgdir_PA
    | DiskTable(env: EnvId, pdx: nat)   // disk_env_pgdir[pdx]

  /** The slots below USER_TOP, which are the ones env_free walks over. */
  predicate InUserSpace(s: Slot) {
    match s
    case Directory(_) => true
    case DiskDirectory(_) => true
    case Table(_, d) => d < USER_TABLES
    case DiskTable(_, d) => d < USER_TABLES
    case Entry(_, p) => Pdx(p) < USER_TABLES
  }

  datatype Word = Word(frame: Frame, present: bool, modified: bool)

  /** Only non-zero words are in `words`, only non-zero page-file entries are in `pf`. */
  datatype Kernel = Kernel(
    words: map<Slot, Word>,
    refs: map<Frame, nat>,
    free: seq<Frame>,
    ram: map<Frame, PageData>,
    pf: map<(EnvId, Page), DiskFrame>,
    diskFree: seq<DiskFrame>,
    disk: map<DiskFrame, PageData>) {

    function Refs(f: Frame): nat { if f in refs then refs[f] else 0 }

    function Ram(f: Frame): PageData { if f in ram then ram[f] else Blank() }

    function Disk(d: DiskFrame): PageData { if d in disk then disk[d] else Blank() }

    predicate Mapped(e: EnvId, p: Page) { Entry(e, p) in words }

    predicate Present(e: EnvId, p: Page) { Mapped(e, p) && words[Entry(e, p)].present }
  }

  datatype Why = NoFreeFrame | NoPageFileSpace | IllegalAccess | StackUnderflow

  datatype Result<T> = Ok(value: T) | Panic(why: Why) {
    predicate IsFailure() { Panic? }

    function PropagateFailure<U>(): Result<U>
      requires Panic?
    {
      Panic(why)
    }

    function Extract(): T
      requires Ok?
    {
      value
    }
  }

  // ----- frames -----

  function AllocateFrame(k: Kernel): Result<(Kernel, Frame)> {
    if k.free == [] then Panic(NoFreeFrame)
    else Ok((k.(free := k.free[1..], refs := k.refs[k.free[0] := 0]), k.free[0]))
  }

  function FreeFrame(k: Kernel, f: Frame): Kernel {
    k.(free := [f] + k.free, refs := k.refs[f := 0])
  }

  // Frame_Info.references is 16 bits wide.

  function DecrementReferences(k: Kernel, f: Frame): Kernel {
    var r := (k.Refs(f) + 0xFFFF) % 0x1_0000;
    if r == 0 then FreeFrame(k, f) else k.(refs := k.refs[f := r])
  }

  // ----- page tables -----

  /** Stores a reference-counted frame number in a word. */
  function SetWord(k: Kernel, s: Slot, f: Frame): Kernel {
    k.(words := k.words[s := Word(f, true, false)],
       refs := k.refs[f := (k.Refs(f) + 1) % 0x1_0000])
  }

  /** Gives the slot a fresh frame unless it has one (__static_cpt, get_disk_page_table, ...). */
  function Ensure(k: Kernel, s: Slot): Result<Kernel> {
    if s in k.words then Ok(k) else
    var (k1, f) :- AllocateFrame(k);
    Ok(SetWord(k1, s, f))
  }

  function ClearWord(k: Kernel, s: Slot): Kernel {
    k.(words := k.words - {s})
  }

  function UnmapFrame(k: Kernel, s: Slot): Kernel {
    if s !in k.words then k
    else ClearWord(DecrementReferences(k, k.words[s].frame), s)
  }

  function MapFrame(k: Kernel, e: EnvId, p: Page, f: Frame): Result<Kernel> {
    var k1 :- Ensure(k, Table(e, Pdx(p)));
    if k1.Present(e, p) then
      if k1.words[Entry(e, p)].frame == f then Ok(k1)
      else Ok(SetWord(UnmapFrame(k1, Entry(e, p)), Entry(e, p), f))
    else
      Ok(SetWord(k1, Entry(e, p), f))
  }

  /** The loader's variant, which never looks at the old entry. */
  function LoadtimeMapFrame(k: Kernel, e: EnvId, p: Page, f: Frame): Result<Kernel> {
    var k1 :- Ensure(k, Table(e, Pdx(p)));
    Ok(SetWord(k1, Entry(e, p), f))
  }

  /** pt_set_page_permissions on PRESENT; the kernel only calls it on mapped pages. */
  function SetPresent(k: Kernel, e: EnvId, p: Page, on: bool): Kernel {
    if !k.Mapped(e, p) then k
    else k.(words := k.words[Entry(e, p) := k.words[Entry(e, p)].(present := on)])
  }

  function SetModified(k: Kernel, e: EnvId, p: Page, on: bool): Kernel {
    if !k.Mapped(e, p) then k
    else k.(words := k.words[Entry(e, p) := k.words[Entry(e, p)].(modified := on)])
  }

  // ----- page file -----

  /** pf_add_empty_env_page: without disk space the page stays without an entry. */
  function PfAdd(k: Kernel, e: EnvId, p: Page): Result<Kernel> {
    var k1 :- Ensure(k, DiskDirectory(e));
    var k2 :- Ensure(k1, DiskTable(e, Pdx(p)));
    Ok(TakeDiskFrame(k2, e, p))
  }

  /** pf_update_env_page: writes the page's frame to its page-file entry, if it has one. */
  function PfUpdate(k: Kernel, e: EnvId, p: Page, f: Frame): Result<Kernel> {
    var k1 :- Ensure(k, DiskDirectory(e));
    Ok(if (e, p) in k1.pf then k1.(disk := k1.disk[k1.pf[(e, p)] := k1.Ram(f)]) else k1)
  }

  /** pf_read_env_page on a page that has an entry and is mapped. */
  function PfRead(k: Kernel, e: EnvId, p: Page): Kernel {
    if k.Mapped(e, p) && (e, p) in k.pf then
      SetModified(k.(ram := k.ram[k.words[Entry(e, p)].frame := k.Disk(k.pf[(e, p)])]), e, p, false)
    else k
  }

  function PfRemove(k: Kernel, e: EnvId, p: Page): Kernel {
    if (e, p) in k.pf then k.(pf := k.pf - {(e, p)}, diskFree := [k.pf[(e, p)]] + k.diskFree) else k
  }

  // ----- ownership invariants -----

  ghost predicate Unshared(words: map<Slot, Word>) {
    forall s, t :: s in words && t in words && s != t ==> words[s].frame != words[t].frame
  }

  ghost predicate Counted(words: map<Slot, Word>, refs: map<Frame, nat>, free: seq<Frame>) {
    && Distinct(free)
    && (forall s :: s in words ==> words[s].frame !in free && words[s].frame in refs && refs[words[s].frame] == 1)
    && (forall f :: f in free && f in refs ==> refs[f] == 0)
  }

  /** No frame is named twice or both named and free, and the counts agree. */
  ghost predicate FramesOwned(k: Kernel) {
    Unshared(k.words) && Counted(k.words, k.refs, k.free)
  }

  ghost predicate DiskUnshared(pf: map<(EnvId, Page), DiskFrame>, free: seq<DiskFrame>) {
    && Distinct(free)
    && 0 !in free
    && (forall x, y :: x in pf && y in pf && x != y ==> pf[x] != pf[y])
    && (forall x :: x in pf ==> pf[x] !in free && pf[x] != 0)
  }

  /** No disk frame is owned twice, and disk frame 0 is never handed out. */
  ghost predicate DiskOwned(k: Kernel) {
    DiskUnshared(k.pf, k.diskFree)
  }

  /** A frame that has been allocated and not yet stored anywhere. */
  ghost predicate Detached(k: Kernel, f: Frame) {
    && f !in k.free
    && k.Refs(f) == 0
    && forall s :: s in k.words ==> k.words[s].frame != f
  }

  ghost function FramesOf(words: map<Slot, Word>): set<Frame> {
    set s | s in words :: words[s].frame
  }

  ghost function DiskFramesOf(pf: map<(EnvId, Page), DiskFrame>): set<DiskFrame> {
    set x | x in pf :: pf[x]
  }

  /** The frames the free list and the named words account for. */
  ghost function Accounted(k: Kernel): set<Frame> {
    ToSet(k.free) + FramesOf(k.words)
  }

  ghost function DiskAccounted(k: Kernel): set<DiskFrame> {
    ToSet(k.diskFree) + DiskFramesOf(k.pf)
  }

  lemma AllocateFrameOwned(k: Kernel)
    requires FramesOwned(k) && k.free != []
    ensures FramesOwned(AllocateFrame(k).value.0)
    ensures Detached(AllocateFrame(k).value.0, AllocateFrame(k).value.1)
    ensures Accounted(k) == Accounted(AllocateFrame(k).value.0) + {AllocateFrame(k).value.1}
  {
    var k1, f := AllocateFrame(k).value.0, AllocateFrame(k).value.1;
    assert k.free == [f] + k1.free;
    assert forall g :: g in k1.free ==> g in k.free && g != f;
  }

  lemma SetWordOwned(k: Kernel, s: Slot, f: Frame)
    requires FramesOwned(k) && Detached(k, f) && s !in k.words
    ensures FramesOwned(SetWord(k, s, f))
    ensures Accounted(SetWord(k, s, f)) == Accounted(k) + {f}
  {
    var k1 := SetWord(k, s, f);
    assert k1.words[s].frame == f;
    assert forall t :: t in k.words ==> t in k1.words && k1.words[t] == k.words[t];
  }

  lemma EnsureOwned(k: Kernel, s: Slot)
    requires FramesOwned(k) && Ensure(k, s).Ok?
    ensures FramesOwned(Ensure(k, s).value)
    ensures Accounted(Ensure(k, s).value) == Accounted(k)
  {
    if s !in k.words {
      AllocateFrameOwned(k);
      var (k1, f) := AllocateFrame(k).value;
      SetWordOwned(k1, s, f);
    }
  }

  /** Ensure adds at most its slot, and touches nothing outside the frame tables. */
  lemma EnsureEffect(k: Kernel, s: Slot)
    requires Ensure(k, s).Ok?
    ensures var k' := Ensure(k, s).value;
      && (forall t :: t in k'.words <==> t in k.words || t == s)
      && (forall t :: t in k.words ==> k'.words[t] == k.words[t])
      && k'.ram == k.ram && k'.pf == k.pf && k'.diskFree == k.diskFree && k'.disk == k.disk
  {
  }

  /** The disk half of pf_add_empty_env_page. */
  function TakeDiskFrame(k: Kernel, e: EnvId, p: Page): Kernel {
    if (e, p) in k.pf || k.diskFree == [] then k
    else k.(pf := k.pf[(e, p) := k.diskFree[0]], diskFree := k.diskFree[1..])
  }

  lemma TakeDiskFrameOwned(k: Kernel, e: EnvId, p: Page)
    requires DiskOwned(k) && ((e, p) in k.pf || k.diskFree != [])
    ensures DiskOwned(TakeDiskFrame(k, e, p))
    ensures DiskAccounted(TakeDiskFrame(k, e, p)) == DiskAccounted(k)
  {
    if (e, p) !in k.pf {
      var k', d := TakeDiskFrame(k, e, p), k.diskFree[0];
      assert k.diskFree == [d] + k'.diskFree;
      assert forall g :: g in k'.diskFree ==> g in k.diskFree && g != d;
      forall g ensures g in DiskFramesOf(k'.pf) <==> g in DiskFramesOf(k.pf) || g == d {
        if y :| y in k.pf && k.pf[y] == g { assert k'.pf[y] == g; }
        assert k'.pf[(e, p)] == d;
      }
    }
  }

  lemma PfRemoveOwned(k: Kernel, e: EnvId, p: Page)
    requires DiskOwned(k)
    ensures DiskOwned(PfRemove(k, e, p))
    ensures DiskAccounted(PfRemove(k, e, p)) == DiskAccounted(k)
    ensures (e, p) !in PfRemove(k, e, p).pf
    ensures PfRemove(PfRemove(k, e, p), e, p) == PfRemove(k, e, p)
  {
    if (e, p) in k.pf {
      var k', d := PfRemove(k, e, p), k.pf[(e, p)];
      forall g ensures g in DiskAccounted(k') <==> g in DiskAccounted(k) {
        assert k'.diskFree[0] == d && k'.diskFree[1..] == k.diskFree;
        if y :| y in k.pf && k.pf[y] == g && g != d { assert y in k'.pf; }
      }
    }
  }

  lemma UnmapFrameOwned(k: Kernel, s: Slot)
    requires FramesOwned(k)
    ensures FramesOwned(UnmapFrame(k, s))
    ensures UnmapFrame(k, s).words == k.words - {s}
    ensures Accounted(UnmapFrame(k, s)) == Accounted(k)
  {
    if s in k.words {
      var f := k.words[s].frame;
      var k1 := UnmapFrame(k, s);
      assert k1.free == [f] + k.free;
      forall g ensures g in Accounted(k1) <==> g in Accounted(k) {
        if g in k.free { assert g in k1.free; }
        if g == f { assert f == k1.free[0]; }
        if t :| t in k.words && k.words[t].frame == g && g != f { assert t in k1.words; }
      }
    }
  }

  /** Freeing a frame outright and clearing its word is what unmapping an unshared word does. */
  lemma FreeIsUnmap(k: Kernel, s: Slot)
    requires FramesOwned(k) && s in k.words
    ensures ClearWord(FreeFrame(k, k.words[s].frame), s) == UnmapFrame(k, s)
  {
  }

  // ----- what one call undoes -----

  /** Removing a page just filed gives the page file and its free list back as they were. */
  lemma PfAddUndone(k: Kernel, e: EnvId, p: Page)
    requires PfAdd(k, e, p).Ok? && (e, p) !in k.pf && k.diskFree != []
    ensures var k' := PfRemove(PfAdd(k, e, p).value, e, p); k'.pf == k.pf && k'.diskFree == k.diskFree
  {
    EnsureEffect(k, DiskDirectory(e));
    var k1 := Ensure(k, DiskDirectory(e)).value;
    EnsureEffect(k1, DiskTable(e, Pdx(p)));
    hide Ensure;
    assert k.pf[(e, p) := k.diskFree[0]] - {(e, p)} == k.pf;
  }

  /** Unmapping a page just mapped gives the words and the free list back as they were. */
  lemma MapUndone(k: Kernel, e: EnvId, p: Page)
    requires k.free != [] && !k.Mapped(e, p) && Table(e, Pdx(p)) in k.words
    ensures var (k1, f) := AllocateFrame(k).value;
      && MapFrame(k1, e, p, f).Ok?
      && var k' := UnmapFrame(MapFrame(k1, e, p, f).value, Entry(e, p));
      k'.words == k.words && k'.free == k.free
  {
    var (k1, f) := AllocateFrame(k).value;
    var k2 := SetWord(k1, Entry(e, p), f);
    assert MapFrame(k1, e, p, f) == Ok(k2) && k2.Refs(f) == 1;
    assert k2.words - {Entry(e, p)} == k.words;
  }
}
