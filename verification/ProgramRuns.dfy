/** A running program finds the bytes of its file, through creation, demotion, eviction and page-in. */
module ProgramRuns {
  import opened TwoLists
  import opened KernelState
  import opened Paging
  import opened UserMemory
  import opened EnvCreate
  import opened ProgramBytes
  import opened Machine
  import S = SegmentImage

  /** The operation neither writes the byte nor takes its page or environment away. */
  predicate Spares(op: Op, e: EnvId, p: Page, o: nat) {
    match op
    case Load(_, _, _) => true
    case Store(d, q, i, _) => (d, q, i) != (e, p, o)
    case Alloc(d, q, n) => d != e || !(q <= p < q + n)
    case Release(d, q, n) => d != e || !(q <= p < q + n)
    case Create(d, _, _, _) => d != e
    case Exit(d) => d != e
  }

  lemma {:induction false} StaysRemembered(h: Stores, ops: seq<Op>, e: EnvId, p: Page, o: nat)
    requires (e, p, o) in h && forall j :: 0 <= j < |ops| ==> Spares(ops[j], e, p, o)
    ensures (e, p, o) in Remembered(h, ops) && Remembered(h, ops)[(e, p, o)] == h[(e, p, o)]
    decreases |ops|
  {
    hide InitialBytes;
    if ops != [] {
      StillRemembered(h, ops[0], e, p, o);
      StaysRemembered(Remember(h, ops[0]), ops[1..], e, p, o);
    }
  }

  lemma StillRemembered(h: Stores, op: Op, e: EnvId, p: Page, o: nat)
    requires (e, p, o) in h && Spares(op, e, p, o)
    ensures (e, p, o) in Remember(h, op) && Remember(h, op)[(e, p, o)] == h[(e, p, o)]
  {
    hide InitialBytes;
    if op.Create? { assert (e, p, o) !in InitialBytes(op.e, op.prog); }
  }

  /** An initial byte that nothing wrote is what a load reads. */
  lemma InitialByteIsRead(s: Sys, h: Stores, e: EnvId, a: nat, m: nat, prog: Program, ops: seq<Op>, p: Page, o: nat)
    requires Good(s, h) && RunsFrom(s, [Create(e, a, m, prog)] + ops + [Load(e, p, o)])
    requires (e, p, o) in InitialBytes(e, prog) && forall j :: 0 <= j < |ops| ==> Spares(ops[j], e, p, o)
    ensures Step(After(s, [Create(e, a, m, prog)] + ops), Load(e, p, o)).Ok?
    ensures Step(After(s, [Create(e, a, m, prog)] + ops), Load(e, p, o)).value.1 == InitialBytes(e, prog)[(e, p, o)]
  {
    hide Good, RunsFrom, After, Step, Remembered, InitialBytes, Spares;
    var create := Create(e, a, m, prog);
    PagingIsInvisible(s, h, [create] + ops, e, p, o);
    RememberedFirst(h, create, ops);
    StaysRemembered(h + InitialBytes(e, prog), ops, e, p, o);
  }

  lemma RememberedFirst(h: Stores, op: Op, ops: seq<Op>)
    ensures Remembered(h, [op] + ops) == Remembered(Remember(h, op), ops)
  {
    hide Remember;
    assert ([op] + ops)[1..] == ops;
  }

  /**
   * A byte of the program's file that the program has not written is read back as the file has it,
   * whatever else it and the other environments do, however small its working set.
   */
  lemma ProgramFindsItsFile(s: Sys, h: Stores, e: EnvId, a: nat, m: nat, prog: Program, ops: seq<Op>,
                            c: S.Content, zero: PageData, i: nat, b: nat)
    requires Good(s, h) && c.Valid() && c.segments == prog.segments && S.Clear(c.segments)
    requires S.Loaded(prog.filed, c, zero, |c.segments|) && S.Copied(prog.image, c) && i < |c.segments| && b < c.segments[i].fileSize
    requires RunsFrom(s, [Create(e, a, m, prog)] + ops + [LoadAt(e, c, i, b)])
    requires forall j :: 0 <= j < |ops| ==> Spares(ops[j], e, S.PageAt(c, i, b), S.OffsetAt(c, i, b))
    ensures Step(After(s, [Create(e, a, m, prog)] + ops), LoadAt(e, c, i, b)).Ok?
    ensures Step(After(s, [Create(e, a, m, prog)] + ops), LoadAt(e, c, i, b)).value.1 == c.sources[i](b)
  {
    hide Good, RunsFrom, After, Step, S.Clear, S.Loaded, S.Copied, GoodProgram, InitialBytes, Spares, S.PageAt, S.OffsetAt;
    var create := Create(e, a, m, prog);
    assert [create] + ops + [LoadAt(e, c, i, b)] == [create] + (ops + [LoadAt(e, c, i, b)]);
    StartsRight(s, e, a, m, prog, ops + [LoadAt(e, c, i, b)]);
    FileByteInitial(e, prog, c, zero, i, b);
    InitialByteIsRead(s, h, e, a, m, prog, ops, S.PageAt(c, i, b), S.OffsetAt(c, i, b));
  }

  /** The load of byte b of segment i. */
  function LoadAt(e: EnvId, c: S.Content, i: nat, b: nat): Op
    requires i < |c.segments|
  {
    Load(e, S.PageAt(c, i, b), S.OffsetAt(c, i, b))
  }

  lemma StartsRight(s: Sys, e: EnvId, a: nat, m: nat, prog: Program, ops: seq<Op>)
    requires RunsFrom(s, [Create(e, a, m, prog)] + ops)
    ensures GoodProgram(prog.segments)
  {
    assert Allowed(s, ([Create(e, a, m, prog)] + ops)[0]);
  }

  lemma FileByteInitial(e: EnvId, prog: Program, c: S.Content, zero: PageData, i: nat, b: nat)
    requires c.Valid() && c.segments == prog.segments && S.Clear(c.segments) && GoodProgram(prog.segments)
    requires S.Loaded(prog.filed, c, zero, |c.segments|) && S.Copied(prog.image, c) && i < |c.segments| && b < c.segments[i].fileSize
    ensures var x := (e, S.PageAt(c, i, b), S.OffsetAt(c, i, b));
      x in InitialBytes(e, prog) && InitialBytes(e, prog)[x] == c.sources[i](b)
  {
    hide S.Clear, S.Loaded, GoodProgram, InitialBytes, ImageOf;
    var (p, o) := (S.PageAt(c, i, b), S.OffsetAt(c, i, b));
    S.LoadedRight(prog.filed, c, zero, i, b);
    assert ImageOf(prog.image, p)[o] == c.sources[i](b);
    assert FileByte(prog.segments, p, o);
    FileByteIsFiled(prog.segments, p, o);
    Imaging(prog.filed, p);
    InFile(e, prog, p, o);
    InitialByte(e, prog, e, p, o);
  }

  lemma Imaging(image: map<Page, PageData>, p: Page)
    requires p in image
    ensures ImageOf(image, p) == image[p]
  {
  }

  lemma InFile(e: EnvId, prog: Program, p: Page, o: nat)
    requires p in AllFilePages(prog.segments) && o < PAGE_SIZE && FileByte(prog.segments, p, o)
    requires ImageOf(prog.image, p)[o] == ImageOf(prog.filed, p)[o]
    ensures (e, p, o) in InitialBytes(e, prog)
  {
    hide FileByte, ImageOf, AllFilePages;
  }
}
