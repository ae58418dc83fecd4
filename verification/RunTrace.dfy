/**
 * The lists and page-ins of kernel runs are those of a list trace: an environment's loads and stores
 * of non-heap pages, in order. What is proved of list traces is so proved of the kernel.
 */
module RunTrace {
  import opened TwoLists
  import opened KernelState
  import opened Paging
  import opened EnvCreate
  import opened UserMemory
  import opened Machine
  import S = SecondListSize
  import C = Conservation
  import P = Progress

  predicate Accesses(op: Op, e: EnvId) { op.e == e && (op.Load? || op.Store?) }

  /** The non-heap pages e's loads and stores touch, in order; heap pages are pinned and never fault. */
  function Pages(ops: seq<Op>, e: EnvId): seq<Page>
    decreases |ops|
  {
    if ops == [] then []
    else (if Accesses(ops[0], e) && !IsHeap(ops[0].p) then [ops[0].p] else []) + Pages(ops[1..], e)
  }

  /** How often e's loads and stores bring a page in: they meet one that is not mapped. */
  function Reads(s: Sys, ops: seq<Op>, e: EnvId): nat
    decreases |ops|
  {
    if ops == [] || Step(s, ops[0]).Panic? then 0
    else (if Accesses(ops[0], e) && !s.k.Mapped(e, ops[0].p) then 1 else 0) + Reads(Step(s, ops[0]).value.0, ops[1..], e)
  }

  /** e itself only loads, stores and allocates; the other environments do anything. */
  predicate KeepsItsPages(op: Op, e: EnvId) { op.e == e ==> op.Load? || op.Store? || op.Alloc? }

  /** What an access finds, told by the lists. */
  lemma ListsTell(l: Lists, k: Kernel, e: EnvId, p: Page)
    requires EnvOk(l, k, e)
    ensures !IsHeap(p) ==> (k.Present(e, p) <==> p in l.active) && (k.Mapped(e, p) <==> p in l.Resident())
    ensures IsHeap(p) ==> (k.Mapped(e, p) <==> k.Present(e, p)) && ((e, p) in k.pf ==> k.Mapped(e, p))
  {
    hide Structured, Lists.Valid;
  }

  /** A heap page that is not mapped cannot be accessed. */
  lemma HeapIsPinned(l: Lists, k: Kernel, e: EnvId, p: Page)
    requires EnvOk(l, k, e) && IsHeap(p) && Touch(l, k, e, p).Ok?
    ensures k.Present(e, p)
  {
    hide EnvOk, Ensure, PageFault;
    ListsTell(l, k, e, p);
    HeapNotListed(l, k, e, p);
    EnsureKeepsFiles(k, e, p);
    var k1 := Ensure(k, Table(e, Pdx(p)));
    if k1.Ok? && (e, p) !in k.pf { FaultPanics(l, k1.value, e, p); }
  }

  lemma EnsureKeepsFiles(k: Kernel, e: EnvId, p: Page)
    ensures var k1 := Ensure(k, Table(e, Pdx(p)));
      k1.Ok? ==> k1.value.pf == k.pf && forall s :: s in k.words ==> s in k1.value.words
  {
  }

  lemma HeapNotListed(l: Lists, k: Kernel, e: EnvId, p: Page)
    requires EnvOk(l, k, e) && IsHeap(p)
    ensures p !in l.second && DiskDirectory(e) in k.words
  {
  }

  lemma FaultPanics(l: Lists, k: Kernel, e: EnvId, p: Page)
    requires IsHeap(p) && (e, p) !in k.pf && p !in l.second && DiskDirectory(e) in k.words
    ensures PageFault(l, k, e, p).Panic?
  {
    hide MakeRoom, PageIn, Faulted;
    P.MakeRoomOk(l, k, e);
    var k1 := MakeRoom(l, k, e).value;
    if PageIn(k1, e, p).Ok? { C.PageInLegal(k1, e, p); }
  }

  /** One operation moves e's lists as one access of the trace, and reads a page in when the trace does. */
  lemma StepIsAccess(s: Sys, h: Stores, op: Op, e: EnvId)
    requires Good(s, h) && Allowed(s, op) && Step(s, op).Ok? && KeepsItsPages(op, e) && e in s.envs
    ensures e in Step(s, op).value.0.envs
    ensures var (l, l') := (s.envs[e], Step(s, op).value.0.envs[e]);
      if Accesses(op, e) && !IsHeap(op.p)
      then l' == Accessed(l, op.p) && (if s.k.Mapped(e, op.p) then 0 else 1) == PageInOf(l, op.p)
      else l' == l && (Accesses(op, e) ==> s.k.Mapped(e, op.p))
  {
    hide EnvOk, Owned, Kept, Touch, Faulted, EnvsOk, EnvCreate.EnvCreate, StoreByte;
    if Accesses(op, e) {
      EnvsOkAt(s, e);
      TouchKeeps(h, s.envs[e], s.k, e, op.p);
      ListsTell(s.envs[e], s.k, e, op.p);
      if IsHeap(op.p) { HeapIsPinned(s.envs[e], s.k, e, op.p); }
    }
  }

  /**
   * After any run in which e releases nothing, e's lists are those of its trace, and it has read in as
   * many pages as the trace counts.
   */
  lemma {:induction false} RunIsTrace(s: Sys, h: Stores, ops: seq<Op>, e: EnvId)
    requires Good(s, h) && RunsFrom(s, ops) && e in s.envs
    requires forall i :: 0 <= i < |ops| ==> KeepsItsPages(ops[i], e)
    ensures e in After(s, ops).envs && After(s, ops).envs[e] == AfterTrace(s.envs[e], Pages(ops, e))
    ensures Reads(s, ops, e) == PageIns(s.envs[e], Pages(ops, e))
    decreases |ops|
  {
    hide Good, Allowed, Step, Accessed, PageInOf, KeepsItsPages;
    if ops != [] {
      var s1 := Step(s, ops[0]).value.0;
      StepKeeps(s, h, ops[0]);
      StepIsAccess(s, h, ops[0], e);
      RunIsTrace(s1, Remember(h, ops[0]), ops[1..], e);
      if Accesses(ops[0], e) && !IsHeap(ops[0].p) {
        TraceStep(s.envs[e], ops[0].p, Pages(ops[1..], e));
      } else {
        assert Pages(ops, e) == Pages(ops[1..], e);
      }
    }
  }

  lemma TraceStep(l: Lists, p: Page, rest: seq<Page>)
    ensures AfterTrace(l, [p] + rest) == AfterTrace(Accessed(l, p), rest)
    ensures PageIns(l, [p] + rest) == PageInOf(l, p) + PageIns(Accessed(l, p), rest)
  {
    assert ([p] + rest)[1..] == rest;
  }

  /**
   * No Belady anomaly in SecondList: a program is created with the same ActiveList size, in any two
   * kernels, and touches the same non-heap pages in the same order, whatever else it and the other
   * environments do short of its releasing pages or ending. Under the larger SecondList its ActiveList
   * is the same, its SecondList holds the smaller one in order, and no more pages are read in; the
   * larger SecondList extends the smaller one if the program fits the smaller working set.
   */
  lemma LargerSecondListNeverCosts(s: Sys, g: Stores, ops: seq<Op>, t: Sys, h: Stores, more: seq<Op>,
                                   d: EnvId, e: EnvId, a: nat, m: nat, n: nat, prog: Program)
    requires Good(s, g) && Good(t, h) && m <= n
    requires RunsFrom(s, [Create(d, a, m, prog)]) && RunsFrom(After(s, [Create(d, a, m, prog)]), ops)
    requires RunsFrom(t, [Create(e, a, n, prog)]) && RunsFrom(After(t, [Create(e, a, n, prog)]), more)
    requires forall i :: 0 <= i < |ops| ==> KeepsItsPages(ops[i], d)
    requires forall i :: 0 <= i < |more| ==> KeepsItsPages(more[i], e)
    requires Pages(ops, d) == Pages(more, e)
    ensures var (s1, t1) := (After(s, [Create(d, a, m, prog)]), After(t, [Create(e, a, n, prog)]));
      var (s2, t2) := (After(s1, ops), After(t1, more));
      && d in s2.envs && e in t2.envs
      && s2.envs[d].active == t2.envs[e].active && Contained(s2.envs[d], t2.envs[e])
      && Reads(t1, more, e) <= Reads(s1, ops, d)
      && (S.Fits(a, m, n, prog) ==> Extends(s2.envs[d], t2.envs[e]))
  {
    hide Good, RunsFrom, After, S.Fits, Contained, Extends, KeepsItsPages, Pages, Reads, AfterTrace, PageIns, S.CreatedLists;
    var (s1, t1) := (After(s, [Create(d, a, m, prog)]), After(t, [Create(e, a, n, prog)]));
    var g1 := JustCreated(s, g, d, a, m, prog);
    var h1 := JustCreated(t, h, e, a, n, prog);
    RunIsTrace(s1, g1, ops, d);
    RunIsTrace(t1, h1, more, e);
    S.LargerListsNeverCost(a, m, n, prog, Pages(ops, d));
    SameActive(s1.envs[d], t1.envs[e], Pages(ops, d));
  }

  lemma SameActive(small: Lists, big: Lists, trace: seq<Page>)
    requires Contained(AfterTrace(small, trace), AfterTrace(big, trace))
    ensures AfterTrace(small, trace).active == AfterTrace(big, trace).active
  {
    hide AfterTrace, Within;
  }

  /** A new environment is well formed and has the lists its program and sizes give. */
  lemma JustCreated(s: Sys, h: Stores, e: EnvId, a: nat, m: nat, prog: Program) returns (g: Stores)
    requires Good(s, h) && RunsFrom(s, [Create(e, a, m, prog)])
    ensures var s1 := After(s, [Create(e, a, m, prog)]);
      && Good(s1, g) && e in s1.envs && s1.envs[e] == S.CreatedLists(a, m, prog) && s1.envs[e].Valid() && a >= 1
  {
    hide Good, RunsFrom, After, EnvCreate.EnvCreate, S.CreatedLists, GoodProgram, FileDemand;
    var create := Create(e, a, m, prog);
    C.OneStep(s, create);
    StepKeeps(s, h, create);
    S.CreatedIs(s.k, e, a, m, prog);
    g := Remember(h, create);
    ValidLists(After(s, [create]), g, e);
  }

  lemma ValidLists(s: Sys, h: Stores, e: EnvId)
    requires Good(s, h) && e in s.envs
    ensures s.envs[e].Valid()
  {
    hide Owned, Kept, Structured, Resides;
    EnvsOkAt(s, e);
  }
}
