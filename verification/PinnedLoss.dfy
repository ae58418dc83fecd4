/** A run in which allocateMem loses a frame for good, though the page is released before the exit. */
module PinnedLoss {
  import opened Sequences
  import opened KernelState
  import opened Paging
  import opened UserMemory
  import opened EnvCreate
  import opened Machine
  import opened Conservation
  import N = CreateNeeds
  import A = AllocNeeds

  /** Twenty frames and three disk frames. */
  function Boot(): Sys {
    Sys(map[], Kernel(map[], map[], seq(20, i => i), map[], map[], [1, 2, 3], map[]))
  }

  /** A program of no segments, with one place in ActiveList. */
  function Start(): Op { Create(0, 1, 0, Program([], map[], map[], false)) }

  function Ask(): seq<Op> { [Alloc(0, HEAP_START, 1), Release(0, HEAP_START, 1)] }

  /** From boot: create, allocate one heap page, release it, exit. The free list is shorter than before. */
  lemma PinnedFrameIsLost()
    ensures Good(Boot(), map[])
    ensures RunsFrom(Boot(), [Start()]) && RunsFrom(After(Boot(), [Start()]), Ask())
    ensures var s := After(After(Boot(), [Start()]), Ask());
      && Step(s, Exit(0)).Ok?
      && |Step(s, Exit(0)).value.0.k.free| != 20
      && ToSet(Step(s, Exit(0)).value.0.k.free) < ToSet(Boot().k.free)
  {
    hide Step, RunsFrom, After, Good;
    BootRuns();
    assert Pins(Ask()[0]);
    CreateRunExitIff(Boot(), map[], Start(), Ask());
  }

  lemma BootRuns()
    ensures Good(Boot(), map[])
    ensures RunsFrom(Boot(), [Start()]) && RunsFrom(After(Boot(), [Start()]), Ask())
  {
    hide EnvCreate.EnvCreate, AllocatePage, FreeMem, Good, Remember, N.CreateSlots, N.SegmentFiles;
    BootGood(seq(20, i => i), [1, 2, 3]);
    N.StackOnly(0, 1, Start().prog);
    N.CreateOkIff(Boot().k, 0, 1, 0, Start().prog);
    assert [Start()][1..] == [];
    var s1 := Step(Boot(), Start()).value.0;
    assert RunsFrom(s1, []) && After(s1, []) == s1;
    StepKeeps(Boot(), map[], Start());
    OneAllocates(s1, Remember(map[], Start()));
    AskRuns(s1, AllocateMem(s1.k, 0, HEAP_START, 1).value);
  }

  lemma OneAllocates(s: Sys, h: Stores)
    requires Good(s, h) && 0 in s.envs && |s.k.free| >= 5 && s.k.diskFree != []
    ensures AllocateMem(s.k, 0, HEAP_START, 1).Ok?
  {
    hide Owned, Kept, Belongs, EnvOk;
    EnvsOkAt(s, 0);
    A.OnePage(s.k, 0, HEAP_START);
    A.AllocateMemOkIff(s.envs[0], s.k, 0, HEAP_START, 1);
  }

  lemma AskRuns(s: Sys, k: Kernel)
    requires 0 in s.envs && AllocateMem(s.k, 0, HEAP_START, 1) == Ok(k)
    ensures RunsFrom(s, Ask())
  {
    hide AllocateMem, FreeMem;
    var s1 := s.(k := k);
    assert Ask()[1..] == [Release(0, HEAP_START, 1)] && [Release(0, HEAP_START, 1)][1..] == [];
    assert Step(s, Ask()[0]) == Ok((s1, 0));
    assert RunsFrom(Step(s1, Release(0, HEAP_START, 1)).value.0, []);
    assert RunsFrom(s1, [Release(0, HEAP_START, 1)]);
  }
}
