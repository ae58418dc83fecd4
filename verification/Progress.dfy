/**
 * When an access does not panic: its page must be legal and the frames it needs there. What it needs,
 * for any number of free frames, and which panic it ends in otherwise.
 */
module Progress {
  import opened Sequences
  import opened TwoLists
  import opened KernelState
  import opened Paging

  lemma UnmapRicher(k: Kernel, s: Slot)
    ensures var k' := UnmapFrame(k, s);
      |k'.free| >= |k.free| && k'.words.Keys == k.words.Keys - {s} && k'.pf == k.pf && k'.diskFree == k.diskFree
  {
  }

  lemma EvictOk(k: Kernel, e: EnvId, v: Page)
    requires DiskDirectory(e) in k.words
    ensures Evict(k, e, v).Ok?
    ensures var k' := Evict(k, e, v).value;
      |k'.free| >= |k.free| && k'.words.Keys == k.words.Keys - {Entry(e, v)} && k'.pf == k.pf && k'.diskFree == k.diskFree
  {
    hide UnmapFrame;
    if k.Mapped(e, v) {
      var w := k.words[Entry(e, v)];
      var k1 := if w.modified then PfUpdate(k, e, v, w.frame).value else k;
      UnmapRicher(k1, Entry(e, v));
    }
  }

  lemma MakeRoomOk(l: Lists, k: Kernel, e: EnvId)
    requires DiskDirectory(e) in k.words
    ensures MakeRoom(l, k, e).Ok?
    ensures var k' := MakeRoom(l, k, e).value;
      && |k'.free| >= |k.free| && k'.pf == k.pf && k'.diskFree == k.diskFree
      && k'.words.Keys <= k.words.Keys
      && forall s :: s in k.words && !s.Entry? ==> s in k'.words
  {
    hide Evict;
    if l.Full() && l.Resident() != [] { EvictOk(k, e, Last(l.Resident())); }
  }

  /**
   * When the handler calls map_frame, the page's entry is zero: a page that is mapped without being
   * present is in SecondList, and such a fault maps nothing.
   */
  lemma HandlerMapsEmptyEntry(l: Lists, k: Kernel, e: EnvId, p: Page)
    requires EnvOk(l, k, e) && !k.Present(e, p) && p !in l.second
    ensures !k.Mapped(e, p) && MakeRoom(l, k, e).Ok? && !MakeRoom(l, k, e).value.Mapped(e, p)
  {
    hide MakeRoom;
    MakeRoomOk(l, k, e);
  }

  // ----- how many frames an access needs -----

  /** Evicting a page gives back its frame and takes none. */
  lemma EvictFrees(k: Kernel, e: EnvId, v: Page)
    requires FramesOwned(k) && k.Mapped(e, v) && DiskDirectory(e) in k.words
    ensures Evict(k, e, v).Ok? && |Evict(k, e, v).value.free| == |k.free| + 1
  {
    EvictOk(k, e, v);
    var w := k.words[Entry(e, v)];
    assert k.Refs(w.frame) == 1;
  }

  lemma MakeRoomFrees(l: Lists, k: Kernel, e: EnvId)
    requires Owned(k) && EnvOk(l, k, e)
    ensures MakeRoom(l, k, e).Ok? && |MakeRoom(l, k, e).value.free| == |k.free| + if l.Full() then 1 else 0
  {
    hide Evict, Owned;
    if l.Full() {
      VictimListed(l, k, e);
      assert FramesOwned(k) by { OwnedFrames(k); }
      EvictFrees(k, e, Last(l.Resident()));
    }
  }

  lemma OwnedFrames(k: Kernel)
    requires Owned(k)
    ensures FramesOwned(k)
  {
  }

  /** A frame for a missing page table, taken before anything is evicted. */
  function TableNeed(k: Kernel, e: EnvId, p: Page): nat { if Table(e, Pdx(p)) in k.words then 0 else 1 }

  /** A frame for the disk table of a page that has no entry in the page file yet. */
  function FileNeed(k: Kernel, e: EnvId, p: Page): nat {
    if (e, p) in k.pf || DiskTable(e, Pdx(p)) in k.words then 0 else 1
  }

  /** Bringing a page in needs its entry in the page file, or a stack address, and the frames. */
  lemma PageInResult(k: Kernel, e: EnvId, p: Page)
    requires !k.Mapped(e, p) && Table(e, Pdx(p)) in k.words && DiskDirectory(e) in k.words
    ensures var r := PageIn(k, e, p);
      if k.free == [] then r == Panic(NoFreeFrame)
      else if (e, p) !in k.pf && !IsStack(p) then r == Panic(IllegalAccess)
      else if |k.free| < 1 + FileNeed(k, e, p) then r == Panic(NoFreeFrame)
      else r.Ok? && |r.value.free| == |k.free| - 1 - FileNeed(k, e, p)
  {
    if k.free != [] {
      var (k1, f) := AllocateFrame(k).value;
      var k2 := SetWord(k1, Entry(e, p), f);
      assert MapFrame(k1, e, p, f) == Ok(k2);
      if (e, p) !in k.pf { PfAddResult(k2, e, p); }
    }
  }

  lemma PfAddResult(k: Kernel, e: EnvId, p: Page)
    requires DiskDirectory(e) in k.words
    ensures var (r, n) := (PfAdd(k, e, p), if DiskTable(e, Pdx(p)) in k.words then 0 else 1);
      if |k.free| < n then r == Panic(NoFreeFrame) else r.Ok? && |r.value.free| == |k.free| - n
  {
  }

  /**
   * What an access to a page of a well-formed environment needs, however few frames are free. A page
   * that is present or in SecondList needs none. Any other must be in the page file or in the stack;
   * a missing page table takes a frame first, and then the free frames, with the one a full working
   * set gives up, must cover that table, the page, and the disk table of a new stack page that has none.
   */
  lemma TouchOkIff(l: Lists, k: Kernel, e: EnvId, p: Page)
    requires Owned(k) && EnvOk(l, k, e)
    ensures Touch(l, k, e, p).Ok? <==>
      || k.Present(e, p)
      || (p < STACK_TOP && p in l.second)
      || (p < STACK_TOP && ((e, p) in k.pf || IsStack(p)) && TableNeed(k, e, p) <= |k.free|
          && TableNeed(k, e, p) + 1 + FileNeed(k, e, p) <= |k.free| + if l.Full() then 1 else 0)
    ensures Touch(l, k, e, p).Ok? ==>
      |Touch(l, k, e, p).value.1.free| == (if k.Present(e, p) || p in l.second then |k.free|
        else |k.free| + (if l.Full() then 1 else 0) - TableNeed(k, e, p) - 1 - FileNeed(k, e, p))
  {
    hide EnvOk, Owned, Touch, MakeRoom, PageIn, Ensure, Promote, Faulted;
    if k.Present(e, p) {
      TouchPresent(l, k, e, p);
    } else if p < STACK_TOP {
      if p in l.second { TouchSecond(l, k, e, p); } else { TouchAbsent(l, k, e, p); }
    } else {
      TouchPastStack(l, k, e, p);
    }
  }

  lemma TouchPresent(l: Lists, k: Kernel, e: EnvId, p: Page)
    requires k.Present(e, p)
    ensures Touch(l, k, e, p) == Ok((l, k))
  {
  }

  lemma TouchPastStack(l: Lists, k: Kernel, e: EnvId, p: Page)
    requires !k.Present(e, p) && p >= STACK_TOP
    ensures Touch(l, k, e, p) == Panic(StackUnderflow)
  {
  }

  lemma TouchSecond(l: Lists, k: Kernel, e: EnvId, p: Page)
    requires EnvOk(l, k, e) && p in l.second && p < STACK_TOP
    ensures !k.Present(e, p) && Touch(l, k, e, p) == Ok((Faulted(l, p), Promote(l, k, e, p)))
    ensures Promote(l, k, e, p).free == k.free
  {
    hide Faulted;
    assert k.Mapped(e, p);
    assert Ensure(k, Table(e, Pdx(p))) == Ok(k);
  }

  /** A page that is neither present nor in SecondList: the reason of the panic, or the frames left. */
  lemma TouchAbsent(l: Lists, k: Kernel, e: EnvId, p: Page)
    requires Owned(k) && EnvOk(l, k, e) && !k.Present(e, p) && p !in l.second && p < STACK_TOP
    ensures var (r, room) := (Touch(l, k, e, p), |k.free| + if l.Full() then 1 else 0);
      var (t, f) := (TableNeed(k, e, p), FileNeed(k, e, p));
      if |k.free| < t || room < t + 1 then r == Panic(NoFreeFrame)
      else if (e, p) !in k.pf && !IsStack(p) then r == Panic(IllegalAccess)
      else if room < t + 1 + f then r == Panic(NoFreeFrame)
      else r.Ok? && |r.value.1.free| == room - t - 1 - f && r.value.0 == Faulted(l, p)
  {
    hide MakeRoom, PageIn, Faulted, Ensure, Owned, EnvOk, Touch;
    var t := Table(e, Pdx(p));
    EnsureResult(k, t);
    TouchSteps(l, k, e, p);
    if Ensure(k, t).Ok? {
      var k1 := Ensure(k, t).value;
      EnsureAllOwned(k, t);
      EnsureEnvOk(l, k, e, p);
      MakeRoomFrees(l, k1, e);
      HandlerMapsEmptyEntry(l, k1, e, p);
      var k2 := MakeRoom(l, k1, e).value;
      RoomKeepsTables(l, k1, e, p);
      PageInResult(k2, e, p);
    }
  }

  lemma EnsureAllOwned(k: Kernel, s: Slot)
    requires Owned(k) && Ensure(k, s).Ok?
    ensures Owned(Ensure(k, s).value)
  {
    EnsureOwned(k, s);
    EnsureEffect(k, s);
  }

  lemma EnsureResult(k: Kernel, s: Slot)
    ensures var n := if s in k.words then 0 else 1;
      if |k.free| < n then Ensure(k, s) == Panic(NoFreeFrame)
      else Ensure(k, s).Ok? && |Ensure(k, s).value.free| == |k.free| - n
  {
  }

  /** A missing table, then room, then the page. */
  lemma TouchSteps(l: Lists, k: Kernel, e: EnvId, p: Page)
    requires !k.Present(e, p) && p !in l.second && p < STACK_TOP
    ensures var (r, s) := (Touch(l, k, e, p), Ensure(k, Table(e, Pdx(p))));
      && (s.Panic? ==> r == Panic(s.why))
      && (s.Ok? && MakeRoom(l, s.value, e).Ok? ==>
            var s2 := PageIn(MakeRoom(l, s.value, e).value, e, p);
            r == if s2.Ok? then Ok((Faulted(l, p), s2.value)) else Panic(s2.why))
  {
    hide MakeRoom, PageIn, Faulted, Ensure;
  }

  /** A table fault leaves a well-formed environment. */
  lemma EnsureEnvOk(l: Lists, k: Kernel, e: EnvId, p: Page)
    requires EnvOk(l, k, e) && Ensure(k, Table(e, Pdx(p))).Ok? && p < STACK_TOP
    ensures var (k1, t) := (Ensure(k, Table(e, Pdx(p))).value, Table(e, Pdx(p)));
      && EnvOk(l, k1, e) && t in k1.words && (k1.Present(e, p) <==> k.Present(e, p))
      && k1.pf == k.pf && k1.diskFree == k.diskFree && k1.disk == k.disk && k1.ram == k.ram
      && (forall s :: s in k1.words <==> s in k.words || s == t)
      && (forall s :: s in k.words ==> k1.words[s] == k.words[s])
  {
    hide EnvOk;
    var t := Table(e, Pdx(p));
    EnsureEffect(k, t);
    TableFaultKeeps(map[], l, k, Ensure(k, t).value, e, t);
  }

  lemma RoomKeepsTables(l: Lists, k: Kernel, e: EnvId, p: Page)
    requires EnvOk(l, k, e) && MakeRoom(l, k, e).Ok?
    ensures var k' := MakeRoom(l, k, e).value;
      && DiskDirectory(e) in k'.words && (Table(e, Pdx(p)) in k.words ==> Table(e, Pdx(p)) in k'.words)
      && FileNeed(k', e, p) == FileNeed(k, e, p) && k'.pf == k.pf
  {
    hide MakeRoom;
    MakeRoomOk(l, k, e);
  }
}
