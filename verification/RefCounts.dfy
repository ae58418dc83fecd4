/**
 * Reference counts under arbitrary map and unmap calls, frames shared between pages included:
 * when does `references` equal the number of non-zero entries naming the frame?
 */
module RefCounts {
  import opened Sequences
  import opened TwoLists
  import opened KernelState

  ghost function Names(words: map<Slot, Word>, f: Frame): set<Slot> {
    set s | s in words && words[s].frame == f
  }

  /** The count of every frame is the number of words naming it, and free frames have none. */
  ghost predicate Exact(k: Kernel) {
    && (forall f :: k.Refs(f) == |Names(k.words, f)|)
    && (forall f :: f in k.free ==> k.Refs(f) == 0)
    && Distinct(k.free)
  }

  lemma NamesCleared(words: map<Slot, Word>, s: Slot, f: Frame)
    requires s in words
    ensures Names(words - {s}, f) == Names(words, f) - (if words[s].frame == f then {s} else {})
  {
  }

  lemma NamesSet(words: map<Slot, Word>, s: Slot, w: Word, f: Frame)
    ensures Names(words[s := w], f) == Names(words, f) - {s} + (if w.frame == f then {s} else {})
  {
  }

  lemma NotNamed(words: map<Slot, Word>, s: Slot, f: Frame)
    requires s !in words
    ensures s !in Names(words, f)
  {
  }

  lemma UnmapKeepsExact(k: Kernel, s: Slot)
    requires Exact(k) && forall f :: k.Refs(f) < 0x1_0000
    ensures Exact(UnmapFrame(k, s))
    ensures forall f :: UnmapFrame(k, s).Refs(f) < 0x1_0000
  {
    if s in k.words {
      var g := k.words[s].frame;
      assert s in Names(k.words, g);
      assert k.Refs(g) > 0 && g !in k.free;
      UnmapCounts(k, s);
      hide UnmapFrame, Names;
      forall f ensures UnmapFrame(k, s).Refs(f) == |Names(UnmapFrame(k, s).words, f)| {
        OneNameLess(k, s, f);
      }
    }
  }

  /** Unmapping lowers one count by one, and frees the frame at zero. */
  lemma UnmapCounts(k: Kernel, s: Slot)
    requires s in k.words && 0 < k.Refs(k.words[s].frame) < 0x1_0000
    ensures var (k', g) := (UnmapFrame(k, s), k.words[s].frame);
      && k'.words == k.words - {s}
      && k'.free == (if k.Refs(g) == 1 then [g] + k.free else k.free)
      && forall f :: k'.Refs(f) == k.Refs(f) - (if f == g then 1 else 0)
  {
  }

  lemma OneNameLess(k: Kernel, s: Slot, f: Frame)
    requires s in k.words
    ensures |Names(k.words - {s}, f)| == |Names(k.words, f)| - (if k.words[s].frame == f then 1 else 0)
  {
    NamesCleared(k.words, s, f);
    assert k.words[s].frame == f ==> s in Names(k.words, f);
  }

  /** Storing an allocated frame in a slot that was zero. */
  lemma SetZeroKeepsExact(k: Kernel, s: Slot, f: Frame)
    requires Exact(k) && s !in k.words && f !in k.free && k.Refs(f) < 0xFFFF
    ensures Exact(SetWord(k, s, f))
  {
    var k' := SetWord(k, s, f);
    forall g ensures k'.Refs(g) == |Names(k'.words, g)| {
      CountAfterSet(k, s, f, g);
    }
    forall g | g in k'.free ensures k'.Refs(g) == 0 {
      assert g != f && k'.Refs(g) == k.Refs(g);
    }
  }

  lemma CountAfterSet(k: Kernel, s: Slot, f: Frame, g: Frame)
    requires s !in k.words && k.Refs(f) < 0xFFFF && k.Refs(g) == |Names(k.words, g)|
    ensures SetWord(k, s, f).Refs(g) == |Names(SetWord(k, s, f).words, g)|
  {
    hide Names;
    NamesSet(k.words, s, Word(f, true, false), g);
    var old_names, new_names := Names(k.words, g), Names(SetWord(k, s, f).words, g);
    NotNamed(k.words, s, g);
    if g == f {
      assert new_names == old_names + {s};
    } else {
      assert new_names == old_names;
    }
  }

  lemma SetWordSmall(k: Kernel, s: Slot, f: Frame)
    requires Small(k)
    ensures Small(SetWord(k, s, f))
  {
    forall g ensures SetWord(k, s, f).Refs(g) < 0x1_0000 {
      assert k.Refs(g) < 0x1_0000;
    }
  }

  /** Storing over a word that was not unmapped first breaks the count of some frame. */
  lemma OverwriteBreaksExact(k: Kernel, s: Slot, f: Frame)
    requires Exact(k) && s in k.words && k.Refs(f) < 0xFFFF
    ensures !Exact(SetWord(k, s, f))
  {
    var k' := SetWord(k, s, f);
    NamesSet(k.words, s, Word(f, true, false), f);
    var g := k.words[s].frame;
    assert s in Names(k.words, g);
    if g == f {
      assert |Names(k'.words, f)| == |Names(k.words, f)| by { assert Names(k'.words, f) == Names(k.words, f); }
      assert k'.Refs(f) == k.Refs(f) + 1;
    } else {
      NamesSet(k.words, s, Word(f, true, false), g);
      assert k'.Refs(g) == k.Refs(g);
      assert |Names(k'.words, g)| == |Names(k.words, g)| - 1;
    }
  }

  /**
   * map_frame, its page table new or old, keeps the counts exact if and only if the entry it
   * overwrites is zero or present; a non-zero entry without PRESENT is overwritten and never unmapped.
   */
  lemma MapFrameExactIff(k: Kernel, e: EnvId, p: Page, f: Frame)
    requires Exact(k) && f !in k.free && k.Refs(f) < 0xFFFF && (forall g :: k.Refs(g) < 0x1_0000)
    requires MapFrame(k, e, p, f).Ok?
    ensures Exact(MapFrame(k, e, p, f).value) <==> !k.Mapped(e, p) || k.Present(e, p)
  {
    hide Exact, MapFrame, Ensure;
    var t := Table(e, Pdx(p));
    MapFrameEnsures(k, e, p, f);
    var k1 := Ensure(k, t).value;
    EnsureKeepsExact(k, t, f);
    EnsureEffect(k, t);
    EntryExactIff(k1, e, p, f);
  }

  /** The table comes first; the rest of map_frame then finds it there. */
  lemma MapFrameEnsures(k: Kernel, e: EnvId, p: Page, f: Frame)
    requires MapFrame(k, e, p, f).Ok?
    ensures Ensure(k, Table(e, Pdx(p))).Ok?
    ensures MapFrame(k, e, p, f) == MapFrame(Ensure(k, Table(e, Pdx(p))).value, e, p, f)
  {
  }

  lemma EnsureKeepsExact(k: Kernel, t: Slot, f: Frame)
    requires Exact(k) && Small(k) && Ensure(k, t).Ok? && f !in k.free
    ensures var k1 := Ensure(k, t).value;
      Exact(k1) && Small(k1) && t in k1.words && f !in k1.free && k1.Refs(f) == k.Refs(f)
  {
    if t !in k.words {
      hide Exact;
      AllocateKeepsExact(k);
      var (k1, g) := AllocateFrame(k).value;
      SetZeroKeepsExact(k1, t, g);
      SetWordSmall(k1, t, g);
    }
  }

  lemma EntryExactIff(k: Kernel, e: EnvId, p: Page, f: Frame)
    requires Exact(k) && f !in k.free && k.Refs(f) < 0xFFFF && (forall g :: k.Refs(g) < 0x1_0000)
    requires Table(e, Pdx(p)) in k.words
    ensures MapFrame(k, e, p, f).Ok?
    ensures Exact(MapFrame(k, e, p, f).value) <==> !k.Mapped(e, p) || k.Present(e, p)
  {
    var s := Entry(e, p);
    if k.Present(e, p) {
      if k.words[s].frame != f {
        UnmapKeepsExact(k, s);
        UnmapOther(k, s, f);
        SetZeroKeepsExact(UnmapFrame(k, s), s, f);
      }
    } else if k.Mapped(e, p) {
      OverwriteBreaksExact(k, s, f);
    } else {
      SetZeroKeepsExact(k, s, f);
    }
  }

  /** A hidden entry, as demoting a page leaves one, and a fresh frame mapped over it: the old frame's count stays 1. */
  lemma HiddenEntryBreaksExact()
    ensures var k := Kernel(map[Table(0, 0) := Word(1, true, false), Entry(0, 5) := Word(2, false, true)],
                            map[1 := 1, 2 := 1, 3 := 0], [], map[], map[], [], map[]);
      && Exact(k) && k.Mapped(0, 5) && !k.Present(0, 5)
      && MapFrame(k, 0, 5, 3).Ok? && !Exact(MapFrame(k, 0, 5, 3).value)
      && MapFrame(k, 0, 5, 3).value.Refs(2) == 1 && Names(MapFrame(k, 0, 5, 3).value.words, 2) == {}
  {
    var words := map[Table(0, 0) := Word(1, true, false), Entry(0, 5) := Word(2, false, true)];
    var k := Kernel(words, map[1 := 1, 2 := 1, 3 := 0], [], map[], map[], [], map[]);
    assert Names(words, 1) == {Table(0, 0)} && Names(words, 2) == {Entry(0, 5)};
    forall f | f != 1 && f != 2 ensures Names(words, f) == {} { }
    forall f ensures k.Refs(f) == |Names(words, f)| { }
    MapFrameExactIff(k, 0, 5, 3);
  }

  lemma UnmapOther(k: Kernel, s: Slot, f: Frame)
    requires s in k.words && k.words[s].frame != f
    ensures f in UnmapFrame(k, s).free ==> f in k.free
    ensures UnmapFrame(k, s).Refs(f) == k.Refs(f)
    ensures s !in UnmapFrame(k, s).words
  {
  }

  // ----- any sequence of calls -----

  datatype Call =
    | Alloc                                   // allocate_frame; the frame stays with the caller
    | Map(e: EnvId, p: Page, f: Frame)        // map_frame on an allocated frame
    | Unmap(e: EnvId, p: Page)
    | MakeTable(e: EnvId, p: Page)            // __static_cpt

  function Do(k: Kernel, c: Call): Result<Kernel> {
    match c
    case Alloc => var (k1, _) :- AllocateFrame(k); Ok(k1)
    case Map(e, p, f) => MapFrame(k, e, p, f)
    case Unmap(e, p) => Ok(UnmapFrame(k, Entry(e, p)))
    case MakeTable(e, p) => Ensure(k, Table(e, Pdx(p)))
  }

  /** The caller maps only allocated frames, and not over a hidden entry. */
  ghost predicate Proper(k: Kernel, c: Call) {
    c.Map? ==>
      && c.f !in k.free && k.Refs(c.f) < 0xFFFF
      && (k.Mapped(c.e, c.p) ==> k.Present(c.e, c.p))
  }

  ghost predicate ProperRun(k: Kernel, calls: seq<Call>)
    decreases |calls|
  {
    calls == [] || (Proper(k, calls[0]) && Do(k, calls[0]).Ok? && ProperRun(Do(k, calls[0]).value, calls[1..]))
  }

  function AfterCalls(k: Kernel, calls: seq<Call>): Kernel
    decreases |calls|
  {
    if calls == [] || Do(k, calls[0]).Panic? then k else AfterCalls(Do(k, calls[0]).value, calls[1..])
  }

  ghost predicate Small(k: Kernel) { forall f :: k.Refs(f) < 0x1_0000 }

  lemma AllocateKeepsExact(k: Kernel)
    requires Exact(k) && Small(k) && k.free != []
    ensures var (k1, f) := AllocateFrame(k).value;
      Exact(k1) && Small(k1) && f !in k1.free && k1.Refs(f) == 0
  {
    var (k1, f) := AllocateFrame(k).value;
    assert k.free == [f] + k1.free;
    assert f in k.free && forall g :: g in k1.free ==> g in k.free;
    assert forall g :: k1.Refs(g) == k.Refs(g);
  }

  lemma CallKeepsExact(k: Kernel, c: Call)
    requires Exact(k) && Small(k) && Proper(k, c) && Do(k, c).Ok?
    ensures Exact(Do(k, c).value) && Small(Do(k, c).value)
  {
    match c
    case Alloc => AllocateKeepsExact(k);
    case Map(e, p, f) =>
      MapFrameExactIff(k, e, p, f);
      MapFrameSmall(k, e, p, f);
    case Unmap(e, p) => UnmapKeepsExact(k, Entry(e, p));
    case MakeTable(e, p) =>
      var t := Table(e, Pdx(p));
      if t !in k.words {
        AllocateKeepsExact(k);
        var (k1, f) := AllocateFrame(k).value;
        SetZeroKeepsExact(k1, t, f);
        SetWordSmall(k1, t, f);
      }
  }

  lemma MapFrameSmall(k: Kernel, e: EnvId, p: Page, f: Frame)
    requires Exact(k) && Small(k) && f !in k.free && MapFrame(k, e, p, f).Ok?
    ensures Small(MapFrame(k, e, p, f).value)
  {
    hide Exact, Ensure;
    var t := Table(e, Pdx(p));
    MapFrameEnsures(k, e, p, f);
    EnsureKeepsExact(k, t, f);
    var k1 := Ensure(k, t).value;
    EnsureNothing(k1, t);
    UnmapKeepsExact(k1, Entry(e, p));
    SetWordSmall(k1, Entry(e, p), f);
    SetWordSmall(UnmapFrame(k1, Entry(e, p)), Entry(e, p), f);
  }

  lemma EnsureNothing(k: Kernel, t: Slot)
    requires t in k.words
    ensures Ensure(k, t) == Ok(k)
  {
  }

  /** Over any run of allocations, maps, unmaps and table creations the counts stay exact. */
  lemma {:induction false} RunKeepsExact(k: Kernel, calls: seq<Call>)
    requires Exact(k) && Small(k) && ProperRun(k, calls)
    ensures Exact(AfterCalls(k, calls))
    decreases |calls|
  {
    hide Exact, Small, Proper, Do;
    if calls != [] {
      CallKeepsExact(k, calls[0]);
      RunKeepsExact(Do(k, calls[0]).value, calls[1..]);
    }
  }

  /** In every state the paging system reaches, the count of a named frame is 1 and that of a free frame 0. */
  lemma OwnedIsExact(k: Kernel, f: Frame)
    requires FramesOwned(k) && (f in k.free || exists s :: s in k.words && k.words[s].frame == f)
    ensures k.Refs(f) == |Names(k.words, f)|
  {
    if f in k.free {
      assert Names(k.words, f) == {};
    } else {
      var s :| s in k.words && k.words[s].frame == f;
      assert Names(k.words, f) == {s};
    }
  }

  /**
   * The count has 16 bits: from one it falls to zero and the frame leads the free list; from zero it
   * wraps to 0xFFFF and nothing is freed. A word more takes it from 0xFFFF to zero.
   */
  lemma CountsWrap(k: Kernel, s: Slot, f: Frame)
    requires k.Refs(f) < 0x1_0000
    ensures var (d, r) := (DecrementReferences(k, f), k.Refs(f));
      && d.Refs(f) == (if r == 0 then 0xFFFF else r - 1) && d.free == (if r == 1 then [f] + k.free else k.free)
      && d.words == k.words && forall g :: g != f ==> d.Refs(g) == k.Refs(g)
    ensures SetWord(k, s, f).Refs(f) == (if k.Refs(f) == 0xFFFF then 0 else k.Refs(f) + 1)
  {
  }
}
