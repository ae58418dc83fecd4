/**
 * The whole state after an access that faults: which words, page file entries and bytes change, and
 * that nothing else does.
 */
module FaultEffect {
  import opened Sequences
  import opened TwoLists
  import opened KernelState
  import opened Paging
  import P = Progress

  /** The page a full working set gives up, the least recently used one. */
  ghost predicate Victim(l: Lists, q: Page) { l.Full() && l.Resident() != [] && q == Last(l.Resident()) }

  /** The page a full ActiveList hands to SecondList. */
  ghost predicate Demoted(l: Lists, q: Page) { |l.active| == l.activeMax && l.active != [] && l.secondMax > 0 && q == Last(l.active) }

  /** The page file after an access to p: a page without an entry gets one if a disk frame is free. */
  function Filing(k: Kernel, e: EnvId, p: Page): map<(EnvId, Page), DiskFrame> {
    if (e, p) in k.pf || k.diskFree == [] then k.pf else k.pf[(e, p) := k.diskFree[0]]
  }

  function FramesLeft(k: Kernel, e: EnvId, p: Page): seq<DiskFrame> {
    if (e, p) in k.pf || k.diskFree == [] then k.diskFree else k.diskFree[1..]
  }

  /** The word of slot s after the fault on p: the victim's is gone, the demoted page's not present. */
  ghost predicate WordsAfter(l: Lists, k: Kernel, k': Kernel, e: EnvId, p: Page) {
    && (forall s :: s in k'.words <==>
          (s in k.words && !(s.Entry? && s.env == e && Victim(l, s.page)))
          || s in {Entry(e, p), Table(e, Pdx(p)), DiskTable(e, Pdx(p))})
    && (forall s :: s in k.words && s in k'.words && s != Entry(e, p) ==>
          k'.words[s] == if s.Entry? && s.env == e && Demoted(l, s.page) then k.words[s].(present := false) else k.words[s])
    && k'.words[Entry(e, p)].present && !k'.words[Entry(e, p)].modified
  }

  /** Only the victim's page on disk changes, and only if the victim was modified. */
  ghost predicate DiskAfter(l: Lists, k: Kernel, k': Kernel, e: EnvId) {
    forall x :: x in k.pf ==>
      k'.Disk(k.pf[x]) == if x.0 == e && Victim(l, x.1) && k.Mapped(e, x.1) && k.words[Entry(e, x.1)].modified
                          then k.Ram(k.words[Entry(e, x.1)].frame) else k.Disk(k.pf[x])
  }

  /** p's frame gets the page's bytes on disk; every other page in memory keeps its own. */
  ghost predicate BytesAfter(k: Kernel, k': Kernel, e: EnvId, p: Page) {
    && ((e, p) in k.pf && Entry(e, p) in k'.words ==> k'.Ram(k'.words[Entry(e, p)].frame) == k.Disk(k.pf[(e, p)]))
    && (forall s :: s in k.words && s in k'.words && s != Entry(e, p) ==> k'.Ram(k.words[s].frame) == k.Ram(k.words[s].frame))
  }

  /** A fault on a page of SecondList: the page becomes present and the active tail hidden. Nothing else changes. */
  lemma PromotionChanges(l: Lists, k: Kernel, e: EnvId, p: Page)
    requires Owned(k) && EnvOk(l, k, e) && p in l.second && p < STACK_TOP
    ensures l.active != [] && k.Mapped(e, p) && k.Mapped(e, Last(l.active)) && p != Last(l.active)
    ensures Touch(l, k, e, p) == Ok((Faulted(l, p), k.(words :=
      k.words[Entry(e, p) := k.words[Entry(e, p)].(present := true)]
             [Entry(e, Last(l.active)) := k.words[Entry(e, Last(l.active))].(present := false)])))
  {
    P.TouchSecond(l, k, e, p);
    PromoteEffect(l, k, e, p);
    hide EnvOk, Owned, Touch, Faulted;
  }

  // ----- making room -----

  lemma RoomChanges(l: Lists, k: Kernel, e: EnvId)
    requires Owned(k) && EnvOk(l, k, e)
    ensures MakeRoom(l, k, e).Ok?
    ensures var k' := MakeRoom(l, k, e).value;
      Owned(k') && RoomMade(l, k, k', e) && DiskAfter(l, k, k', e)
  {
    hide RoomMade, Owned, EnvOk, DiskAfter;
    MakeRoomEffect(l, k, e);
    if l.Full() { VictimListed(l, k, e); }
    EvictedDisk(l, k, e);
  }

  lemma EvictedDisk(l: Lists, k: Kernel, e: EnvId)
    requires Owned(k) && MakeRoom(l, k, e).Ok?
    requires l.Full() ==>
      DiskDirectory(e) in k.words && l.Resident() != []
      && k.Mapped(e, Last(l.Resident())) && (e, Last(l.Resident())) in k.pf
    ensures DiskAfter(l, k, MakeRoom(l, k, e).value, e)
  {
    hide Evict, Owned;
    if l.Full() && l.Resident() != [] { EvictEffect(k, e, Last(l.Resident())); }
  }

  // ----- bringing the page in -----

  /** p's own words and entry are new, its bytes those on disk; all else is the same. */
  ghost predicate BroughtIn(k: Kernel, k': Kernel, e: EnvId, p: Page) {
    && (forall s :: s in k'.words <==> s in k.words || s == Entry(e, p) || s == DiskTable(e, Pdx(p)))
    && (forall s :: s in k.words ==> k'.words[s] == k.words[s])
    && k'.words[Entry(e, p)].present && !k'.words[Entry(e, p)].modified
    && k'.pf == Filing(k, e, p) && k'.diskFree == FramesLeft(k, e, p) && k'.disk == k.disk
    && ((e, p) in k.pf ==> k'.Ram(k'.words[Entry(e, p)].frame) == k.Disk(k.pf[(e, p)]))
    && (forall s :: s in k.words ==> k'.Ram(k.words[s].frame) == k.Ram(k.words[s].frame))
  }

  lemma PageInState(k: Kernel, e: EnvId, p: Page)
    requires FramesOwned(k) && !k.Mapped(e, p) && Table(e, Pdx(p)) in k.words && DiskDirectory(e) in k.words
    requires ((e, p) in k.pf ==> DiskTable(e, Pdx(p)) in k.words) && PageIn(k, e, p).Ok?
    ensures BroughtIn(k, PageIn(k, e, p).value, e, p)
  {
    if (e, p) in k.pf || k.diskFree != [] {
      PageInEffect(k, e, p);
      PageInDisk(k, e, p);
      hide PageIn;
    } else {
      PageInUnfiled(k, e, p);
    }
  }

  /** No disk frame for a new stack page. */
  lemma PageInUnfiled(k: Kernel, e: EnvId, p: Page)
    requires FramesOwned(k) && !k.Mapped(e, p) && Table(e, Pdx(p)) in k.words && DiskDirectory(e) in k.words
    requires (e, p) !in k.pf && k.diskFree == [] && PageIn(k, e, p).Ok?
    ensures BroughtIn(k, PageIn(k, e, p).value, e, p)
  {
    hide PageIn, PfAdd, FramesOwned;
    var k2, f := PageInIsAdd(k, e, p);
    PfAddUnfiled(k2, e, p);
  }

  lemma PageInIsAdd(k: Kernel, e: EnvId, p: Page) returns (k2: Kernel, f: Frame)
    requires FramesOwned(k) && !k.Mapped(e, p) && Table(e, Pdx(p)) in k.words && (e, p) !in k.pf && PageIn(k, e, p).Ok?
    ensures PageIn(k, e, p) == PfAdd(k2, e, p) && k2.words == k.words[Entry(e, p) := Word(f, true, false)]
    ensures k2.pf == k.pf && k2.diskFree == k.diskFree && k2.disk == k.disk && k2.ram == k.ram
    ensures forall s :: s in k.words ==> k.words[s].frame != f
  {
    hide PfAdd;
    MapFreshEffect(k, e, p);
    var (k1, g) := AllocateFrame(k).value;
    f := g;
    k2 := SetWord(k1, Entry(e, p), f);
  }

  lemma PfAddUnfiled(k: Kernel, e: EnvId, p: Page)
    requires (e, p) !in k.pf && k.diskFree == [] && DiskDirectory(e) in k.words && PfAdd(k, e, p).Ok?
    ensures var k' := PfAdd(k, e, p).value;
      && (forall s :: s in k'.words <==> s in k.words || s == DiskTable(e, Pdx(p)))
      && (forall s :: s in k.words ==> k'.words[s] == k.words[s])
      && k'.pf == k.pf && k'.diskFree == k.diskFree && k'.disk == k.disk && k'.ram == k.ram
  {
    EnsureEffect(k, DiskTable(e, Pdx(p)));
  }

  lemma PageInDisk(k: Kernel, e: EnvId, p: Page)
    requires !k.Mapped(e, p) && Table(e, Pdx(p)) in k.words && DiskDirectory(e) in k.words && PageIn(k, e, p).Ok?
    ensures var k' := PageIn(k, e, p).value; k'.pf == Filing(k, e, p) && k'.diskFree == FramesLeft(k, e, p)
  {
    var (k1, f) := AllocateFrame(k).value;
    var k2 := SetWord(k1, Entry(e, p), f);
    assert MapFrame(k1, e, p, f) == Ok(k2);
    if (e, p) !in k.pf { EnsureEffect(k2, DiskTable(e, Pdx(p))); }
  }

  // ----- the fault as a whole -----

  /** k1 is k with the table of p. */
  ghost predicate TableMade(k: Kernel, k1: Kernel, e: EnvId, p: Page) {
    && (forall s :: s in k1.words <==> s in k.words || s == Table(e, Pdx(p)))
    && (forall s :: s in k.words ==> k1.words[s] == k.words[s])
    && k1.pf == k.pf && k1.diskFree == k.diskFree && k1.disk == k.disk && k1.ram == k.ram
  }

  lemma WordsTogether(l: Lists, k: Kernel, k1: Kernel, k2: Kernel, k': Kernel, e: EnvId, p: Page)
    requires l.Valid() && TableMade(k, k1, e, p) && RoomMade(l, k1, k2, e) && BroughtIn(k2, k', e, p)
    ensures WordsAfter(l, k, k', e, p)
  {
    forall s ensures s in k'.words <==>
      (s in k.words && !(s.Entry? && s.env == e && Victim(l, s.page))) || s in {Entry(e, p), Table(e, Pdx(p)), DiskTable(e, Pdx(p))}
    {
      assert s in k2.words <==> s in k1.words && !(s.Entry? && s.env == e && Victim(l, s.page));
    }
    forall s | s in k.words && s in k'.words && s != Entry(e, p)
      ensures k'.words[s] == if s.Entry? && s.env == e && Demoted(l, s.page) then k.words[s].(present := false) else k.words[s]
    {
      StillThere(l, k1, k2, e, s);
      TailGone(l, k1, k2, e, s);
    }
  }

  lemma StillThere(l: Lists, k1: Kernel, k2: Kernel, e: EnvId, s: Slot)
    requires RoomMade(l, k1, k2, e) && s in k2.words
    ensures s in k1.words && k2.words[s] == if |l.active| == l.activeMax && l.active != [] && s == Entry(e, Last(l.active))
                                            then k1.words[s].(present := false) else k1.words[s]
  {
  }

  /** Without a SecondList the active tail is the victim. */
  lemma TailGone(l: Lists, k1: Kernel, k2: Kernel, e: EnvId, s: Slot)
    requires l.Valid() && RoomMade(l, k1, k2, e) && s in k2.words
    ensures |l.active| == l.activeMax && s == Entry(e, Last(l.active)) ==> l.secondMax > 0
  {
    assert l.second == [] ==> l.Resident() == l.active;
  }

  lemma DiskTogether(l: Lists, k: Kernel, k1: Kernel, k2: Kernel, k': Kernel, e: EnvId, p: Page)
    requires TableMade(k, k1, e, p) && RoomMade(l, k1, k2, e) && DiskAfter(l, k1, k2, e) && BroughtIn(k2, k', e, p)
    ensures DiskAfter(l, k, k', e) && k'.pf == Filing(k, e, p) && k'.diskFree == FramesLeft(k, e, p)
  {
    hide RoomMade, Victim;
    assert k2.pf == k.pf && k2.diskFree == k.diskFree && k2.ram == k.ram by { RoomKeeps(l, k1, k2, e); }
    forall x | x in k.pf ensures k'.Disk(k.pf[x]) == k2.Disk(k.pf[x]) && (k.Mapped(e, x.1) <==> k1.Mapped(e, x.1)) { }
  }

  lemma RoomKeeps(l: Lists, k1: Kernel, k2: Kernel, e: EnvId)
    requires RoomMade(l, k1, k2, e)
    ensures k2.pf == k1.pf && k2.diskFree == k1.diskFree && k2.ram == k1.ram
    ensures forall s :: s in k2.words ==> s in k1.words && k2.words[s].frame == k1.words[s].frame
  {
  }

  lemma BytesTogether(l: Lists, k: Kernel, k1: Kernel, k2: Kernel, k': Kernel, e: EnvId, p: Page)
    requires !Victim(l, p) && TableMade(k, k1, e, p) && RoomMade(l, k1, k2, e) && DiskAfter(l, k1, k2, e)
    requires BroughtIn(k2, k', e, p)
    ensures BytesAfter(k, k', e, p)
  {
    RoomKeeps(l, k1, k2, e);
    assert forall s: Slot :: s in k1.words && !s.Entry? ==> s in k2.words;
    hide RoomMade, Victim;
    forall s | s in k.words && s in k'.words && s != Entry(e, p)
      ensures k'.Ram(k.words[s].frame) == k.Ram(k.words[s].frame)
    {
      StaysIn(k, k1, k2, k', e, p, s);
    }
  }

  /** A word of k that survives is in between too, or it is the page's disk table. */
  lemma StaysIn(k: Kernel, k1: Kernel, k2: Kernel, k': Kernel, e: EnvId, p: Page, s: Slot)
    requires TableMade(k, k1, e, p) && BroughtIn(k2, k', e, p)
    requires forall s: Slot :: s in k1.words && !s.Entry? ==> s in k2.words
    requires forall s :: s in k2.words ==> s in k1.words && k2.words[s].frame == k1.words[s].frame
    requires k2.ram == k.ram && s in k.words && s in k'.words && s != Entry(e, p)
    ensures k'.Ram(k.words[s].frame) == k.Ram(k.words[s].frame)
  {
    assert s in k2.words;
  }

  lemma NotTheVictim(l: Lists, k: Kernel, e: EnvId, p: Page)
    requires EnvOk(l, k, e) && !k.Mapped(e, p)
    ensures !Victim(l, p)
  {
    if l.Full() { VictimListed(l, k, e); }
  }

  /** A fault on any other page changes exactly this. */
  lemma PageInChanges(l: Lists, k: Kernel, e: EnvId, p: Page)
    requires Owned(k) && EnvOk(l, k, e) && !k.Present(e, p) && p !in l.second && Touch(l, k, e, p).Ok?
    ensures var (l', k') := Touch(l, k, e, p).value;
      && l' == Faulted(l, p)
      && WordsAfter(l, k, k', e, p) && DiskAfter(l, k, k', e) && BytesAfter(k, k', e, p)
      && k'.pf == Filing(k, e, p) && k'.diskFree == FramesLeft(k, e, p)
  {
    hide Lists.Valid, MakeRoom, PageIn, Faulted, Ensure, Owned, EnvOk, Touch, WordsAfter, DiskAfter, BytesAfter, RoomMade, BroughtIn;
    P.TouchOkIff(l, k, e, p);
    var t := Table(e, Pdx(p));
    P.TouchSteps(l, k, e, p);
    var k1 := Ensure(k, t).value;
    P.EnsureAllOwned(k, t);
    P.EnsureEnvOk(l, k, e, p);
    P.MakeRoomFrees(l, k1, e);
    P.HandlerMapsEmptyEntry(l, k1, e, p);
    var k2 := MakeRoom(l, k1, e).value;
    RoomChanges(l, k1, e);
    P.RoomKeepsTables(l, k1, e, p);
    FiledHasTable(l, k1, k2, e, p);
    var k' := PageIn(k2, e, p).value;
    assert FramesOwned(k2) by { P.OwnedFrames(k2); }
    PageInState(k2, e, p);
    NotTheVictim(l, k1, e, p);
    WordsTogether(l, k, k1, k2, k', e, p);
    DiskTogether(l, k, k1, k2, k', e, p);
    BytesTogether(l, k, k1, k2, k', e, p);
  }

  lemma FiledHasTable(l: Lists, k: Kernel, k2: Kernel, e: EnvId, p: Page)
    requires EnvOk(l, k, e) && RoomMade(l, k, k2, e)
    ensures l.Valid() && ((e, p) in k2.pf ==> DiskTable(e, Pdx(p)) in k2.words)
  {
  }
}
