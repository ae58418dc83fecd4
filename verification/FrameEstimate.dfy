/** calculate_required_frames: the estimate is what mapping the range really takes. */
module FrameEstimate {
  import opened Sequences
  import opened TwoLists
  import opened KernelState
  import opened UserMemory

  /** First loop: tables of [d, end) that do not exist. */
  function MissingTables(k: Kernel, e: EnvId, d: nat, end: nat): nat
    decreases end - d
  {
    if d >= end then 0 else (if Table(e, d) in k.words then 0 else 1) + MissingTables(k, e, d + 1, end)
  }

  /** Second loop: pages of [p, end) that are not mapped. */
  function MissingPages(k: Kernel, e: EnvId, p: Page, end: nat): nat
    decreases end - p
  {
    if p >= end then 0 else (if k.Mapped(e, p) then 0 else 1) + MissingPages(k, e, p + 1, end)
  }

  /** The estimate for the pages [p, end). */
  function RequiredFrames(k: Kernel, e: EnvId, p: Page, end: nat): nat {
    MissingTables(k, e, Pdx(p), if p < end then Pdx(end - 1) + 1 else Pdx(p)) + MissingPages(k, e, p, end)
  }

  /** The address the first loop is at after i rounds: steps of 4 MB, in 32 bits. */
  function TableAddress(start: nat, i: nat): nat { (start - start % 0x40_0000 + i * 0x40_0000) % 0x1_0000_0000 }

  /**
   * calculate_required_frames on 32-bit byte addresses, loop by loop, given at most so many rounds
   * of the first loop. It ends, with the estimate, for ranges that end at 0xFFC00000 or below (1024
   * rounds do); for a range that ends above it is still in the first loop after any number of them.
   */
  method CalculateRequiredFrames(k: Kernel, e: EnvId, start: nat, size: nat, rounds: nat) returns (ended: bool, n: nat)
    requires size > 0 && start + size < 0x1_0000_0000
    ensures ended ==> n == RequiredFrames(k, e, start / 4096, (start + size + 4095) / 4096)
    ensures start + size <= 0xFFC0_0000 && rounds >= 1024 ==> ended
    ensures start + size > 0xFFC0_0000 ==> !ended
  {
    var p, end := start / 4096, (start + size + 4095) / 4096;
    ghost var last := Pdx(end - 1) + 1;
    var tables, i := 0, 0;
    var va := start - start % 0x40_0000;
    n := 0;
    while va < start + size && i < rounds
      invariant va % 0x40_0000 == 0 && 0 <= va < 0x1_0000_0000
      invariant start + size <= 0xFFC0_0000 ==>
        && va == start - start % 0x40_0000 + i * 0x40_0000 && Pdx(p) <= va / 0x40_0000 <= last
        && tables + MissingTables(k, e, va / 0x40_0000, last) == MissingTables(k, e, Pdx(p), last)
      decreases rounds - i
    {
      if Table(e, va / 0x40_0000) !in k.words { tables := tables + 1; }
      va := (va + 0x40_0000) % 0x1_0000_0000;
      i := i + 1;
    }
    ended := va >= start + size;
    if ended {
      var pages := CountPages(k, e, start, size);
      n := tables + pages;
    }
  }

  /** The second loop, which the first one leaves in ranges where no address wraps. */
  method CountPages(k: Kernel, e: EnvId, start: nat, size: nat) returns (pages: nat)
    requires size > 0 && start + size <= 0xFFC0_0000
    ensures pages == MissingPages(k, e, start / 4096, (start + size + 4095) / 4096)
  {
    var p, end := start / 4096, (start + size + 4095) / 4096;
    pages := 0;
    var va := start - start % 4096;
    while va < start + size
      invariant va % 4096 == 0 && p <= va / 4096 <= end && va <= 0xFFC0_0000
      invariant pages + MissingPages(k, e, va / 4096, end) == MissingPages(k, e, p, end)
      decreases 0xFFC0_0000 - va
    {
      if !k.Mapped(e, va / 4096) { pages := pages + 1; }
      va := (va + 4096) % 0x1_0000_0000;
    }
  }

  /** The first loop reaches an address past the range if and only if the range ends at 0xFFC00000 or below. */
  lemma FirstLoopEndsIff(start: nat, size: nat)
    requires size > 0 && start + size < 0x1_0000_0000
    ensures (exists i: nat :: TableAddress(start, i) >= start + size) <==> start + size <= 0xFFC0_0000
  {
    if start + size <= 0xFFC0_0000 {
      var i := (start + size + 0x3F_FFFF) / 0x40_0000 - start / 0x40_0000;
      assert start - start % 0x40_0000 == start / 0x40_0000 * 0x40_0000;
      assert TableAddress(start, i) >= start + size;
    } else {
      forall i: nat ensures TableAddress(start, i) < start + size { TableAddressBelow(start, i); }
    }
  }

  lemma TableAddressBelow(start: nat, i: nat)
    ensures TableAddress(start, i) <= 0xFFC0_0000
  {
    var t := start / 0x40_0000 + i;
    assert start - start % 0x40_0000 + i * 0x40_0000 == t * 0x40_0000;
    var (q, r) := (t / 1024, t % 1024);
    assert t * 0x40_0000 == q * 0x1_0000_0000 + r * 0x40_0000;
    Remainder(t * 0x40_0000, q, r * 0x40_0000);
  }

  lemma Remainder(x: nat, q: nat, r: nat)
    requires x == q * 0x1_0000_0000 + r && r < 0x1_0000_0000
    ensures x % 0x1_0000_0000 == r
  {
  }

  /** One byte at 0xFFC00000: the loop's address goes round and round without leaving the range. */
  lemma FirstLoopNeverEnds(i: nat)
    ensures TableAddress(0xFFC0_0000, i) < 0xFFC0_0000 + 1
  {
    FirstLoopEndsIff(0xFFC0_0000, 1);
  }

  /** Allocating and mapping every unmapped page of [p, end). */
  function MapRange(k: Kernel, e: EnvId, p: Page, end: nat): Result<Kernel>
    decreases end - p
  {
    if p >= end then Ok(k)
    else if k.Mapped(e, p) then MapRange(k, e, p + 1, end)
    else
      var (k1, f) :- AllocateFrame(k);
      var k2 :- MapFrame(k1, e, p, f);
      MapRange(k2, e, p + 1, end)
  }

  ghost predicate HasTables(k: Kernel, e: EnvId) {
    forall p :: Entry(e, p) in k.words ==> Table(e, Pdx(p)) in k.words
  }

  /** Adding the table of page p pays for one missing table, wherever the count starts. */
  lemma {:induction false} TableAdded(k: Kernel, k': Kernel, e: EnvId, t: nat, d: nat, end: nat)
    requires forall c :: Table(e, c) in k'.words <==> Table(e, c) in k.words || c == t
    ensures MissingTables(k, e, d, end) ==
            MissingTables(k', e, d, end) + (if d <= t < end && Table(e, t) !in k.words then 1 else 0)
    decreases end - d
  {
    if d < end { TableAdded(k, k', e, t, d + 1, end); }
  }

  lemma {:induction false} PagesAfter(k: Kernel, k': Kernel, e: EnvId, p: Page, end: nat)
    requires forall q :: q >= p ==> (k'.Mapped(e, q) <==> k.Mapped(e, q))
    ensures MissingPages(k', e, p, end) == MissingPages(k, e, p, end)
    decreases end - p
  {
    if p < end { PagesAfter(k, k', e, p + 1, end); }
  }

  /** Dropping the first page of a range drops its table from the count only if it exists by then. */
  lemma TablesFrom(k: Kernel, e: EnvId, p: Page, end: nat)
    requires p < end && Table(e, Pdx(p)) in k.words
    ensures MissingTables(k, e, Pdx(p), Pdx(end - 1) + 1) ==
            MissingTables(k, e, Pdx(p + 1), if p + 1 < end then Pdx(end - 1) + 1 else Pdx(p + 1))
  {
    if p + 1 == end {
      assert MissingTables(k, e, Pdx(p) + 1, Pdx(p) + 1) == 0;
    } else if Pdx(p + 1) == Pdx(p) {
    } else {
      assert Pdx(p + 1) == Pdx(p) + 1;
    }
  }

  /** What mapping one unmapped page costs: itself, and its table if that is missing. */
  lemma MapOneCost(k: Kernel, e: EnvId, p: Page)
    requires !k.Mapped(e, p) && AllocateFrame(k).Ok? && MapFrame(AllocateFrame(k).value.0, e, p, AllocateFrame(k).value.1).Ok?
    ensures var (k1, f) := AllocateFrame(k).value;
      var k2 := MapFrame(k1, e, p, f).value;
      && |k.free| == |k2.free| + 1 + (if Table(e, Pdx(p)) in k.words then 0 else 1)
      && (forall s :: s in k2.words <==> s in k.words || s == Entry(e, p) || s == Table(e, Pdx(p)))
  {
    var (k1, f) := AllocateFrame(k).value;
    EnsureEffect(k1, Table(e, Pdx(p)));
  }

  lemma RequiredAfterMapping(k: Kernel, k2: Kernel, e: EnvId, p: Page, end: nat)
    requires p < end && !k.Mapped(e, p)
    requires forall s :: s in k2.words <==> s in k.words || s == Entry(e, p) || s == Table(e, Pdx(p))
    ensures RequiredFrames(k, e, p, end) ==
            RequiredFrames(k2, e, p + 1, end) + 1 + (if Table(e, Pdx(p)) in k.words then 0 else 1)
  {
    var t := Pdx(p);
    TableAdded(k, k2, e, t, t, Pdx(end - 1) + 1);
    assert t <= Pdx(end - 1);
    PagesAfter(k, k2, e, p + 1, end);
    TablesFrom(k2, e, p, end);
  }

  lemma RequiredPastMapped(k: Kernel, e: EnvId, p: Page, end: nat)
    requires p < end && k.Mapped(e, p) && HasTables(k, e)
    ensures RequiredFrames(k, e, p, end) == RequiredFrames(k, e, p + 1, end)
  {
    TablesFrom(k, e, p, end);
  }

  /**
   * For every range, mapping its unmapped pages takes exactly the estimated number of frames,
   * page tables included.
   */
  lemma {:induction false} EstimateIsExact(k: Kernel, e: EnvId, p: Page, end: nat)
    requires HasTables(k, e) && MapRange(k, e, p, end).Ok?
    ensures |k.free| == |MapRange(k, e, p, end).value.free| + RequiredFrames(k, e, p, end)
    decreases end - p
  {
    if p < end {
      hide AllocateFrame, MapFrame;
      if k.Mapped(e, p) {
        RequiredPastMapped(k, e, p, end);
        EstimateIsExact(k, e, p + 1, end);
      } else {
        MapOneCost(k, e, p);
        var (k1, f) := AllocateFrame(k).value;
        var k2 := MapFrame(k1, e, p, f).value;
        RequiredAfterMapping(k, k2, e, p, end);
        hide RequiredFrames;
        EstimateIsExact(k2, e, p + 1, end);
      }
    }
  }
}
