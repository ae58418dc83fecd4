/**
 * The user heap (lib/uheap.c): best-fit malloc and free over a table of intervals, and the page
 * file entries the two system calls leave behind. Addresses in the table are page numbers.
 */
module UserHeap {
  import K = KernelState
  import M = UserMemory
  import Paging
  import TwoLists

  const START: int := 0x80000
  const LIMIT: int := 0xA0000
  const NUM_PAGES: nat := 0x20000

  /** A table entry: the interval [start, end), its length, and whether it is free. */
  datatype Info = Info(start: int, end: int, pages: int, isFree: bool)

  /** What merging leaves of the entry merged away; such entries are never used again. */
  const DEAD: Info := Info(0, 0, -1, false)

  /** The heap's table, and the heap pages that hold a page file entry. */
  datatype Heap = Heap(records: seq<Info>, filed: set<int>)

  function Range(p: int, n: nat): (r: set<int>)
    ensures forall q :: q in r <==> p <= q < p + n
  {
    if n == 0 then {} else Range(p, n - 1) + {p + n - 1}
  }

  /** ROUNDUP to whole pages, in 32 bits. */
  function RequestPages(size: nat): nat { (size + 4095) % 0x1_0000_0000 / 4096 }

  /** The pages that freeMem is told to free, from a length computed in 32 bits. */
  function ReleasePages(pages: int): nat { pages % 0x10_0000 }

  // ----- malloc -----

  function Opened(s: seq<Info>): seq<Info> {
    if s == [] then [Info(START, LIMIT, NUM_PAGES, true)] else s
  }

  predicate Fits(r: Info, req: nat) { r.isFree && r.pages >= req && r.pages - req < NUM_PAGES + 1 }

  /** The best fit among the first n entries: the smallest that is large enough, the first of equals; n if none. */
  function Best(s: seq<Info>, req: nat, n: nat): (k: nat)
    requires n <= |s|
    ensures k <= n
  {
    if n == 0 then 0
    else
      var k := Best(s, req, n - 1);
      if Fits(s[n - 1], req) && (k == n - 1 || s[n - 1].pages < s[k].pages) then n - 1
      else if k == n - 1 then n else k
  }

  /** Entry k gives its first req pages. */
  function Allotted(s: seq<Info>, k: nat, req: nat): seq<Info>
    requires k < |s|
  {
    var r := s[k];
    if r.pages == req then s[k := r.(isFree := false)]
    else s[k := Info(r.start, r.start + req, req, false)] + [Info(r.start + req, r.end, r.pages - req, true)]
  }

  /** malloc: the heap after it and the page it returns, 0 for NULL. */
  function Malloced(h: Heap, size: nat): (Heap, int) {
    var s := Opened(h.records);
    var req := RequestPages(size);
    var k := Best(s, req, |s|);
    if k == |s| then (h.(records := s), 0)
    else (Heap(Allotted(s, k, req), h.filed + Range(s[k].start, req)), s[k].start)
  }

  /** A fit larger than the request is split, and the code takes the table's next entry for the rest. */
  predicate NeedsEntry(h: Heap, size: nat) {
    var s := Opened(h.records);
    var req := RequestPages(size);
    var k := Best(s, req, |s|);
    k < |s| && s[k].pages != req
  }

  // ----- free -----

  /** The first entry from n on that satisfies q, or |s|. */
  function First(s: seq<Info>, q: Info -> bool, n: nat): (k: nat)
    requires n <= |s|
    ensures n <= k <= |s| && (k < |s| ==> q(s[k])) && forall j :: n <= j < k ==> !q(s[j])
    decreases |s| - n
  {
    if n == |s| || q(s[n]) then n else First(s, q, n + 1)
  }

  function StartsAt(va: int): Info -> bool { (r: Info) => r.start * 4096 == va }

  function FreeEndingAt(e: int): Info -> bool { (r: Info) => r.isFree && r.end == e }

  function FreeStartingAt(b: int): Info -> bool { (r: Info) => r.isFree && r.start == b }

  /** Entry k joins the free entry that ends where it starts, if there is one. */
  function MergedBack(s: seq<Info>, k: nat): seq<Info>
    requires k < |s|
  {
    var i := First(s, FreeEndingAt(s[k].start), 0);
    if i == |s| then s
    else s[i := s[i].(end := s[k].end, pages := s[i].pages + s[k].pages)][k := DEAD]
  }

  /** Entry k joins the free entry that starts where it ends, if there is one. */
  function MergedOn(s: seq<Info>, k: nat): seq<Info>
    requires k < |s|
  {
    var i := First(s, FreeStartingAt(s[k].end), 0);
    if i == |s| then s
    else s[i := s[i].(start := s[k].start, pages := s[i].pages + s[k].pages)][k := DEAD]
  }

  /** free looks for both neighbours, but a merge with the first makes the second search look at a dead entry. */
  function Freed(s: seq<Info>, k: nat): seq<Info>
    requires k < |s|
  {
    var s1 := MergedBack(s, k);
    var s2 := MergedOn(s1, k);
    if First(s, FreeEndingAt(s[k].start), 0) == |s| && First(s1, FreeStartingAt(s1[k].end), 0) == |s|
    then s2[k := s2[k].(isFree := true)] else s2
  }

  function Found(h: Heap, va: int): (k: nat)
    ensures k <= |h.records|
  {
    First(h.records, StartsAt(va), 0)
  }

  /** free: it panics, and changes nothing, if no entry starts at va. */
  function Released(h: Heap, va: int): Heap {
    var k := Found(h, va);
    if k == |h.records| then h
    else Heap(Freed(h.records, k), h.filed - Range(h.records[k].start, ReleasePages(h.records[k].pages)))
  }

  // ----- the table and the loops over it -----

  class HeapTable {
    var spaces: array<Info>
    var arraySize: nat
    var filed: set<int>

    ghost predicate Valid() reads this { spaces.Length == NUM_PAGES && arraySize <= NUM_PAGES }

    ghost function Contents(): Heap
      reads this, spaces
      requires Valid()
    {
      Heap(spaces[..arraySize], filed)
    }

    constructor ()
      ensures Valid() && fresh(spaces) && Contents() == Heap([], {})
    {
      spaces := new Info[NUM_PAGES](_ => DEAD);
      arraySize := 0;
      filed := {};
    }

    /** The system call that files the pages (and maps them; see UserMemory). */
    method SysAllocateMem(p: int, n: nat)
      modifies this`filed
      ensures filed == old(filed) + Range(p, n)
    {
      filed := filed + Range(p, n);
    }

    /** The system call that removes the pages from the page file. */
    method SysFreeMem(p: int, n: nat)
      modifies this`filed
      ensures filed == old(filed) - Range(p, n)
    {
      filed := filed - Range(p, n);
    }

    method Malloc(size: nat) returns (addr: int)
      requires Valid() && size < 0x1_0000_0000 && (NeedsEntry(Contents(), size) ==> arraySize < NUM_PAGES)
      modifies this, spaces
      ensures Valid() && spaces == old(spaces)
      ensures (Contents(), addr) == Malloced(old(Contents()), size)
    {
      if arraySize == 0 {
        spaces[0] := Info(START, LIMIT, NUM_PAGES, true);
        arraySize := 1;
      }
      ghost var s := Opened(old(Contents()).records);
      assert spaces[..arraySize] == s;
      var req := RequestPages(size);
      var index := Search(req);
      hide Best, RequestPages;
      if index == -1 {
        addr := 0;
      } else {
        addr := spaces[index].start;
        Allot(index, req);
        SysAllocateMem(addr, req);
      }
    }

    /** The entry found gives its first pages; a larger one is split. */
    method Allot(index: nat, req: nat)
      requires Valid() && index < arraySize && (spaces[index].pages != req ==> arraySize < NUM_PAGES)
      modifies this`arraySize, spaces
      ensures Valid() && spaces[..arraySize] == Allotted(old(spaces[..arraySize]), index, req)
    {
      if req == spaces[index].pages {
        spaces[index] := spaces[index].(isFree := false);
      } else {
        var newEnd := spaces[index].start + req;
        spaces[arraySize] := Info(newEnd, spaces[index].end, spaces[index].pages - req, true);
        arraySize := arraySize + 1;
        spaces[index] := Info(spaces[index].start, newEnd, req, false);
      }
    }

    /** The search loop of malloc: the index of the best fit, or -1. */
    method Search(req: nat) returns (index: int)
      requires Valid()
      ensures var k := Best(spaces[..arraySize], req, arraySize); index == if k == arraySize then -1 else k
    {
      ghost var s := spaces[..arraySize];
      var minDiff := NUM_PAGES + 1;
      index := -1;
      for i := 0 to arraySize
        invariant index == (if Best(s, req, i) == i then -1 else Best(s, req, i))
        invariant index == -1 ==> minDiff == NUM_PAGES + 1
        invariant index >= 0 ==> index < i && minDiff == spaces[index].pages - req && Fits(spaces[index], req)
      {
        if spaces[i].isFree && spaces[i].pages >= req && minDiff > spaces[i].pages - req {
          minDiff := spaces[i].pages - req;
          index := i;
        }
      }
    }

    method Free(va: int) returns (panic: bool)
      requires Valid()
      modifies spaces, this`filed
      ensures Valid()
      ensures Contents() == Released(old(Contents()), va)
      ensures panic <==> forall k :: 0 <= k < old(arraySize) ==> old(spaces[k].start) * 4096 != va
    {
      var index := IndexFrom(StartsAt(va));
      panic := index == arraySize;
      if !panic {
        SysFreeMem(spaces[index].start, ReleasePages(spaces[index].pages));
        Return(index);
      }
    }

    /** The rest of free: entry index joins a free neighbour or becomes free. */
    method Return(index: nat)
      requires Valid() && index < arraySize
      modifies spaces
      ensures spaces[..arraySize] == Freed(old(spaces[..arraySize]), index)
    {
      hide MergedBack, MergedOn, First;
      var back := MergeBack(index);
      var on := MergeOn(index);
      if !back && !on {
        spaces[index] := spaces[index].(isFree := true);
      }
    }

    method MergeBack(index: nat) returns (merged: bool)
      requires Valid() && index < arraySize
      modifies spaces
      ensures spaces[..arraySize] == MergedBack(old(spaces[..arraySize]), index)
      ensures merged <==> First(old(spaces[..arraySize]), FreeEndingAt(old(spaces[index].start)), 0) < arraySize
    {
      var i := IndexFrom(FreeEndingAt(spaces[index].start));
      merged := i < arraySize;
      if merged {
        spaces[i] := spaces[i].(end := spaces[index].end, pages := spaces[i].pages + spaces[index].pages);
        spaces[index] := DEAD;
      }
    }

    method MergeOn(index: nat) returns (merged: bool)
      requires Valid() && index < arraySize
      modifies spaces
      ensures spaces[..arraySize] == MergedOn(old(spaces[..arraySize]), index)
      ensures merged <==> First(old(spaces[..arraySize]), FreeStartingAt(old(spaces[index].end)), 0) < arraySize
    {
      var i := IndexFrom(FreeStartingAt(spaces[index].end));
      merged := i < arraySize;
      if merged {
        spaces[i] := spaces[i].(start := spaces[index].start, pages := spaces[i].pages + spaces[index].pages);
        spaces[index] := DEAD;
      }
    }

    /** The loops of free: the first entry that matches, or arraySize. */
    method IndexFrom(q: Info -> bool) returns (i: nat)
      requires Valid()
      ensures i == First(spaces[..arraySize], q, 0)
    {
      i := 0;
      while i < arraySize && !q(spaces[i])
        invariant i <= arraySize && First(spaces[..arraySize], q, 0) == First(spaces[..arraySize], q, i)
      {
        i := i + 1;
      }
    }
  }

  // ----- what malloc finds -----

  /** Best is the smallest adequate free entry, the first among equals, and there is none exactly when it says so. */
  lemma {:induction false} BestIsBest(s: seq<Info>, req: nat, n: nat)
    requires n <= |s|
    ensures var k := Best(s, req, n);
      && (k == n ==> forall i :: 0 <= i < n ==> !Fits(s[i], req))
      && (k < n ==> Fits(s[k], req)
                    && (forall i :: 0 <= i < n && Fits(s[i], req) ==> s[k].pages <= s[i].pages)
                    && (forall i :: 0 <= i < k && Fits(s[i], req) ==> s[k].pages < s[i].pages))
  {
    if n > 0 { BestIsBest(s, req, n - 1); }
  }

  // ----- the table partitions the heap -----

  ghost predicate Live(r: Info) {
    START <= r.start && r.pages > 0 && r.end == r.start + r.pages && r.end <= LIMIT
  }

  predicate Covers(r: Info, p: int) { r.start <= p < r.end }

  ghost predicate Partition(s: seq<Info>) {
    && (forall i :: 0 <= i < |s| ==> Live(s[i]) || s[i] == DEAD)
    && (forall i, j :: 0 <= i < j < |s| ==> s[i].end <= s[j].start || s[j].end <= s[i].start)
    && (forall p :: START <= p < LIMIT ==> Covered(s, p))
  }

  ghost predicate Covered(s: seq<Info>, p: int) { exists i :: 0 <= i < |s| && Covers(s[i], p) }

  /** Page p lies in an allocated entry. */
  ghost predicate AllocatedAt(s: seq<Info>, p: int) { exists i :: 0 <= i < |s| && !s[i].isFree && Covers(s[i], p) }

  lemma OpenedPartition()
    ensures Partition(Opened([])) && forall p :: !AllocatedAt(Opened([]), p)
  {
    forall p | START <= p < LIMIT ensures Covered(Opened([]), p) { assert Covers(Opened([])[0], p); }
  }

  /** A request of at least one page takes its pages out of the free ones; nothing else changes. */
  lemma AllottedPartition(s: seq<Info>, k: nat, req: nat)
    requires Partition(s) && k < |s| && Fits(s[k], req) && req > 0
    ensures Partition(Allotted(s, k, req))
    ensures forall p :: AllocatedAt(Allotted(s, k, req), p) <==> AllocatedAt(s, p) || s[k].start <= p < s[k].start + req
    ensures forall p :: s[k].start <= p < s[k].start + req ==> !AllocatedAt(s, p)
    ensures START <= s[k].start && s[k].start + req <= LIMIT
  {
    var s' := Allotted(s, k, req);
    var r := s[k];
    assert Live(r);
    assert forall i :: 0 <= i < |s| && i != k ==> s'[i] == s[i];
    forall p | START <= p < LIMIT ensures Covered(s', p) {
      assert Covered(s, p);
      var i :| 0 <= i < |s| && Covers(s[i], p);
      assert i == k ==> Covers(s'[k], p) || Covers(s'[|s'| - 1], p);
      assert i != k ==> Covers(s'[i], p);
    }
    forall p ensures AllocatedAt(s', p) <==> AllocatedAt(s, p) || r.start <= p < r.start + req {
      if AllocatedAt(s, p) {
        var i :| 0 <= i < |s| && !s[i].isFree && Covers(s[i], p);
        assert s'[i] == s[i];
      }
      assert Covers(s'[k], p) <==> r.start <= p < r.start + req;
    }
  }

  /** Two entries of a partition never cover the same page. */
  lemma OneOwner(s: seq<Info>, p: int, i: nat, j: nat)
    requires Partition(s) && i < |s| && j < |s| && Covers(s[i], p) && Covers(s[j], p)
    ensures i == j
  {
  }

  /** Joining a live entry to the free one before it. */
  lemma MergedBackPartition(s: seq<Info>, k: nat)
    requires Partition(s) && k < |s| && Live(s[k])
    ensures Partition(MergedBack(s, k))
    ensures First(s, FreeEndingAt(s[k].start), 0) < |s| ==>
      && MergedBack(s, k)[k] == DEAD
      && forall p :: AllocatedAt(MergedBack(s, k), p) <==> AllocatedAt(s, p) && !Covers(s[k], p)
  {
    var s' := MergedBack(s, k);
    var i := First(s, FreeEndingAt(s[k].start), 0);
    if i < |s| {
      assert s[i].isFree && s[i].end == s[k].start && i != k;
      JoinedPartition(s, s', i, k);
    }
  }

  /** Joining a live entry to the free one after it. */
  lemma MergedOnPartition(s: seq<Info>, k: nat)
    requires Partition(s) && k < |s| && Live(s[k])
    ensures Partition(MergedOn(s, k))
    ensures First(s, FreeStartingAt(s[k].end), 0) < |s| ==>
      forall p :: AllocatedAt(MergedOn(s, k), p) <==> AllocatedAt(s, p) && !Covers(s[k], p)
  {
    var s' := MergedOn(s, k);
    var i := First(s, FreeStartingAt(s[k].end), 0);
    if i < |s| {
      assert s[i].isFree && s[i].start == s[k].end && i != k;
      JoinedPartition(s, s', i, k);
    }
  }

  /** s' is s with the live entry k joined to its free neighbour i. */
  lemma JoinedPartition(s: seq<Info>, s': seq<Info>, i: nat, k: nat)
    requires Partition(s) && i < |s| && k < |s| && i != k && Live(s[k]) && s[i].isFree
    requires |s'| == |s| && s'[k] == DEAD && (forall j :: 0 <= j < |s| && j != i && j != k ==> s'[j] == s[j])
    requires Live(s'[i]) && s'[i].isFree
    requires forall p :: Covers(s'[i], p) <==> Covers(s[i], p) || Covers(s[k], p)
    ensures Partition(s')
    ensures forall p :: AllocatedAt(s', p) <==> AllocatedAt(s, p) && !Covers(s[k], p)
  {
    JoinedApart(s, s', i, k);
    forall p | START <= p < LIMIT ensures Covered(s', p) {
      assert Covered(s, p);
      var j :| 0 <= j < |s| && Covers(s[j], p);
      assert Covers(s'[if j == k then i else j], p);
    }
    forall p ensures AllocatedAt(s', p) <==> AllocatedAt(s, p) && !Covers(s[k], p) {
      if AllocatedAt(s', p) {
        var j :| 0 <= j < |s'| && !s'[j].isFree && Covers(s'[j], p);
        assert j != i && j != k && s'[j] == s[j];
        assert !Covers(s[k], p);
      }
      if AllocatedAt(s, p) && !Covers(s[k], p) {
        var j :| 0 <= j < |s| && !s[j].isFree && Covers(s[j], p);
        assert j != i && j != k && s'[j] == s[j];
      }
    }
  }

  lemma JoinedApart(s: seq<Info>, s': seq<Info>, i: nat, k: nat)
    requires Partition(s) && i < |s| && k < |s| && i != k && Live(s[k]) && s[i].isFree
    requires |s'| == |s| && s'[k] == DEAD && (forall j :: 0 <= j < |s| && j != i && j != k ==> s'[j] == s[j])
    requires Live(s'[i])
    requires forall p :: Covers(s'[i], p) <==> Covers(s[i], p) || Covers(s[k], p)
    ensures forall a, b :: 0 <= a < b < |s'| ==> s'[a].end <= s'[b].start || s'[b].end <= s'[a].start
  {
    forall j | 0 <= j < |s| && j != i && j != k
      ensures s'[j].end <= s'[i].start || s'[i].end <= s'[j].start
    {
      if Live(s[j]) {
        // otherwise the later of the two starts would lie in both
        var p := if s[j].start < s'[i].start then s'[i].start else s[j].start;
        if p < s[j].end && p < s'[i].end {
          assert Covers(s[j], p) && Covers(s'[i], p);
          OneOwner(s, p, j, if Covers(s[i], p) then i else k);
        }
      }
    }
  }

  /** Freeing a live entry takes exactly its pages out of the allocated ones. */
  lemma FreedPartition(s: seq<Info>, k: nat)
    requires Partition(s) && k < |s| && Live(s[k])
    ensures Partition(Freed(s, k))
    ensures forall p :: AllocatedAt(Freed(s, k), p) <==> AllocatedAt(s, p) && !Covers(s[k], p)
  {
    MergedBackPartition(s, k);
    var s1 := MergedBack(s, k);
    if First(s, FreeEndingAt(s[k].start), 0) < |s| {
      DeadJoinsNothing(s1, k);
    } else {
      MergedOnPartition(s, k);
      if First(s, FreeStartingAt(s[k].end), 0) == |s| { MarkedPartition(s, k); }
    }
  }

  lemma DeadJoinsNothing(s: seq<Info>, k: nat)
    requires Partition(s) && k < |s| && s[k] == DEAD
    ensures First(s, FreeEndingAt(s[k].start), 0) == |s| && First(s, FreeStartingAt(s[k].end), 0) == |s|
  {
  }

  lemma MarkedPartition(s: seq<Info>, k: nat)
    requires Partition(s) && k < |s| && Live(s[k])
    ensures Partition(s[k := s[k].(isFree := true)])
    ensures forall p :: AllocatedAt(s[k := s[k].(isFree := true)], p) <==> AllocatedAt(s, p) && !Covers(s[k], p)
  {
    var s' := s[k := s[k].(isFree := true)];
    forall p | START <= p < LIMIT ensures Covered(s', p) {
      assert Covered(s, p);
      var j :| 0 <= j < |s| && Covers(s[j], p);
      assert Covers(s'[j], p);
    }
    forall p ensures AllocatedAt(s', p) <==> AllocatedAt(s, p) && !Covers(s[k], p) {
      if AllocatedAt(s', p) {
        var j :| 0 <= j < |s'| && !s'[j].isFree && Covers(s'[j], p);
        assert s'[j] == s[j];
      }
      if AllocatedAt(s, p) && !Covers(s[k], p) {
        var j :| 0 <= j < |s| && !s[j].isFree && Covers(s[j], p);
        assert s'[j] == s[j];
      }
    }
  }

  // ----- heap and page file stay in step -----

  /** The table is unused or partitions the heap into non-empty intervals. */
  ghost predicate Whole(h: Heap) { h.records == [] || Partition(h.records) }

  /** The filed pages are exactly the allocated ones. */
  ghost predicate FiledRight(h: Heap) { forall p :: p in h.filed <==> AllocatedAt(h.records, p) }

  ghost predicate InStep(h: Heap) { Whole(h) && FiledRight(h) }

  /**
   * malloc always files exactly what it allocates. It keeps the table a partition if and only if the
   * size rounds up to at least one page, that is for sizes 1 to 0xFFFFF000, or nothing is free: a
   * request of no pages makes an empty entry.
   */
  lemma MallocInStepIff(h: Heap, size: nat)
    requires InStep(h) && size < 0x1_0000_0000
    ensures FiledRight(Malloced(h, size).0)
    ensures Whole(Malloced(h, size).0) <==>
              1 <= size <= 0xFFFF_F000 || (h.records != [] && forall i :: 0 <= i < |h.records| ==> !h.records[i].isFree)
  {
    var s := Opened(h.records);
    var req := RequestPages(size);
    var k := Best(s, req, |s|);
    OpenedPartition();
    assert Partition(s) && forall p :: AllocatedAt(s, p) <==> AllocatedAt(h.records, p);
    assert req > 0 <==> 1 <= size <= 0xFFFF_F000;
    hide Partition, AllocatedAt, Best, BestFit, RequestPages, Allotted;
    BestGives(s, req);
    if k < |s| && req > 0 {
      AllottedPartition(s, k, req);
    } else if k < |s| {
      EmptyBreaks(s, k);
    } else {
      AllFreeFit(s);
    }
  }

  lemma EmptyBreaks(s: seq<Info>, k: nat)
    requires Partition(s) && k < |s| && Fits(s[k], 0)
    ensures !Partition(Allotted(s, k, 0)) && Allotted(s, k, 0) != [] && s[k].isFree
    ensures forall p :: AllocatedAt(Allotted(s, k, 0), p) <==> AllocatedAt(s, p)
  {
    var s' := Allotted(s, k, 0);
    assert Live(s[k]);
    assert s'[k].pages == 0;
    forall p ensures AllocatedAt(s', p) <==> AllocatedAt(s, p) {
      if AllocatedAt(s, p) {
        var i :| 0 <= i < |s| && !s[i].isFree && Covers(s[i], p);
        assert s'[i] == s[i];
      }
      if AllocatedAt(s', p) {
        var i :| 0 <= i < |s'| && !s'[i].isFree && Covers(s'[i], p);
        assert i != k && i < |s| && s'[i] == s[i];
      }
    }
  }

  lemma AllFreeFit(s: seq<Info>)
    requires Partition(s)
    ensures forall i :: 0 <= i < |s| && s[i].isFree ==> IsFree(s[i], 0)
  {
  }

  /** In a partition a free entry fits a request of no pages. */
  lemma FreeFits(s: seq<Info>)
    requires Partition(s)
    ensures forall i, req: nat :: 0 <= i < |s| && s[i].isFree && req <= s[i].pages ==> Fits(s[i], req)
  {
  }

  predicate IsFree(r: Info, req: nat) { r.isFree && r.pages >= req }

  /** Entry k is the smallest free entry of at least req pages, and the first of that size. */
  ghost predicate BestFit(s: seq<Info>, req: nat, k: nat) {
    && k < |s| && IsFree(s[k], req)
    && forall i :: 0 <= i < |s| && IsFree(s[i], req) ==> s[k].pages <= s[i].pages && (i < k ==> s[k].pages < s[i].pages)
  }

  lemma BestGives(s: seq<Info>, req: nat)
    requires Partition(s)
    ensures var k := Best(s, req, |s|);
      if k < |s| then BestFit(s, req, k) && Fits(s[k], req) else forall i :: 0 <= i < |s| ==> !IsFree(s[i], req)
  {
    BestIsBest(s, req, |s|);
    FreeFits(s);
    hide Partition, Best;
  }

  /**
   * What malloc gives for a size of 1 to 0xFFFFF000 bytes: NULL exactly when no free entry is large
   * enough, else the start of the best fit, whose first pages were not filed and now are.
   */
  lemma MallocGives(h: Heap, size: nat)
    requires InStep(h) && 1 <= size <= 0xFFFF_F000
    ensures var (h', p) := Malloced(h, size);
      var (s, req) := (Opened(h.records), RequestPages(size));
      && size <= req * 4096 < size + 4096
      && (p == 0 <==> forall i :: 0 <= i < |s| ==> !IsFree(s[i], req))
      && (p == 0 ==> h' == h.(records := s))
      && (p != 0 ==> START <= p && p + req <= LIMIT && h'.filed == h.filed + Range(p, req) && h.filed !! Range(p, req))
      && (p != 0 ==> exists k: nat :: BestFit(s, req, k) && s[k].start == p)
  {
    var s := Opened(h.records);
    var req := RequestPages(size);
    OpenedPartition();
    assert Partition(s) && forall p :: AllocatedAt(s, p) <==> AllocatedAt(h.records, p);
    assert size <= req * 4096 < size + 4096;
    hide Partition, AllocatedAt, Best, Opened, BestFit, RequestPages, Allotted;
    BestGives(s, req);
    var k := Best(s, req, |s|);
    if k < |s| {
      AllottedPartition(s, k, req);
      assert BestFit(s, req, k);
    }
  }

  /**
   * Only free(0) meeting a merged-away entry, which starts at 0 and has length -1, breaks anything:
   * the entry becomes free, so the table is no partition any more, and every page of the program
   * leaves the page file, so the filed pages are wrong too unless nothing is allocated.
   */
  lemma FreeInStepIff(h: Heap, va: int)
    requires InStep(h)
    ensures Whole(Released(h, va)) <==> va != 0 || DEAD !in h.records
    ensures FiledRight(Released(h, va)) <==> va != 0 || DEAD !in h.records || h.filed == {}
  {
    var k := Found(h, va);
    if k < |h.records| {
      var r := h.records[k];
      if va != 0 {
        FreeRange(r);
        FreedPartition(h.records, k);
      } else {
        FreeOfDead(h, k);
      }
    } else if va == 0 {
      assert forall j :: 0 <= j < |h.records| ==> h.records[j].start * 4096 != 0;
    }
  }

  lemma FreeRange(r: Info)
    requires Live(r)
    ensures forall p :: p in Range(r.start, ReleasePages(r.pages)) <==> Covers(r, p)
  {
  }

  lemma FreeOfDead(h: Heap, k: nat)
    requires InStep(h) && k < |h.records| && h.records[k].start == 0 && k == Found(h, 0)
    ensures h.records[k] == DEAD && !Whole(Released(h, 0)) && Released(h, 0).filed == {}
    ensures FiledRight(Released(h, 0)) <==> h.filed == {}
  {
    hide Freed, AllocatedAt, Found;
    DeadMarked(h.records, k);
    AllocatedPages(h.records);
    assert ReleasePages(-1) == 0xF_FFFF;
    assert h.records[k] == DEAD;
    assert Released(h, 0).filed == {} by {
      assert forall p :: p in h.filed ==> p in Range(0, 0xF_FFFF);
    }
    if h.filed != {} {
      var p :| p in h.filed;
      assert AllocatedAt(Released(h, 0).records, p);
    }
    assert Released(h, 0).records[k] == DEAD.(isFree := true);
  }

  /** No neighbour of a dead entry is found, so free marks the entry itself. */
  lemma DeadMarked(s: seq<Info>, k: nat)
    requires Partition(s) && k < |s| && s[k].start == 0
    ensures s[k] == DEAD && Freed(s, k) == s[k := DEAD.(isFree := true)]
    ensures forall p :: AllocatedAt(Freed(s, k), p) <==> AllocatedAt(s, p)
  {
    assert s[k] == DEAD;
    DeadJoinsNothing(s, k);
    var s' := s[k := DEAD.(isFree := true)];
    assert Freed(s, k) == s';
    hide Freed;
    forall p ensures AllocatedAt(s', p) <==> AllocatedAt(s, p) {
      if AllocatedAt(s, p) {
        var i :| 0 <= i < |s| && !s[i].isFree && Covers(s[i], p);
        assert s'[i] == s[i];
      }
      if AllocatedAt(s', p) {
        var i :| 0 <= i < |s'| && !s'[i].isFree && Covers(s'[i], p);
        assert s'[i] == s[i];
      }
    }
  }

  lemma AllocatedPages(s: seq<Info>)
    requires s == [] || Partition(s)
    ensures forall p :: AllocatedAt(s, p) ==> START <= p < LIMIT
  {
  }

  /** A successful free removes exactly the freed interval from the allocated pages. */
  lemma FreeTakes(h: Heap, va: int)
    requires InStep(h) && va != 0
    ensures var (h', k) := (Released(h, va), Found(h, va));
      && (k == |h.records| ==> h' == h && forall i :: 0 <= i < |h.records| ==> h.records[i].start * 4096 != va)
      && (k < |h.records| ==> Live(h.records[k]) && h.records[k].start * 4096 == va
                              && h'.filed == h.filed - Range(h.records[k].start, h.records[k].pages))
  {
    var k := Found(h, va);
    if k < |h.records| {
      assert Live(h.records[k]);
    }
  }

  datatype Call = Malloc(size: nat) | Free(va: int)

  function Called(h: Heap, c: Call): Heap {
    match c case Malloc(size) => Malloced(h, size).0 case Free(va) => Released(h, va)
  }

  function AfterCalls(h: Heap, cs: seq<Call>): Heap
    decreases |cs|
  {
    if cs == [] then h else AfterCalls(Called(h, cs[0]), cs[1..])
  }

  predicate Proper(c: Call) {
    match c case Malloc(size) => 1 <= size <= 0xFFFF_F000 case Free(va) => va != 0
  }

  /** After every run of malloc and free the entries partition the heap and the page file holds what is allocated. */
  lemma {:induction false} RunStaysInStep(h: Heap, cs: seq<Call>)
    requires InStep(h) && forall i :: 0 <= i < |cs| ==> Proper(cs[i])
    ensures InStep(AfterCalls(h, cs))
    decreases |cs|
  {
    if cs != [] {
      assert Proper(cs[0]);
      match cs[0] {
        case Malloc(size) => MallocInStepIff(h, size);
        case Free(va) => FreeInStepIff(h, va);
      }
      hide InStep, Called;
      RunStaysInStep(Called(h, cs[0]), cs[1..]);
    }
  }

  /** Two allocations, the second freed again, then free(0): the page file loses the first one's page. */
  lemma FreeNullLosesPages() returns (h: Heap, cs: seq<Call>)
    ensures h == AfterCalls(Heap([], {}), cs) && InStep(h) && forall i :: 0 <= i < |cs| ==> Proper(cs[i])
    ensures AllocatedAt(h.records, START) && START in h.filed
    ensures var h' := Called(h, Free(0)); !InStep(h') && AllocatedAt(h'.records, START) && START !in h'.filed
  {
    cs := [Malloc(1), Malloc(1), Free(0x8000_1000)];
    var h0 := Heap([], {});
    RunStaysInStep(h0, cs);
    h := Called(Called(Called(h0, cs[0]), cs[1]), cs[2]);
    TwoMallocs();
    TwoThenFree(Called(Called(h0, cs[0]), cs[1]));
    assert cs[1..] == [Malloc(1), Free(0x8000_1000)] && cs[1..][1..] == [Free(0x8000_1000)];
    hide Called, InStep;
    assert AfterCalls(h0, cs) == h;
    FreeNullAfter(h);
  }

  lemma FreeNullAfter(h: Heap)
    requires InStep(h) && h.records == [Info(START, START + 1, 1, false), DEAD, Info(START + 1, LIMIT, NUM_PAGES - 1, true)]
    ensures AllocatedAt(h.records, START) && START in h.filed
    ensures var h' := Called(h, Free(0)); !InStep(h') && AllocatedAt(h'.records, START) && START !in h'.filed
  {
    assert First(h.records, StartsAt(0), 1) == 1;
    assert Found(h, 0) == 1;
    FreeOfDead(h, 1);
    assert Covers(h.records[0], START);
    DeadJoinsNothing(h.records, 1);
    assert Called(h, Free(0)).records[0] == h.records[0];
  }

  lemma TwoMallocs()
    ensures Called(Called(Heap([], {}), Malloc(1)), Malloc(1)).records ==
            [Info(START, START + 1, 1, false), Info(START + 1, START + 2, 1, false), Info(START + 2, LIMIT, NUM_PAGES - 2, true)]
  {
    FirstMalloc();
    SecondMalloc(Called(Heap([], {}), Malloc(1)));
    hide Called;
  }

  lemma FirstMalloc()
    ensures Called(Heap([], {}), Malloc(1)).records ==
            [Info(START, START + 1, 1, false), Info(START + 1, LIMIT, NUM_PAGES - 1, true)]
  {
    hide Range;
    var s := [Info(START, LIMIT, NUM_PAGES, true)];
    assert Opened([]) == s && RequestPages(1) == 1;
    assert Fits(s[0], 1) && Best(s, 1, 0) == 0;
    assert Best(s, 1, 1) == 0;
    assert Allotted(s, 0, 1) == [Info(START, START + 1, 1, false), Info(START + 1, LIMIT, NUM_PAGES - 1, true)];
  }

  lemma SecondMalloc(h: Heap)
    requires h.records == [Info(START, START + 1, 1, false), Info(START + 1, LIMIT, NUM_PAGES - 1, true)]
    ensures Called(h, Malloc(1)).records ==
            [Info(START, START + 1, 1, false), Info(START + 1, START + 2, 1, false), Info(START + 2, LIMIT, NUM_PAGES - 2, true)]
  {
    hide Range;
    assert RequestPages(1) == 1;
    assert Best(h.records, 1, 0) == 0;
    assert Best(h.records, 1, 1) == 1;
    assert Best(h.records, 1, 2) == 1;
  }

  lemma TwoThenFree(h: Heap)
    requires h.records == [Info(START, START + 1, 1, false), Info(START + 1, START + 2, 1, false), Info(START + 2, LIMIT, NUM_PAGES - 2, true)]
    ensures Released(h, 0x8000_1000).records == [Info(START, START + 1, 1, false), DEAD, Info(START + 1, LIMIT, NUM_PAGES - 1, true)]
  {
    var s := h.records;
    assert First(s, StartsAt(0x8000_1000), 1) == 1;
    var q := FreeEndingAt(START + 1);
    assert First(s, q, 3) == 3 && First(s, q, 2) == 3 && First(s, q, 1) == 3 && First(s, q, 0) == 3;
    var t := FreeStartingAt(START + 2);
    assert First(s, t, 2) == 2 && First(s, t, 1) == 2 && First(s, t, 0) == 2;
  }

  // ----- the system calls do to the page file what the model says -----

  ghost predicate FiledAre(k: K.Kernel, e: K.EnvId, filed: set<int>) {
    forall p: TwoLists.Page :: START <= p < LIMIT ==> ((e, p) in k.pf <==> p in filed)
  }

  lemma AllocateMemFiles(l: TwoLists.Lists, k: K.Kernel, e: K.EnvId, filed: set<int>, p: TwoLists.Page, n: nat)
    requires Paging.Owned(k) && Paging.EnvOk(l, k, e) && FiledAre(k, e, filed)
    requires START <= p && p + n <= LIMIT && M.AllocateMem(k, e, p, n).Ok?
    ensures FiledAre(M.AllocateMem(k, e, p, n).value, e, filed + Range(p, n))
  {
    M.AllocateMemKeeps(map[], l, k, e, p, n);
  }

  lemma FreeMemUnfiles(l: TwoLists.Lists, k: K.Kernel, e: K.EnvId, filed: set<int>, p: TwoLists.Page, n: nat)
    requires Paging.Owned(k) && Paging.EnvOk(l, k, e) && FiledAre(k, e, filed)
    ensures FiledAre(M.FreeMem(l, k, e, p, n).1, e, filed - Range(p, n))
  {
    M.FreeMemKeeps(map[], l, k, e, p, n);
  }
}
