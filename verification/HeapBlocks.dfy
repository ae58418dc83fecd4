/**
 * The heap's table seen as blocks: what free joins, what malloc splits, and when free blocks lie next
 * to each other.
 */
module HeapBlocks {
  import opened UserHeap

  ghost predicate FreeAt(s: seq<Info>, i: nat) { i < |s| && s[i].isFree }

  /** Entry i is free and ends where entry k starts. */
  ghost predicate Before(s: seq<Info>, i: nat, k: nat) { FreeAt(s, i) && k < |s| && s[i].end == s[k].start }

  /** Entry i is free and starts where entry k ends. */
  ghost predicate Behind(s: seq<Info>, i: nat, k: nat) { FreeAt(s, i) && k < |s| && s[i].start == s[k].end }

  // ----- free -----

  /**
   * The table after the live entry k is freed. If a free entry ends where it starts, that one now
   * reaches to its end and entry k is dead, whatever follows. Otherwise, if a free entry starts where
   * it ends, that one now starts where entry k did. Otherwise entry k alone becomes free. No other
   * entry changes.
   */
  lemma FreedIs(s: seq<Info>, k: nat)
    requires Partition(s) && k < |s| && Live(s[k])
    ensures forall i: nat :: Before(s, i, k) ==>
      Freed(s, k) == s[i := Info(s[i].start, s[k].end, s[k].end - s[i].start, true)][k := DEAD]
    ensures forall i: nat :: Behind(s, i, k) && (forall j: nat :: !Before(s, j, k)) ==>
      Freed(s, k) == s[i := Info(s[k].start, s[i].end, s[i].end - s[k].start, true)][k := DEAD]
    ensures (forall i: nat :: !Before(s, i, k) && !Behind(s, i, k)) ==>
      Freed(s, k) == s[k := Info(s[k].start, s[k].end, s[k].end - s[k].start, true)]
  {
    forall i: nat | Before(s, i, k)
      ensures Freed(s, k) == s[i := Info(s[i].start, s[k].end, s[k].end - s[i].start, true)][k := DEAD]
    {
      JoinsBefore(s, k, i);
    }
    if forall j: nat :: !Before(s, j, k) {
      NoneBefore(s, k);
      forall i: nat | Behind(s, i, k)
        ensures Freed(s, k) == s[i := Info(s[k].start, s[i].end, s[i].end - s[k].start, true)][k := DEAD]
      {
        JoinsBehind(s, k, i);
      }
      if forall i: nat :: !Behind(s, i, k) { JoinsNone(s, k); }
    }
  }

  /** The search for a free entry that ends where k starts finds it; no two free entries end alike. */
  lemma FindsBefore(s: seq<Info>, k: nat, i: nat)
    requires Partition(s) && k < |s| && Before(s, i, k)
    ensures First(s, FreeEndingAt(s[k].start), 0) == i && i != k && s[i].end == s[i].start + s[i].pages
  {
    var j := First(s, FreeEndingAt(s[k].start), 0);
    assert FreeEndingAt(s[k].start)(s[i]);
    assert Live(s[i]) && Live(s[j]);
  }

  lemma FindsBehind(s: seq<Info>, k: nat, i: nat)
    requires Partition(s) && k < |s| && Behind(s, i, k)
    ensures First(s, FreeStartingAt(s[k].end), 0) == i && i != k && s[i].end == s[i].start + s[i].pages
  {
    var j := First(s, FreeStartingAt(s[k].end), 0);
    assert FreeStartingAt(s[k].end)(s[i]);
    assert Live(s[i]) && Live(s[j]);
  }

  lemma Length(r: Info)
    requires Live(r)
    ensures r.pages == r.end - r.start
  {
  }

  lemma JoinsBefore(s: seq<Info>, k: nat, i: nat)
    requires Partition(s) && k < |s| && Live(s[k]) && Before(s, i, k)
    ensures Freed(s, k) == s[i := Info(s[i].start, s[k].end, s[k].end - s[i].start, true)][k := DEAD]
  {
    FindsBefore(s, k, i);
    MergedBackPartition(s, k);
    DeadJoinsNothing(MergedBack(s, k), k);
    hide Partition, First;
  }

  lemma NoneBefore(s: seq<Info>, k: nat)
    requires k < |s| && forall j: nat :: !Before(s, j, k)
    ensures First(s, FreeEndingAt(s[k].start), 0) == |s| && MergedBack(s, k) == s
  {
    var j := First(s, FreeEndingAt(s[k].start), 0);
    if j < |s| { assert Before(s, j, k); }
  }

  lemma JoinsBehind(s: seq<Info>, k: nat, i: nat)
    requires Partition(s) && k < |s| && Live(s[k]) && Behind(s, i, k)
    requires First(s, FreeEndingAt(s[k].start), 0) == |s| && MergedBack(s, k) == s
    ensures Freed(s, k) == s[i := Info(s[k].start, s[i].end, s[i].end - s[k].start, true)][k := DEAD]
  {
    hide Partition, First, FreeStartingAt, FreeEndingAt, Live;
    FindsBehind(s, k, i);
    Length(s[k]);
    assert MergedOn(s, k) == s[i := Info(s[k].start, s[i].end, s[i].end - s[k].start, true)][k := DEAD];
  }

  lemma JoinsNone(s: seq<Info>, k: nat)
    requires k < |s| && Live(s[k]) && forall i: nat :: !Behind(s, i, k)
    requires First(s, FreeEndingAt(s[k].start), 0) == |s| && MergedBack(s, k) == s
    ensures Freed(s, k) == s[k := Info(s[k].start, s[k].end, s[k].end - s[k].start, true)]
  {
    var j := First(s, FreeStartingAt(s[k].end), 0);
    if j < |s| { assert Behind(s, j, k); }
  }

  // ----- free blocks side by side -----

  /** No free entry ends where another starts. */
  ghost predicate Coalesced(s: seq<Info>) {
    forall i: nat, j: nat :: FreeAt(s, i) && FreeAt(s, j) ==> s[i].end != s[j].start
  }

  /**
   * free joins a block with one neighbour at most: it keeps free blocks apart from each other if and
   * only if it is not between two of them.
   */
  lemma FreeKeepsApartIff(s: seq<Info>, k: nat)
    requires Partition(s) && k < |s| && Live(s[k]) && !s[k].isFree && Coalesced(s)
    ensures Coalesced(Freed(s, k)) <==> (forall i: nat, j: nat :: !(Before(s, i, k) && Behind(s, j, k)))
  {
    hide Freed, Partition, Live;
    FreedIs(s, k);
    if i: nat :| Before(s, i, k) {
      AfterBefore(s, k, i);
    } else if i: nat :| Behind(s, i, k) {
      AfterBehind(s, k, i);
    } else {
      AfterNone(s, k);
    }
  }

  lemma AfterBefore(s: seq<Info>, k: nat, i: nat)
    requires Partition(s) && k < |s| && Live(s[k]) && !s[k].isFree && Coalesced(s) && Before(s, i, k)
    ensures var s' := s[i := Info(s[i].start, s[k].end, s[k].end - s[i].start, true)][k := DEAD];
      Coalesced(s') <==> (forall i: nat, j: nat :: !(Before(s, i, k) && Behind(s, j, k)))
  {
    var s' := s[i := Info(s[i].start, s[k].end, s[k].end - s[i].start, true)][k := DEAD];
    assert Live(s[i]);
    forall j: nat ensures FreeAt(s', j) <==> FreeAt(s, j) { }
    forall j: nat ensures Behind(s, j, k) <==> FreeAt(s', j) && s'[j].start == s'[i].end {
      if FreeAt(s, j) { assert Live(s[j]); }
    }
    if j: nat :| Behind(s, j, k) { assert FreeAt(s', i) && FreeAt(s', j); }
  }

  lemma AfterBehind(s: seq<Info>, k: nat, i: nat)
    requires Partition(s) && k < |s| && Live(s[k]) && !s[k].isFree && Coalesced(s) && Behind(s, i, k)
    requires forall j: nat :: !Before(s, j, k)
    ensures Coalesced(s[i := Info(s[k].start, s[i].end, s[i].end - s[k].start, true)][k := DEAD])
  {
    var s' := s[i := Info(s[k].start, s[i].end, s[i].end - s[k].start, true)][k := DEAD];
    assert Live(s[i]);
    forall j: nat ensures FreeAt(s', j) <==> FreeAt(s, j) { }
    forall j: nat | FreeAt(s, j) ensures s[j].end != s[k].start { assert !Before(s, j, k); }
  }

  lemma AfterNone(s: seq<Info>, k: nat)
    requires k < |s| && Live(s[k]) && Coalesced(s) && forall i: nat :: !Before(s, i, k) && !Behind(s, i, k)
    ensures Coalesced(s[k := Info(s[k].start, s[k].end, s[k].end - s[k].start, true)])
  {
    var s' := s[k := Info(s[k].start, s[k].end, s[k].end - s[k].start, true)];
    forall i: nat, j: nat | FreeAt(s', i) && FreeAt(s', j) ensures s'[i].end != s'[j].start {
      if i != k { assert FreeAt(s, i) && !Before(s, i, k); }
      if j != k { assert FreeAt(s, j) && !Behind(s, j, k); }
    }
  }

  /** malloc keeps free blocks apart. */
  lemma MallocKeepsApart(h: Heap, size: nat)
    requires InStep(h) && 1 <= size <= 0xFFFF_F000 && Coalesced(h.records)
    ensures Coalesced(Malloced(h, size).0.records)
  {
    var s := Opened(h.records);
    var req := RequestPages(size);
    var k := Best(s, req, |s|);
    OpenedPartition();
    assert Partition(s) && Coalesced(s);
    hide Partition, Best, RequestPages;
    BestGives(s, req);
    if k < |s| { AllottedApart(s, k, req); }
  }

  lemma AllottedApart(s: seq<Info>, k: nat, req: nat)
    requires Partition(s) && k < |s| && Fits(s[k], req) && Coalesced(s)
    ensures Coalesced(Allotted(s, k, req))
  {
    var s' := Allotted(s, k, req);
    assert Live(s[k]);
    forall i: nat, j: nat | FreeAt(s', i) && FreeAt(s', j) ensures s'[i].end != s'[j].start {
      Comes(s, k, req, i);
      Comes(s, k, req, j);
    }
  }

  /** A free entry after the split was free before, or is the rest of entry k. */
  lemma Comes(s: seq<Info>, k: nat, req: nat, i: nat)
    requires Partition(s) && k < |s| && Fits(s[k], req) && FreeAt(Allotted(s, k, req), i)
    ensures var r := Allotted(s, k, req)[i];
      (i < |s| && i != k && FreeAt(s, i) && r == s[i] && Live(r))
      || (i == |s| && FreeAt(s, k) && r.start == s[k].start + req && r.end == s[k].end && r.start < r.end)
  {
    assert Live(s[k]);
  }

  // ----- what malloc splits -----

  /** The free blocks, as intervals. */
  ghost function FreeBlocks(s: seq<Info>): set<(int, int)> { set r | r in s && r.isFree :: (r.start, r.end) }

  ghost function UsedBlocks(s: seq<Info>): set<(int, int)> { set r | r in s && !r.isFree && r != DEAD :: (r.start, r.end) }

  /**
   * malloc makes its pages one used block and leaves the rest of the best fit one free block; every
   * other block, free or used, stays.
   */
  lemma MallocBlocks(h: Heap, size: nat) returns (k: nat)
    requires InStep(h) && 1 <= size <= 0xFFFF_F000 && Malloced(h, size).1 != 0
    ensures var (h', p) := Malloced(h, size);
      var (s, req) := (Opened(h.records), RequestPages(size));
      && BestFit(s, req, k) && p == s[k].start
      && UsedBlocks(h'.records) == UsedBlocks(s) + {(p, p + req)}
      && FreeBlocks(h'.records) == FreeBlocks(s) - {(p, s[k].end)} + (if p + req < s[k].end then {(p + req, s[k].end)} else {})
  {
    var s := Opened(h.records);
    var req := RequestPages(size);
    k := Best(s, req, |s|);
    OpenedPartition();
    assert Partition(s);
    hide Partition, Best, RequestPages;
    BestGives(s, req);
    AllottedBlocks(s, k, req);
  }

  lemma AllottedBlocks(s: seq<Info>, k: nat, req: nat)
    requires Partition(s) && k < |s| && Fits(s[k], req) && req > 0
    ensures var (s', p) := (Allotted(s, k, req), s[k].start);
      && UsedBlocks(s') == UsedBlocks(s) + {(p, p + req)}
      && FreeBlocks(s') == FreeBlocks(s) - {(p, s[k].end)} + (if p + req < s[k].end then {(p + req, s[k].end)} else {})
  {
    var (s', p) := (Allotted(s, k, req), s[k].start);
    assert Live(s[k]);
    forall x ensures x in UsedBlocks(s') <==> x in UsedBlocks(s) || x == (p, p + req) { UsedAfter(s, k, req, x); }
    forall x ensures x in FreeBlocks(s') <==>
      (x in FreeBlocks(s) && x != (p, s[k].end)) || (p + req < s[k].end && x == (p + req, s[k].end))
    {
      FreeAfter(s, k, req, x);
    }
  }

  ghost predicate UsedAt(s: seq<Info>, i: nat, x: (int, int)) {
    i < |s| && !s[i].isFree && s[i] != DEAD && x == (s[i].start, s[i].end)
  }

  lemma UsedSomewhere(s: seq<Info>, x: (int, int))
    ensures x in UsedBlocks(s) <==> exists i: nat :: UsedAt(s, i, x)
  {
    if x in UsedBlocks(s) {
      var r :| r in s && !r.isFree && r != DEAD && x == (r.start, r.end);
      var i: nat :| i < |s| && s[i] == r;
      assert UsedAt(s, i, x);
    }
  }

  lemma UsedAfter(s: seq<Info>, k: nat, req: nat, x: (int, int))
    requires Partition(s) && k < |s| && Fits(s[k], req) && req > 0
    ensures x in UsedBlocks(Allotted(s, k, req)) <==> x in UsedBlocks(s) || x == (s[k].start, s[k].start + req)
  {
    assert Live(s[k]);
    hide Partition, UsedBlocks;
    var s' := Allotted(s, k, req);
    UsedSomewhere(s, x);
    UsedSomewhere(s', x);
    forall i: nat ensures UsedAt(s', i, x) <==> (if i == k then x == (s[k].start, s[k].start + req) else UsedAt(s, i, x)) { }
    assert !UsedAt(s, k, x);
  }

  lemma FreeAfter(s: seq<Info>, k: nat, req: nat, x: (int, int))
    requires Partition(s) && k < |s| && Fits(s[k], req) && req > 0
    ensures x in FreeBlocks(Allotted(s, k, req)) <==>
      (x in FreeBlocks(s) && x != (s[k].start, s[k].end)) || (s[k].start + req < s[k].end && x == (s[k].start + req, s[k].end))
  {
    var s' := Allotted(s, k, req);
    assert Live(s[k]);
    assert forall i: nat :: i < |s| && i != k ==> s'[i] == s[i];
    if x in FreeBlocks(s) && x != (s[k].start, s[k].end) {
      var r :| r in s && r.isFree && x == (r.start, r.end);
      var i: nat :| i < |s| && s[i] == r;
      assert s'[i] in s';
    }
    if s[k].pages != req { assert s'[|s|] in s'; }
    if x in FreeBlocks(s') {
      var r :| r in s' && r.isFree && x == (r.start, r.end);
      var i: nat :| i < |s'| && s'[i] == r;
      Comes(s, k, req, i);
      if i < |s| { assert s[i] in s; }
    }
  }

  // ----- free, then malloc -----

  /**
   * After a free, a malloc of the length of the free block the freed one is now in succeeds without
   * splitting anything: it returns the first free block of exactly that length, the joined one itself
   * if there is no other of that length.
   */
  lemma FreeThenMalloc(h: Heap, va: int, j: nat)
    requires InStep(h) && va != 0 && Found(h, va) < |h.records|
    requires var s' := Released(h, va).records; FreeAt(s', j) && Covers(s'[j], h.records[Found(h, va)].start)
    ensures var (h', r) := (Released(h, va), Released(h, va).records[j]);
      var p := Malloced(h', r.pages * 4096).1;
      && p != 0
      && (exists i: nat :: i <= j && FreeAt(h'.records, i) && h'.records[i].pages == r.pages && h'.records[i].start == p)
      && ((forall i: nat :: FreeAt(h'.records, i) && h'.records[i].pages == r.pages ==> i == j) ==> p == r.start)
  {
    var h' := Released(h, va);
    var (s, r) := (h'.records, h'.records[j]);
    FreeInStepIff(h, va);
    assert Partition(s) && Live(r) && Opened(s) == s;
    var size := r.pages * 4096;
    assert RequestPages(size) == r.pages;
    BestGives(s, r.pages);
    var k := Best(s, r.pages, |s|);
    assert IsFree(r, r.pages);
    assert k < |s| && Live(s[k]);
    assert s[k].pages == r.pages && k <= j && FreeAt(s, k);
  }
}
