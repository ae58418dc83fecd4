/**
 * How env_create assembles the page file images of a segment's file part: a first page, the whole
 * pages between, and a last page, the first and the last put together in one temporary page; and
 * whether the bytes of a program of several segments all arrive.
 */
module SegmentImage {
  import opened TwoLists
  import opened KernelState
  import opened EnvCreate

  /** The bytes from the segment's start in the program file on, its own and whatever follows. */
  type Source = nat -> byte

  /** Zeros but for n bytes of src, from position from on, at position at. */
  function Assembled(src: Source, from: nat, at: nat, n: nat): (s: PageData)
    ensures forall o :: 0 <= o < 4096 ==> s[o] == if at <= o < at + n then src(from + o - at) else 0
  {
    seq(4096, o requires 0 <= o => if at <= o < at + n then src(from + o - at) else 0)
  }

  /** Where src_ptr stands when the last page is assembled. */
  function LastFrom(va: nat, size: nat): nat {
    (if Ceil(va) <= Floor(va + size) then Floor(va + size) else Ceil(va)) * 4096 - va
  }

  /** What page p of the file part ends up with; the last page is written last. */
  function PageOf(src: Source, va: nat, size: nat, p: nat): PageData {
    if p == Floor(va + size) then Assembled(src, LastFrom(va, size), 0, (va + size) % 4096)
    else if p >= Ceil(va) then Assembled(src, p * 4096 - va, 0, 4096)
    else Assembled(src, 0, va % 4096, Ceil(va) * 4096 - va)
  }

  ghost predicate Written(disk: map<nat, PageData>, src: Source, va: nat, size: nat) {
    && (forall p: nat :: p in disk <==> Floor(va) <= p <= Floor(va + size))
    && (forall p: nat :: p in disk ==> disk[p] == PageOf(src, va, size, p))
  }

  /** memset of the temporary page, then the byte loop. */
  method Assemble(temp: array<byte>, src: Source, from: nat, at: nat, n: nat)
    requires temp.Length == 4096 && at + n <= 4096
    modifies temp
    ensures temp[..] == Assembled(src, from, at, n)
  {
    for i := 0 to 4096
      invariant forall o :: 0 <= o < i ==> temp[o] == 0
    {
      temp[i] := 0;
    }
    for i := 0 to n
      invariant forall o :: 0 <= o < 4096 ==> temp[o] == if at <= o < at + i then src(from + o - at) else 0
    {
      temp[at + i] := src(from + i);
    }
  }

  /** The three parts of the loop body of env_create that write the file part, whatever it holds. */
  method WriteFilePart(src: Source, va: nat, size: nat) returns (disk: map<nat, PageData>)
    ensures Written(disk, src, va, size)
  {
    Bounds(va, size);
    hide Floor, Ceil, Assembled;
    var temp := new byte[4096](_ => 0);
    var last, srcAt := Floor(va + size), Ceil(va) * 4096 - va;
    Assemble(temp, src, 0, va % 4096, srcAt);
    disk := map[Floor(va) := temp[..]];
    var p := Ceil(va);
    while p < last
      invariant Ceil(va) <= p && (p <= last || p == Ceil(va)) && srcAt == p * 4096 - va
      invariant forall q: nat :: q in disk <==> q == Floor(va) || Ceil(va) <= q < p
      invariant forall q: nat :: q in disk && Ceil(va) <= q < p ==> disk[q] == Assembled(src, q * 4096 - va, 0, 4096)
      invariant forall q: nat :: q in disk && !(Ceil(va) <= q < p) ==> disk[q] == Assembled(src, 0, va % 4096, Ceil(va) * 4096 - va)
    {
      disk := disk[p := Assembled(src, srcAt, 0, 4096)];
      srcAt := srcAt + 4096;
      p := p + 1;
    }
    Assemble(temp, src, srcAt, 0, (va + size) % 4096);
    disk := disk[last := temp[..]];
  }

  lemma Bounds(va: nat, size: nat)
    ensures Floor(va) <= Floor(va + size) && Floor(va) <= Ceil(va) <= Floor(va) + 1
    ensures 0 <= Ceil(va) * 4096 - va && va % 4096 + (Ceil(va) * 4096 - va) <= 4096
    ensures Ceil(va) == Floor(va) <==> va % 4096 == 0
  {
  }

  /** Byte b of the file part is in its place in the page file. */
  ghost predicate Placed(src: Source, va: nat, size: nat, b: nat) {
    PageOf(src, va, size, Floor(va + b))[(va + b) % 4096] == src(b)
  }

  ghost predicate Faithful(src: Source, va: nat, size: nat) {
    forall b: nat :: b < size ==> Placed(src, va, size, b)
  }

  /**
   * The page file gets the program's bytes, whatever they are, if and only if the segment starts on
   * a page boundary, or its file part reaches a later page than it starts in, or it is empty.
   */
  lemma FaithfulIff(va: nat, size: nat)
    ensures (forall src :: Faithful(src, va, size)) <==> size == 0 || va % 4096 == 0 || Floor(va) < Floor(va + size)
  {
    if size == 0 || va % 4096 == 0 || Floor(va) < Floor(va + size) {
      forall src ensures Faithful(src, va, size) {
        forall b: nat | b < size ensures Placed(src, va, size, b) { PlacedRight(src, va, size, b); }
      }
    } else {
      var src: Source := x => if x < 4096 then 1 else 2;
      Bounds(va, size);
      InOnePage(src, va, size, 0);
      assert !Placed(src, va, size, 0);
      assert !Faithful(src, va, size);
    }
  }

  lemma PlacedRight(src: Source, va: nat, size: nat, b: nat)
    requires b < size && (va % 4096 == 0 || Floor(va) < Floor(va + size))
    ensures Placed(src, va, size, b)
  {
    Bounds(va, size);
    Within(va, size, b);
    hide Floor, Ceil, Assembled;
  }

  /** Where byte b falls. */
  lemma Within(va: nat, size: nat, b: nat)
    requires b < size
    ensures va + b == Floor(va + b) * 4096 + (va + b) % 4096 && 0 <= (va + b) % 4096 < 4096
    ensures Floor(va) <= Floor(va + b) <= Floor(va + size)
    ensures Floor(va + b) == Floor(va + size) ==> (va + b) % 4096 < (va + size) % 4096
    ensures Floor(va + b) < Ceil(va) ==> Floor(va + b) == Floor(va) && (va + b) % 4096 == va % 4096 + b
  {
  }

  /** An unaligned file part within one page is replaced by the bytes one page further on. */
  lemma InOnePage(src: Source, va: nat, size: nat, b: nat)
    requires b < size && va % 4096 != 0 && Floor(va) == Floor(va + size)
    ensures PageOf(src, va, size, Floor(va + b))[(va + b) % 4096] == src(b + 4096)
  {
    Bounds(va, size);
    Within(va, size, b);
    assert va == Floor(va) * 4096 + va % 4096;
    hide Floor, Ceil, Assembled;
  }

  /**
   * Every byte of every page of the file part on disk: the file bytes in their places and zeros before
   * and after them; but if the file part lies unaligned within one page, the bytes from the page's
   * start up to where the file part would end, 4096 further on in the program file.
   */
  lemma PageBytes(src: Source, va: nat, size: nat, p: nat, o: nat)
    requires Floor(va) <= p <= Floor(va + size) && o < 4096
    ensures var a := p * 4096 + o;
      PageOf(src, va, size, p)[o] ==
        if va % 4096 == 0 || Floor(va) < Floor(va + size) then (if va <= a < va + size then src(a - va) else 0)
        else (if a < va + size then src(a + 4096 - va) else 0)
  {
    Bounds(va, size);
    assert va + size == Floor(va + size) * 4096 + (va + size) % 4096 && va == Floor(va) * 4096 + va % 4096;
    assert va % 4096 != 0 ==> Ceil(va) == Floor(va) + 1;
    hide Floor, Ceil, Assembled;
  }

  // ----- the copy in memory -----

  /**
   * The two copy loops of program_segment_alloc_map_copy_workingset, on user memory by address: of
   * the pages put in memory, the file part gets the program's bytes and the rest zeros.
   */
  method CopyToMemory(before: map<nat, byte>, g: Segment, src: Source, pages: nat) returns (memory: map<nat, byte>)
    ensures var end := (First(g) + pages) * 4096;
      && (forall a: nat :: a in memory <==> a in before || g.va <= a < end)
      && (forall a: nat :: a in memory ==>
            memory[a] == if g.va <= a < end then (if a < g.va + g.fileSize then src(a - g.va) else 0) else before[a])
  {
    var end := (First(g) + pages) * 4096;
    hide First;
    var to, from: nat := g.va, 0;
    memory := before;
    while to < end && to < g.va + g.fileSize
      invariant from == to - g.va && g.va <= to && (to <= end || to == g.va) && (to <= g.va + g.fileSize)
      invariant forall a: nat :: a in memory <==> a in before || g.va <= a < to
      invariant forall a: nat :: a in memory ==> memory[a] == if g.va <= a < to then src(a - g.va) else before[a]
    {
      memory := memory[to := src(from)];
      to, from := to + 1, from + 1;
    }
    while to < end
      invariant g.va <= to && (to <= end || to == g.va) && (to < end ==> to >= g.va + g.fileSize)
      invariant forall a: nat :: a in memory <==> a in before || g.va <= a < to
      invariant forall a: nat :: a in memory ==>
        memory[a] == if g.va <= a < to then (if a < g.va + g.fileSize then src(a - g.va) else 0) else before[a]
    {
      memory := memory[to := 0];
      to := to + 1;
    }
  }

  // ----- all segments of a program -----

  /** A program's segments and the bytes in its file from each segment's start on. */
  datatype Content = Content(segments: seq<Segment>, sources: seq<Source>) {
    ghost predicate Valid() {
      |sources| == |segments| && forall i :: 0 <= i < |segments| ==> segments[i].fileSize <= segments[i].memSize
    }
  }

  predicate Files(g: Segment, p: nat) {
    Floor(g.va) <= p <= Floor(g.va + g.fileSize) || Ceil(g.va + g.fileSize) <= p < End(g)
  }

  /** These are the pages the page file gets entries for. */
  lemma FilesIsFilePages(g: Segment, p: nat)
    requires g.fileSize <= g.memSize
    ensures Files(g, p) <==> p in FilePages(g)
  {
    var a, b := Range(Ceil(g.va), Floor(g.va + g.fileSize)), Range(Ceil(g.va + g.fileSize), End(g));
    RangeMembers(Ceil(g.va), Floor(g.va + g.fileSize));
    RangeMembers(Ceil(g.va + g.fileSize), End(g));
    assert p in FilePages(g) <==> p == First(g) || p in a || p == Floor(g.va + g.fileSize) || p in b;
    Bounds(g.va, g.fileSize);
  }

  /** What one segment leaves in a page it files; zero is what the pages without file bytes get. */
  function SegmentPage(g: Segment, src: Source, zero: PageData, p: nat): PageData {
    if Ceil(g.va + g.fileSize) <= p < End(g) then zero else PageOf(src, g.va, g.fileSize, p)
  }

  /** The last of the first n segments that files the page, or -1. */
  function LastFiler(g: seq<Segment>, n: nat, p: nat): (k: int)
    requires n <= |g|
    ensures -1 <= k < n && (k >= 0 ==> Files(g[k], p)) && forall i :: k < i < n ==> !Files(g[i], p)
  {
    if n == 0 then -1 else if Files(g[n - 1], p) then n - 1 else LastFiler(g, n - 1, p)
  }

  /** The page file after the first n segments. */
  ghost predicate Loaded(disk: map<nat, PageData>, c: Content, zero: PageData, n: nat)
    requires c.Valid() && n <= |c.segments|
  {
    forall p: nat ::
      var k := LastFiler(c.segments, n, p);
      && (p in disk <==> k >= 0)
      && (k >= 0 ==> disk[p] == SegmentPage(c.segments[k], c.sources[k], zero, p))
  }

  /** One round of the loop over the segments: the file part, then the rest of the segment. */
  method WriteSegment(before: map<nat, PageData>, g: Segment, src: Source, zero: PageData) returns (disk: map<nat, PageData>)
    ensures forall p: nat :: p in disk <==> p in before || Files(g, p)
    ensures forall p: nat :: p in disk ==> disk[p] == if Files(g, p) then SegmentPage(g, src, zero, p) else before[p]
  {
    hide Floor, Ceil, Assembled, PageOf;
    var part := WriteFilePart(src, g.va, g.fileSize);
    disk := before + part;
    var p := Ceil(g.va + g.fileSize);
    while p < End(g)
      invariant Ceil(g.va + g.fileSize) <= p
      invariant forall q: nat :: q in disk <==> q in before || q in part || Ceil(g.va + g.fileSize) <= q < p
      invariant p <= End(g) || p == Ceil(g.va + g.fileSize)
      invariant forall q: nat :: q in disk ==>
        disk[q] == if Ceil(g.va + g.fileSize) <= q < p then zero else if q in part then part[q] else before[q]
    {
      disk := disk[p := zero];
      p := p + 1;
    }
  }

  /** The loop over the segments. */
  method WriteSegments(c: Content, zero: PageData) returns (disk: map<nat, PageData>)
    requires c.Valid()
    ensures Loaded(disk, c, zero, |c.segments|)
  {
    hide Files, SegmentPage;
    disk := map[];
    for n := 0 to |c.segments|
      invariant Loaded(disk, c, zero, n)
    {
      disk := WriteSegment(disk, c.segments[n], c.sources[n], zero);
    }
  }

  function PageAt(c: Content, i: nat, b: nat): nat
    requires i < |c.segments|
  {
    Floor(c.segments[i].va + b)
  }

  function OffsetAt(c: Content, i: nat, b: nat): (o: nat)
    requires i < |c.segments|
    ensures o < 4096 && PageAt(c, i, b) * 4096 + o == c.segments[i].va + b
  {
    (c.segments[i].va + b) % 4096
  }

  /** Byte b of segment i is in its place when all segments are written. */
  ghost predicate Arrives(c: Content, zero: PageData, i: nat, b: nat)
    requires c.Valid() && i < |c.segments| && b < c.segments[i].fileSize
  {
    var p := PageAt(c, i, b);
    var k := LastFiler(c.segments, |c.segments|, p);
    k >= 0 && SegmentPage(c.segments[k], c.sources[k], zero, p)[OffsetAt(c, i, b)] == c.sources[i](b)
  }

  /** Each file byte is in its place in the images of the pages put in memory. */
  ghost predicate Copied(image: map<Page, PageData>, c: Content)
    requires c.Valid()
  {
    forall i, b :: 0 <= i < |c.segments| && 0 <= b < c.segments[i].fileSize ==>
      ImageOf(image, PageAt(c, i, b))[OffsetAt(c, i, b)] == c.sources[i](b)
  }

  ghost predicate AllArrive(c: Content, zero: PageData)
    requires c.Valid()
  {
    forall i, b :: 0 <= i < |c.segments| && 0 <= b < c.segments[i].fileSize ==> Arrives(c, zero, i, b)
  }

  /** FaithfulIff's condition. */
  predicate WellPlaced(g: Segment) {
    g.fileSize == 0 || g.va % 4096 == 0 || Floor(g.va) < Floor(g.va + g.fileSize)
  }

  /** q, written later, files a page that holds file bytes of g. */
  ghost predicate Overwrites(q: Segment, g: Segment) {
    g.fileSize > 0 && exists p: nat :: Floor(g.va) <= p < Ceil(g.va + g.fileSize) && Files(q, p)
  }

  ghost predicate Clear(g: seq<Segment>) {
    && (forall i :: 0 <= i < |g| ==> WellPlaced(g[i]))
    && (forall i, j :: 0 <= i < j < |g| ==> !Overwrites(g[j], g[i]))
  }

  /**
   * The page file gets the file bytes of all segments, whatever they are, if and only if each segment
   * alone would arrive and none files a page that holds file bytes of a segment before it.
   */
  lemma AllArriveIff(g: seq<Segment>, zero: PageData)
    requires forall i :: 0 <= i < |g| ==> g[i].fileSize <= g[i].memSize
    ensures (forall c: Content :: c.segments == g && c.Valid() ==> AllArrive(c, zero)) <==> Clear(g)
  {
    hide Overwrites, WellPlaced, Arrives, AllArrive;
    if Clear(g) {
      forall c: Content | c.segments == g && c.Valid() ensures AllArrive(c, zero) { ClearArrive(c, zero); }
    } else if i, j :| 0 <= i < j < |g| && Overwrites(g[j], g[i]) {
      var c := OverwriteLoses(g, zero, i, j);
    } else {
      var i :| 0 <= i < |g| && !WellPlaced(g[i]);
      var c := OnePageLoses(g, zero, i);
    }
  }

  lemma ClearArrive(c: Content, zero: PageData)
    requires c.Valid() && Clear(c.segments)
    ensures AllArrive(c, zero)
  {
    hide Overwrites, WellPlaced, Arrives;
    forall i, b | 0 <= i < |c.segments| && 0 <= b < c.segments[i].fileSize ensures Arrives(c, zero, i, b) {
      OwnFiler(c.segments, i, b);
      ByteArrives(c, zero, i, b);
    }
  }

  /** So the page file written by the loops has the file byte. */
  lemma LoadedRight(disk: map<nat, PageData>, c: Content, zero: PageData, i: nat, b: nat)
    requires c.Valid() && Clear(c.segments) && Loaded(disk, c, zero, |c.segments|)
    requires i < |c.segments| && b < c.segments[i].fileSize
    ensures PageAt(c, i, b) in disk && disk[PageAt(c, i, b)][OffsetAt(c, i, b)] == c.sources[i](b)
  {
    hide Clear, SegmentPage;
    ClearArrive(c, zero);
    assert Arrives(c, zero, i, b);
  }

  /** The file bytes of a segment that nothing overwrites stay its own. */
  lemma OwnFiler(g: seq<Segment>, i: nat, b: nat)
    requires i < |g| && b < g[i].fileSize && forall j :: i < j < |g| ==> !Overwrites(g[j], g[i])
    ensures LastFiler(g, |g|, Floor(g[i].va + b)) == i
  {
    ByteFiled(g[i], b);
    hide Files, Floor, Ceil;
    var p := Floor(g[i].va + b);
    var k := LastFiler(g, |g|, p);
    forall j | i < j < |g| ensures !Files(g[j], p) { assert !Overwrites(g[j], g[i]); }
  }

  lemma ByteFiled(g: Segment, b: nat)
    requires b < g.fileSize
    ensures var p := Floor(g.va + b); Files(g, p) && Floor(g.va) <= p < Ceil(g.va + g.fileSize)
  {
  }

  lemma ByteArrives(c: Content, zero: PageData, i: nat, b: nat)
    requires c.Valid() && i < |c.segments| && b < c.segments[i].fileSize && WellPlaced(c.segments[i])
    requires LastFiler(c.segments, |c.segments|, Floor(c.segments[i].va + b)) == i
    ensures Arrives(c, zero, i, b)
  {
    var g := c.segments[i];
    ByteFiled(g, b);
    PlacedRight(c.sources[i], g.va, g.fileSize, b);
    hide PageOf, Files;
  }

  /** A byte that differs from what a later segment leaves in its place. */
  lemma OverwriteLoses(g: seq<Segment>, zero: PageData, i: nat, j: nat) returns (c: Content)
    requires i < j < |g| && Overwrites(g[j], g[i]) && forall i :: 0 <= i < |g| ==> g[i].fileSize <= g[i].memSize
    ensures c.Valid() && c.segments == g && !AllArrive(c, zero)
  {
    hide Floor, Ceil, Files, SegmentPage, Overwrites;
    var b := OverwrittenByte(g[j], g[i]);
    var p, at := Floor(g[i].va + b), (g[i].va + b) % 4096;
    var mark: byte := if zero[at] == 1 then 2 else 1;
    c := Content(g, Marked(|g|, i, mark));
    var k := LastFiler(g, |g|, p);
    assert Files(g[j], p) && k >= j;
    BlankPage(g[k], zero, p, at, c.sources[k]);
    assert !Arrives(c, zero, i, b);
  }

  function Always(x: byte): Source { _ => x }

  /** The same byte everywhere in source i, zeros in the others. */
  function Marked(n: nat, i: nat, mark: byte): (s: seq<Source>)
    ensures |s| == n && forall k, x: nat :: 0 <= k < n ==> s[k](x) == if k == i then mark else 0
  {
    if n == 0 then [] else Marked(n - 1, i, mark) + [if i == n - 1 then Always(mark) else Always(0)]
  }

  lemma OverwrittenByte(q: Segment, g: Segment) returns (b: nat)
    requires Overwrites(q, g)
    ensures b < g.fileSize && Files(q, Floor(g.va + b))
  {
    var p: nat :| Floor(g.va) <= p < Ceil(g.va + g.fileSize) && Files(q, p);
    b := if p == Floor(g.va) then 0 else p * 4096 - g.va;
  }

  lemma BlankPage(g: Segment, zero: PageData, p: nat, at: nat, src: Source)
    requires at < 4096 && Files(g, p) && forall x :: src(x) == 0
    ensures SegmentPage(g, src, zero, p)[at] == 0 || SegmentPage(g, src, zero, p)[at] == zero[at]
  {
    Bounds(g.va, g.fileSize);
    assert p >= Floor(g.va);
    hide Floor, Ceil, Files, Assembled;
    if !(Ceil(g.va + g.fileSize) <= p < End(g)) {
      BlankPart(src, g.va, g.fileSize, p, at);
    }
  }

  lemma BlankPart(src: Source, va: nat, size: nat, p: nat, at: nat)
    requires at < 4096 && p >= Floor(va) && forall x :: src(x) == 0
    ensures PageOf(src, va, size, p)[at] == 0
  {
    Bounds(va, size);
    hide Assembled;
  }

  lemma OnePageLoses(g: seq<Segment>, zero: PageData, i: nat) returns (c: Content)
    requires i < |g| && !WellPlaced(g[i]) && forall j :: i < j < |g| ==> !Overwrites(g[j], g[i])
    requires forall i :: 0 <= i < |g| ==> g[i].fileSize <= g[i].memSize
    ensures c.Valid() && c.segments == g && !AllArrive(c, zero)
  {
    var src: Source := x => if x < 4096 then 1 else 2;
    c := Content(g, seq(|g|, k => src));
    OwnFiler(g, i, 0);
    ByteFiled(g[i], 0);
    InOnePage(src, g[i].va, g[i].fileSize, 0);
    assert !Arrives(c, zero, i, 0);
  }

  /** Segments that do not overlap and come in ascending order do not overwrite each other. */
  lemma AscendingClear(g: seq<Segment>)
    requires forall i :: 0 <= i < |g| ==> g[i].fileSize <= g[i].memSize && WellPlaced(g[i])
    requires forall i, j :: 0 <= i < j < |g| ==> End(g[i]) <= First(g[j])
    ensures Clear(g)
  {
  }

  /** Two adjacent segments in descending order: the second one files the first page of the first. */
  lemma AdjacentOverwritten()
    ensures var g := [Segment(0x80_1000, 4096, 4096), Segment(0x80_0000, 4096, 4096)];
      && GoodProgram(g) && (forall i :: 0 <= i < |g| ==> WellPlaced(g[i])) && !Clear(g)
  {
    var g := [Segment(0x80_1000, 4096, 4096), Segment(0x80_0000, 4096, 4096)];
    assert Floor(0x80_1000) == 0x801 && Files(g[1], 0x801);
    assert Overwrites(g[1], g[0]);
  }
}
