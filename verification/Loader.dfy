/**
 * env_create's loading of a program (kern/user_environment.c) as methods over the mutable kernel and
 * environment, in the order of the C code, proved against the functions of EnvCreate.
 */
module Loader {
  import opened Sequences
  import opened TwoLists
  import opened KernelState
  import opened Paging
  import opened PageFaultHandler
  import E = EnvCreate

  /** A page in memory with the given bytes, unmodified. */
  method LoadPage(mem: KernelMemory, e: EnvId, p: Page, data: PageData) returns (r: Result<()>)
    modifies mem
    ensures r.Panic? <==> E.LoadPage(old(mem.View()), e, p, data).Panic?
    ensures r.Ok? ==> E.LoadPage(old(mem.View()), e, p, data) == Ok(mem.View())
    ensures r.Ok? ==> Entry(e, p) in mem.words && old(mem.words.Keys) <= mem.words.Keys
  {
    var f := mem.AllocateFrame();
    if f.Panic? { return Panic(f.why); }
    r := mem.Ensure(Table(e, Pdx(p)));
    if r.Panic? { return; }
    var n := (if f.value in mem.refs then mem.refs[f.value] else 0) + 1;
    mem.refs := mem.refs[f.value := n % 0x1_0000];
    mem.words := mem.words[Entry(e, p) := Word(f.value, true, false)];
    mem.ram := mem.ram[f.value := data];
  }

  /** pf_add_env_page */
  method FilePage(mem: KernelMemory, e: EnvId, p: Page, data: PageData) returns (r: Result<()>)
    modifies mem
    ensures r.Panic? <==> E.FilePage(old(mem.View()), e, p, data).Panic?
    ensures r.Ok? ==> E.FilePage(old(mem.View()), e, p, data) == Ok(mem.View())
    ensures r.Ok? ==> old(mem.words.Keys) <= mem.words.Keys
  {
    PfAddWords(mem.View(), e, p);
    hide PfAdd;
    r := mem.PfAddEmptyEnvPage(e, p);
    if r.Panic? { return; }
    if (e, p) in mem.pf {
      mem.disk := mem.disk[mem.pf[(e, p)] := data];
    }
  }

  lemma PfAddWords(k: Kernel, e: EnvId, p: Page)
    ensures PfAdd(k, e, p).Ok? ==> k.words.Keys <= PfAdd(k, e, p).value.words.Keys
  {
  }

  // ----- the working set elements -----

  /** The elements from n on are spare, one after the other; page_last_WS_index is n. */
  ghost predicate Unused(env: Environment, n: nat)
    reads env
  {
    && env.Valid()
    && |env.active| + |env.second| == n
    && forall x :: x in env.spare <==> n <= x < env.activeMax + env.secondMax
  }

  /** LIST_REMOVE of element n from PageWorkingSetList. */
  method TakeElement(env: Environment, n: nat, p: Page)
    requires Unused(env, n) && n < env.activeMax + env.secondMax
    modifies env`spare, env`va
    ensures env.va.Keys == old(env.va.Keys) && n in env.va && env.va[n] == p && env.View() == old(env.View())
    ensures multiset(env.spare) + multiset{n} == multiset(old(env.spare))
    ensures forall x :: x in env.spare <==> n + 1 <= x < env.activeMax + env.secondMax
  {
    env.Partition();
    assert n in env.spare;
    PagesOfUpdate(env.va, env.active, n, p);
    PagesOfUpdate(env.va, env.second, n, p);
    TakenOnce(env, n);
    env.spare := Without(env.spare, n);
    env.va := env.va[n := p];
  }

  lemma TakenOnce(env: Environment, n: nat)
    requires env.Valid() && n in env.spare
    ensures multiset(Without(env.spare, n)) + multiset{n} == multiset(env.spare)
    ensures forall x :: x in Without(env.spare, n) <==> x in env.spare && x != n
  {
    var m := env.Held();
    WithoutBag(env.spare, n);
    ElementsBelow(env.activeMax + env.secondMax);
    assert m[n] == multiset(env.spare)[n] + multiset(env.active)[n] + multiset(env.second)[n] <= 1;
    var w := multiset(Without(env.spare, n));
    assert w[n] == multiset(env.spare)[n] - 1;
    forall x ensures x in Without(env.spare, n) <==> x in env.spare && x != n {
      assert x in Without(env.spare, n) <==> x in w;
      assert x in env.spare <==> x in multiset(env.spare);
    }
  }

  lemma {:induction false} WithoutBag(s: seq<nat>, x: nat)
    requires x in s
    ensures multiset(Without(s, x)) + multiset{x} == multiset(s)
  {
    assert s == [s[0]] + s[1..];
    if s[0] != x { WithoutBag(s[1..], x); }
  }

  /** A loaded page's element goes to ActiveList while room is left there, else to SecondList. */
  method Enlist(env: Environment, n: nat, p: Page, toActive: bool)
    requires Unused(env, n) && n < env.activeMax + env.secondMax
    modifies env`spare, env`va, env`active, env`second
    ensures Unused(env, n + 1)
    ensures var l := old(env.View());
      env.View() == if toActive then l.(active := [p] + l.active) else l.(second := [p] + l.second)
  {
    TakeElement(env, n, p);
    if toActive {
      PagesOfCons(env.va, n, env.active);
      env.active := [n] + env.active;
    } else {
      PagesOfCons(env.va, n, env.second);
      env.second := [n] + env.second;
    }
  }

  // ----- segments -----

  /** One page: a frame, a table entry and a working set element. */
  method LoadOne(mem: KernelMemory, env: Environment, used: nat, p: Page, data: PageData, toActive: bool) returns (r: Result<()>)
    requires Unused(env, used) && used < env.activeMax + env.secondMax
    modifies mem, env`spare, env`va, env`active, env`second
    ensures r.Panic? <==> E.LoadPage(old(mem.View()), env.id, p, data).Panic?
    ensures r.Ok? ==> E.LoadPage(old(mem.View()), env.id, p, data) == Ok(mem.View()) && Unused(env, used + 1)
    ensures r.Ok? ==> var l := old(env.View());
      env.View() == if toActive then l.(active := [p] + l.active) else l.(second := [p] + l.second)
    ensures r.Ok? && old(ListedMapped(mem, env)) ==> ListedMapped(mem, env)
  {
    hide E.LoadPage, Unused, PagesOf;
    r := LoadPage(mem, env.id, p, data);
    if r.Panic? { return; }
    Enlist(env, used, p, toActive);
  }

  /**
   * program_segment_alloc_map_copy_workingset: the segment's first pages go to memory, as many as
   * there are places left, and six at most for the segment at 0x200000 of a program other than tpp.
   */
  method LoadPages(mem: KernelMemory, env: Environment, used: nat, g: E.Segment, remaining: nat, isTpp: bool, image: map<Page, PageData>)
    returns (r: Result<()>, taken: nat)
    requires Unused(env, used) && used + remaining <= env.activeMax + env.secondMax
    modifies mem, env`spare, env`va, env`active, env`second
    ensures var s := E.LoadPages(old(env.View()), old(mem.View()), env.id, E.First(g), E.LoadCount(g, remaining, isTpp), image);
      && (r.Panic? <==> s.Panic?) && (r.Ok? ==> s == Ok((env.View(), mem.View())))
    ensures r.Ok? ==> taken == E.LoadCount(g, remaining, isTpp) && Unused(env, used + taken)
    ensures r.Ok? && old(ListedMapped(mem, env)) ==> ListedMapped(mem, env)
  {
    hide E.LoadPage, E.LoadCount, E.First, E.End, Unused, ListedMapped, PagesOf;
    ghost var (l, k, n) := (env.View(), mem.View(), E.LoadCount(g, remaining, isTpp));
    var limit, iva, end := remaining, E.First(g), E.End(g);
    if iva == 0x200 && !isTpp {
      limit := if remaining < 6 then remaining else 6;
    }
    CountFits(g, remaining, isTpp);
    taken := 0;
    while iva < end && taken < limit
      invariant iva == E.First(g) + taken && taken <= n && Unused(env, used + taken)
      invariant E.LoadPages(l, k, env.id, E.First(g), n, image) == E.LoadPages(env.View(), mem.View(), env.id, iva, n - taken, image)
      invariant old(ListedMapped(mem, env)) ==> ListedMapped(mem, env)
      decreases n - taken
    {
      GoesOn(g, remaining, isTpp, limit, taken);
      ghost var (l1, k1) := (env.View(), mem.View());
      r := LoadOne(mem, env, used + taken, iva, E.ImageOf(image, iva), env.activeMax == 0 || |env.active| + 1 < env.activeMax);
      LoadPagesOnce(l1, k1, env.id, iva, n - taken, image);
      if r.Panic? { return; }
      iva := iva + 1;
      taken := taken + 1;
    }
    GoesOn(g, remaining, isTpp, limit, taken);
    r := Ok(());
  }

  /** The loop goes on exactly as long as pages are to be loaded. */
  lemma GoesOn(g: E.Segment, remaining: nat, isTpp: bool, limit: nat, i: nat)
    requires limit == if E.First(g) == 0x200 && !isTpp then (if remaining < 6 then remaining else 6) else remaining
    ensures i < limit && E.First(g) + i < E.End(g) <==> i < E.LoadCount(g, remaining, isTpp)
  {
  }

  lemma LoadPagesOnce(l: Lists, k: Kernel, e: EnvId, p: Page, n: nat, image: map<Page, PageData>)
    requires n > 0
    ensures var s := E.LoadPage(k, e, p, E.ImageOf(image, p));
      E.LoadPages(l, k, e, p, n, image) == if s.Panic? then Panic(s.why) else E.LoadPages(E.Enlist(l, p), s.value, e, p + 1, n - 1, image)
  {
    hide E.LoadPage, E.Enlist;
  }

  /** Every listed page has a table entry. */
  ghost predicate ListedMapped(mem: KernelMemory, env: Environment)
    reads mem, env
  {
    && (forall q :: q in env.View().active ==> Entry(env.id, q) in mem.words)
    && (forall q :: q in env.View().second ==> Entry(env.id, q) in mem.words)
  }

  /** The pages lo .. hi-1 in the page file. */
  method FileRange(mem: KernelMemory, e: EnvId, lo: nat, hi: nat, image: map<Page, PageData>) returns (r: Result<()>)
    modifies mem
    ensures var s := E.FileAll(old(mem.View()), e, E.Range(lo, hi), image);
      (r.Panic? <==> s.Panic?) && (r.Ok? ==> s == Ok(mem.View()))
    ensures r.Ok? ==> old(mem.words.Keys) <= mem.words.Keys
  {
    hide E.FilePage;
    ghost var k := mem.View();
    var p := lo;
    while p < hi
      invariant E.FileAll(k, e, E.Range(lo, hi), image) == E.FileAll(mem.View(), e, E.Range(p, hi), image)
      invariant old(mem.words.Keys) <= mem.words.Keys
      decreases hi - p
    {
      FileRangeOnce(mem.View(), e, p, hi, image);
      hide E.FileAll, E.Range, E.ImageOf;
      r := FileOne(mem, e, p, E.ImageOf(image, p));
      if r.Panic? { return; }
      p := p + 1;
    }
    r := Ok(());
  }

  function FiledOnce(k: Kernel, e: EnvId, p: Page, data: PageData): Result<Kernel> {
    var k1 :- E.FilePage(k, e, p, data);
    if (e, p) !in k1.pf then Panic(NoPageFileSpace) else Ok(k1)
  }

  /** A page in the page file, or the panic that there is no space. */
  method FileOne(mem: KernelMemory, e: EnvId, p: Page, data: PageData) returns (r: Result<()>)
    modifies mem
    ensures r.Panic? <==> FiledOnce(old(mem.View()), e, p, data).Panic?
    ensures r.Ok? ==> FiledOnce(old(mem.View()), e, p, data) == Ok(mem.View())
    ensures r.Ok? ==> old(mem.words.Keys) <= mem.words.Keys
  {
    hide E.FilePage;
    r := FilePage(mem, e, p, data);
    if r.Panic? { return; }
    if (e, p) !in mem.pf { return Panic(NoPageFileSpace); }
  }

  lemma FileRangeOnce(k: Kernel, e: EnvId, p: nat, hi: nat, image: map<Page, PageData>)
    requires p < hi
    ensures var s := FiledOnce(k, e, p, E.ImageOf(image, p));
      E.FileAll(k, e, E.Range(p, hi), image) == if s.Panic? then Panic(s.why) else E.FileAll(s.value, e, E.Range(p + 1, hi), image)
  {
    hide E.FilePage;
    assert E.Range(p, hi)[1..] == E.Range(p + 1, hi);
  }

  lemma {:induction false} FileAllJoin(k: Kernel, e: EnvId, a: seq<Page>, b: seq<Page>, image: map<Page, PageData>)
    ensures var s := E.FileAll(k, e, a, image);
      E.FileAll(k, e, a + b, image) == if s.Panic? then Panic(s.why) else E.FileAll(s.value, e, b, image)
    decreases |a|
  {
    hide E.FilePage;
    if a == [] {
      assert a + b == b;
    } else {
      assert (a + b)[0] == a[0] && (a + b)[1..] == a[1..] + b;
      var s := FiledOnce(k, e, a[0], E.ImageOf(image, a[0]));
      if s.Ok? { FileAllJoin(s.value, e, a[1..], b, image); }
    }
  }

  /** The four loops of env_create over a segment's file and memory pages. */
  method FileSegment(mem: KernelMemory, e: EnvId, g: E.Segment, image: map<Page, PageData>) returns (r: Result<()>)
    modifies mem
    ensures var s := E.FileAll(old(mem.View()), e, E.FilePages(g), image);
      (r.Panic? <==> s.Panic?) && (r.Ok? ==> s == Ok(mem.View()))
    ensures r.Ok? ==> old(mem.words.Keys) <= mem.words.Keys
  {
    hide E.FileAll, E.Range, E.ImageOf, E.FilePage, E.Ceil, E.Floor, FiledOnce;
    FilePagesSteps(mem.View(), e, g, image);
    r := FileOne(mem, e, E.Floor(g.va), E.ImageOf(image, E.Floor(g.va)));
    if r.Panic? { return; }
    r := FileRange(mem, e, E.Ceil(g.va), E.Floor(g.va + g.fileSize), image);
    if r.Panic? { return; }
    var last := E.Floor(g.va + g.fileSize);
    r := FileOne(mem, e, last, E.ImageOf(image, last));
    if r.Panic? { return; }
    r := FileRange(mem, e, E.Ceil(g.va + g.fileSize), E.End(g), image);
  }

  /** Runs g after f, unless f panics. */
  function Then(f: Result<Kernel>, g: Kernel -> Result<Kernel>): Result<Kernel> {
    if f.Panic? then f else g(f.value)
  }

  lemma FilePagesSteps(k: Kernel, e: EnvId, g: E.Segment, image: map<Page, PageData>)
    ensures E.FileAll(k, e, E.FilePages(g), image) ==
      Then(FiledOnce(k, e, E.Floor(g.va), E.ImageOf(image, E.Floor(g.va))), k1 =>
      Then(E.FileAll(k1, e, E.Range(E.Ceil(g.va), E.Floor(g.va + g.fileSize)), image), k2 =>
      Then(FiledOnce(k2, e, E.Floor(g.va + g.fileSize), E.ImageOf(image, E.Floor(g.va + g.fileSize))), k3 =>
           E.FileAll(k3, e, E.Range(E.Ceil(g.va + g.fileSize), E.End(g)), image))))
  {
    hide E.FileAll, E.Range, E.ImageOf, FiledOnce, E.Ceil, E.Floor, E.End;
    var (p, q) := (E.Floor(g.va), E.Floor(g.va + g.fileSize));
    var (b, d) := (E.Range(E.Ceil(g.va), q), E.Range(E.Ceil(g.va + g.fileSize), E.End(g)));
    FileAllJoin(k, e, [p] + b + [q], d, image);
    FileAllJoin(k, e, [p] + b, [q], image);
    FileAllJoin(k, e, [p], b, image);
    FileAllOne(k, e, p, image);
    var s := E.FileAll(k, e, [p] + b, image);
    if s.Ok? { FileAllOne(s.value, e, q, image); }
  }

  lemma FileAllOne(k: Kernel, e: EnvId, p: Page, image: map<Page, PageData>)
    ensures var s := FiledOnce(k, e, p, E.ImageOf(image, p)); E.FileAll(k, e, [p], image) == s
  {
    hide E.FilePage, E.ImageOf;
    assert [p][1..] == [];
  }

  // ----- env_create -----

  method LoadSegments(mem: KernelMemory, env: Environment, g: seq<E.Segment>, remaining0: nat, prog: E.Program)
    returns (r: Result<()>, used: nat)
    requires Unused(env, 0) && remaining0 < env.activeMax + env.secondMax
    modifies mem, env`spare, env`va, env`active, env`second
    ensures var s := E.LoadSegments(old(env.View()), old(mem.View()), env.id, g, remaining0, prog);
      (r.Panic? <==> s.Panic?) && (r.Ok? ==> s == Ok((env.View(), mem.View())))
    ensures r.Ok? ==> Unused(env, used) && used <= remaining0
    ensures r.Ok? && old(ListedMapped(mem, env)) ==> ListedMapped(mem, env)
  {
    hide E.LoadPages, E.FileAll, Unused, E.FilePages, E.LoadCount;
    ghost var (l, k) := (env.View(), mem.View());
    var remaining := remaining0;
    used := 0;
    for i := 0 to |g|
      invariant used + remaining == remaining0 && Unused(env, used)
      invariant E.LoadSegments(l, k, env.id, g, remaining0, prog) == E.LoadSegments(env.View(), mem.View(), env.id, g[i..], remaining, prog)
      invariant old(ListedMapped(mem, env)) ==> ListedMapped(mem, env)
    {
      LoadSegmentsOnce(env.View(), mem.View(), env.id, g[i..], remaining, prog);
      assert g[i..][1..] == g[i + 1..];
      r, remaining, used := LoadSegment(mem, env, used, g[i], remaining, prog);
      if r.Panic? { return; }
    }
    r := Ok(());
  }

  /** One segment: its first pages to memory, all its pages to the page file. */
  method LoadSegment(mem: KernelMemory, env: Environment, used0: nat, g: E.Segment, remaining0: nat, prog: E.Program)
    returns (r: Result<()>, remaining: nat, used: nat)
    requires Unused(env, used0) && used0 + remaining0 <= env.activeMax + env.secondMax
    modifies mem, env`spare, env`va, env`active, env`second
    ensures var s := SegmentLoaded(old(env.View()), old(mem.View()), env.id, g, remaining0, prog);
      (r.Panic? <==> s.Panic?) && (r.Ok? ==> s == Ok((env.View(), mem.View())))
    ensures r.Ok? ==> Unused(env, used) && used + remaining == used0 + remaining0
    ensures r.Ok? ==> remaining == remaining0 - E.LoadCount(g, remaining0, prog.isTpp)
    ensures r.Ok? && old(ListedMapped(mem, env)) ==> ListedMapped(mem, env)
  {
    hide E.LoadPages, E.FileAll, Unused, E.FilePages, E.LoadCount, PagesOf;
    CountFits(g, remaining0, prog.isTpp);
    var taken;
    r, taken := LoadPages(mem, env, used0, g, remaining0, prog.isTpp, prog.image);
    remaining, used := remaining0, used0;
    if r.Panic? { return; }
    remaining, used := remaining0 - taken, used0 + taken;
    r := FileSegment(mem, env.id, g, prog.filed);
  }

  lemma CountFits(g: E.Segment, remaining: nat, isTpp: bool)
    ensures E.LoadCount(g, remaining, isTpp) <= remaining
  {
  }

  function SegmentLoaded(l: Lists, k: Kernel, e: EnvId, g: E.Segment, remaining: nat, prog: E.Program): Result<(Lists, Kernel)> {
    var n := E.LoadCount(g, remaining, prog.isTpp);
    var (l1, k1) :- E.LoadPages(l, k, e, E.First(g), n, prog.image);
    var k2 :- E.FileAll(k1, e, E.FilePages(g), prog.filed);
    Ok((l1, k2))
  }

  lemma LoadSegmentsOnce(l: Lists, k: Kernel, e: EnvId, g: seq<E.Segment>, remaining: nat, prog: E.Program)
    requires g != []
    ensures E.LoadCount(g[0], remaining, prog.isTpp) <= remaining
    ensures var s := SegmentLoaded(l, k, e, g[0], remaining, prog);
      E.LoadSegments(l, k, e, g, remaining, prog) ==
      if s.Panic? then Panic(s.why)
      else E.LoadSegments(s.value.0, s.value.1, e, g[1..], remaining - E.LoadCount(g[0], remaining, prog.isTpp), prog)
  {
    hide E.LoadPages, E.FileAll, E.FilePages, E.LoadCount, E.First;
    CountFits(g[0], remaining, prog.isTpp);
  }

  /** The first stack page. */
  method LoadStack(mem: KernelMemory, env: Environment, used: nat, image: map<Page, PageData>) returns (r: Result<()>)
    requires Unused(env, used) && used < env.activeMax + env.secondMax && ListedMapped(mem, env)
    modifies mem, env`spare, env`va, env`active, env`second
    ensures var s := E.LoadStack(old(env.View()), old(mem.View()), env.id, image);
      (r.Panic? <==> s.Panic?) && (r.Ok? ==> s == Ok((env.View(), mem.View())))
    ensures r.Ok? ==> env.Valid() && ListedMapped(mem, env)
  {
    hide E.LoadPage, E.FilePage, PagesOf;
    var p := E.STACK_PAGE;
    r := LoadOne(mem, env, used, p, Blank(), |env.active| < env.activeMax);
    if r.Panic? { return; }
    ghost var k1 := mem.View();
    if Entry(env.id, p) in mem.words {
      mem.words := mem.words[Entry(env.id, p) := mem.words[Entry(env.id, p)].(modified := true)];
    }
    assert mem.View() == SetModified(k1, env.id, p, true);
    r := FilePage(mem, env.id, p, E.ImageOf(image, p));
  }

  /** The pages of SecondList lose PRESENT. */
  method HidePages(mem: KernelMemory, env: Environment)
    requires env.Valid() && ListedMapped(mem, env)
    modifies mem`words
    ensures mem.View() == E.HidePages(old(mem.View()), env.id, env.View().second)
  {
    ghost var (k, pages) := (mem.View(), env.View().second);
    env.Partition();
    for i := 0 to |env.second|
      invariant mem.words.Keys == old(mem.words.Keys) && mem.View() == k.(words := mem.words)
      invariant E.HidePages(k, env.id, pages) == E.HidePages(mem.View(), env.id, pages[i..])
    {
      assert pages[i] in pages && pages[i] == env.va[env.second[i]];
      assert pages[i..][0] == pages[i] && pages[i..][1..] == pages[i + 1..];
      mem.SetPresent(env.id, env.va[env.second[i]], false);
    }
  }

  /** env_create: the environment it returns and the kernel's state are those of EnvCreate. */
  method CreateEnvironment(mem: KernelMemory, e: EnvId, activeMax: nat, secondMax: nat, prog: E.Program)
    returns (r: Result<()>, env: Environment)
    requires activeMax + secondMax > 0
    modifies mem
    ensures var s := E.EnvCreate(old(mem.View()), e, activeMax, secondMax, prog);
      && (r.Panic? <==> s.Panic?)
      && (r.Ok? ==> fresh(env) && env.id == e && env.Valid() && s == Ok((env.View(), mem.View())))
  {
    hide E.LoadSegments, E.LoadStack, E.HidePages;
    env := new Environment(e, activeMax, secondMax);
    r := mem.Ensure(Directory(e));
    if r.Panic? { return; }
    FreshUnused(env);
    var used;
    r, used := LoadSegments(mem, env, prog.segments, activeMax + secondMax - 1, prog);
    if r.Panic? { return; }
    r := LoadStack(mem, env, used, prog.filed);
    if r.Panic? { return; }
    HidePages(mem, env);
  }

  lemma FreshUnused(env: Environment)
    requires env.Valid() && env.View().active == [] && env.View().second == []
    ensures Unused(env, 0)
  {
    env.Partition();
    ElementsBelow(env.activeMax + env.secondMax);
    assert |env.View().active| == |env.active| && |env.View().second| == |env.second|;
    forall x ensures x in env.spare <==> 0 <= x < env.activeMax + env.secondMax {
      assert env.Held()[x] == multiset(env.spare)[x];
      assert x in env.spare <==> x in multiset(env.spare);
    }
  }
}
