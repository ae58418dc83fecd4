/**
 * The kernel's state as mutable fields, and page_fault_handler, allocateMem, freeMem and env_free
 * as methods that change them step by step in the order of the C code. Each is proved against the
 * function of the same name on values.
 */
module PageFaultHandler {
  import opened Sequences
  import opened TwoLists
  import opened KernelState
  import opened Paging
  import opened UserMemory
  import opened EnvFree

  /** The pages that a list of working set elements stands for. */
  ghost function PagesOf(va: map<nat, Page>, xs: seq<nat>): (ps: seq<Page>)
    ensures |ps| == |xs|
  {
    seq(|xs|, i requires 0 <= i < |xs| => if xs[i] in va then va[xs[i]] else 0)
  }

  lemma PagesOfUpdate(va: map<nat, Page>, xs: seq<nat>, x: nat, p: Page)
    requires x !in xs
    ensures PagesOf(va[x := p], xs) == PagesOf(va, xs)
  {
  }

  lemma PagesOfCons(va: map<nat, Page>, x: nat, xs: seq<nat>)
    requires x in va
    ensures PagesOf(va, [x] + xs) == [va[x]] + PagesOf(va, xs)
    ensures PagesOf(va, xs + [x]) == PagesOf(va, xs) + [va[x]]
  {
  }

  lemma PagesOfCut(va: map<nat, Page>, xs: seq<nat>, i: nat)
    requires i < |xs|
    ensures PagesOf(va, xs[..i]) == PagesOf(va, xs)[..i]
    ensures PagesOf(va, xs[i + 1..]) == PagesOf(va, xs)[i + 1..]
    ensures PagesOf(va, xs[..i] + xs[i + 1..]) == PagesOf(va, xs)[..i] + PagesOf(va, xs)[i + 1..]
  {
  }

  /** Removing the element at the page's position removes the page. */
  lemma PagesOfRemove(va: map<nat, Page>, xs: seq<nat>, i: nat)
    requires i < |xs| && PagesOf(va, xs)[i] !in PagesOf(va, xs)[..i]
    ensures PagesOf(va, xs[..i] + xs[i + 1..]) == Without(PagesOf(va, xs), PagesOf(va, xs)[i])
  {
    var ps := PagesOf(va, xs);
    PagesOfCut(va, xs, i);
    WithoutSplit(ps[..i], ps[i], ps[i + 1..]);
    assert ps == ps[..i] + [ps[i]] + ps[i + 1..];
  }

  /** The working set elements of a new environment, each put at the head of PageWorkingSetList. */
  method AllSpare(n: nat) returns (va: map<nat, Page>, spare: seq<nat>)
    ensures va.Keys == Elements(n) && multiset(spare) == multiset(Elements(n))
  {
    va, spare := map[], [];
    for i := 0 to n
      invariant va.Keys == Elements(i) && multiset(spare) == multiset(Elements(i))
    {
      ElementsNext(i);
      assert multiset([i] + spare) == multiset{i} + multiset(spare);
      va := va[i := 0];
      spare := [i] + spare;
    }
  }

  class Environment {
    const id: EnvId
    const activeMax: nat
    const secondMax: nat
    var va: map<nat, Page>   // ptr_pageWorkingSet[i].virtual_address
    var spare: seq<nat>      // PageWorkingSetList, as element indices
    var active: seq<nat>     // ActiveList
    var second: seq<nat>     // SecondList

    constructor (id: EnvId, activeMax: nat, secondMax: nat)
      ensures Valid() && View() == Lists(activeMax, secondMax, [], []) && this.id == id
    {
      this.id, this.activeMax, this.secondMax := id, activeMax, secondMax;
      var addresses, list := AllSpare(activeMax + secondMax);
      va, spare := addresses, list;
      active, second := [], [];
    }

    /** The three lists hold each working set element exactly once. */
    ghost predicate Valid()
      reads this
    {
      && Held() == multiset(Elements(activeMax + secondMax))
      && va.Keys == Elements(activeMax + secondMax)
    }

    /** The elements in the three lists together. */
    ghost function Held(): multiset<nat>
      reads this
    {
      multiset(spare) + multiset(active) + multiset(second)
    }

    ghost function View(): Lists
      reads this
    {
      Lists(activeMax, secondMax, PagesOf(va, active), PagesOf(va, second))
    }

    /** Every element is in one list only; together they are as many as the working set holds. */
    lemma Partition()
      requires Valid()
      ensures |spare| + |active| + |second| == activeMax + secondMax
      ensures forall x :: x in spare ==> x in va && x !in active && x !in second
      ensures forall x :: x in active ==> x in va && x !in spare && x !in second
      ensures forall x :: x in second ==> x in va && x !in spare && x !in active
    {
      var n := activeMax + secondMax;
      ElementsBelow(n);
      var m := multiset(spare) + multiset(active) + multiset(second);
      assert |m| == |spare| + |active| + |second|;
      forall x
        ensures x in spare ==> x in va && x !in active && x !in second
        ensures x in active ==> x in va && x !in spare && x !in second
        ensures x in second ==> x in va && x !in spare && x !in active
      {
        assert m[x] == multiset(spare)[x] + multiset(active)[x] + multiset(second)[x];
        assert m[x] == if x in Elements(n) then 1 else 0;
        assert x in spare <==> multiset(spare)[x] > 0;
        assert x in active <==> multiset(active)[x] > 0;
        assert x in second <==> multiset(second)[x] > 0;
      }
    }
  }

  ghost function Elements(n: nat): set<nat> {
    if n == 0 then {} else Elements(n - 1) + {n - 1}
  }

  lemma {:induction false} ElementsBelow(n: nat)
    ensures |Elements(n)| == n && forall x :: x in Elements(n) <==> 0 <= x < n
  {
    if n > 0 { ElementsBelow(n - 1); }
  }

  lemma ElementsNext(n: nat)
    ensures Elements(n + 1) == Elements(n) + {n}
    ensures multiset(Elements(n + 1)) == multiset(Elements(n)) + multiset{n}
  {
    ElementsBelow(n);
  }

  class KernelMemory {
    var words: map<Slot, Word>
    var refs: map<Frame, nat>
    var free: seq<Frame>
    var ram: map<Frame, PageData>
    var pf: map<(EnvId, Page), DiskFrame>
    var diskFree: seq<DiskFrame>
    var disk: map<DiskFrame, PageData>

    ghost function View(): Kernel
      reads this
    {
      Kernel(words, refs, free, ram, pf, diskFree, disk)
    }

    method AllocateFrame() returns (r: Result<Frame>)
      modifies this`free, this`refs
      ensures r.Panic? <==> KernelState.AllocateFrame(old(View())).Panic?
      ensures r.Panic? ==> r.why == NoFreeFrame && View() == old(View())
      ensures r.Ok? ==> KernelState.AllocateFrame(old(View())) == Ok((View(), r.value))
    {
      if free == [] { return Panic(NoFreeFrame); }
      var f := free[0];
      free := free[1..];
      refs := refs[f := 0];
      return Ok(f);
    }

    method FreeFrame(f: Frame)
      modifies this`free, this`refs
      ensures View() == KernelState.FreeFrame(old(View()), f)
    {
      refs := refs[f := 0];
      free := [f] + free;
    }

    method DecrementReferences(f: Frame)
      modifies this`free, this`refs
      ensures View() == KernelState.DecrementReferences(old(View()), f)
    {
      var r := ((if f in refs then refs[f] else 0) + 0xFFFF) % 0x1_0000;
      if r == 0 {
        FreeFrame(f);
      } else {
        refs := refs[f := r];
      }
    }

    /** __static_cpt and its disk counterparts: a fresh frame for an empty slot. */
    method Ensure(s: Slot) returns (r: Result<()>)
      modifies this`words, this`free, this`refs
      ensures r.Panic? <==> KernelState.Ensure(old(View()), s).Panic?
      ensures r.Panic? ==> r.why == NoFreeFrame
      ensures r.Ok? ==> KernelState.Ensure(old(View()), s) == Ok(View())
    {
      if s in words { return Ok(()); }
      var f := AllocateFrame();
      if f.Panic? { return Panic(f.why); }
      refs := refs[f.value := 1];
      words := words[s := Word(f.value, true, false)];
      return Ok(());
    }

    method UnmapFrame(s: Slot)
      modifies this`words, this`free, this`refs
      ensures View() == KernelState.UnmapFrame(old(View()), s)
    {
      if s in words {
        DecrementReferences(words[s].frame);
        words := words - {s};
      }
    }

    method MapFrame(e: EnvId, p: Page, f: Frame) returns (r: Result<()>)
      modifies this`words, this`free, this`refs
      ensures r.Panic? <==> KernelState.MapFrame(old(View()), e, p, f).Panic?
      ensures r.Panic? ==> r.why == NoFreeFrame
      ensures r.Ok? ==> KernelState.MapFrame(old(View()), e, p, f) == Ok(View())
    {
      r := Ensure(Table(e, Pdx(p)));
      if r.Panic? { return; }
      var s := Entry(e, p);
      if s in words && words[s].present {
        if words[s].frame == f { return; }
        UnmapFrame(s);
      }
      refs := refs[f := ((if f in refs then refs[f] else 0) + 1) % 0x1_0000];
      words := words[s := Word(f, true, false)];
    }

    method SetPresent(e: EnvId, p: Page, on: bool)
      requires Entry(e, p) in words
      modifies this`words
      ensures View() == KernelState.SetPresent(old(View()), e, p, on)
    {
      words := words[Entry(e, p) := words[Entry(e, p)].(present := on)];
    }

    method PfAddEmptyEnvPage(e: EnvId, p: Page) returns (r: Result<()>)
      modifies this`words, this`free, this`refs, this`pf, this`diskFree
      ensures r.Panic? <==> PfAdd(old(View()), e, p).Panic?
      ensures r.Panic? ==> r.why == NoFreeFrame
      ensures r.Ok? ==> PfAdd(old(View()), e, p) == Ok(View())
    {
      r := Ensure(DiskDirectory(e));
      if r.Panic? { return; }
      r := Ensure(DiskTable(e, Pdx(p)));
      if r.Panic? { return; }
      if (e, p) !in pf && diskFree != [] {
        pf := pf[(e, p) := diskFree[0]];
        diskFree := diskFree[1..];
      }
    }

    /** pf_read_env_page: false when the page has no page-file entry. */
    method PfReadEnvPage(e: EnvId, p: Page) returns (found: bool)
      requires Entry(e, p) in words
      modifies this`ram, this`words
      ensures found <==> (e, p) in pf
      ensures View() == PfRead(old(View()), e, p)
    {
      found := (e, p) in pf;
      if found {
        var d := pf[(e, p)];
        ram := ram[words[Entry(e, p)].frame := if d in disk then disk[d] else Blank()];
        words := words[Entry(e, p) := words[Entry(e, p)].(modified := false)];
      }
    }

    method PfUpdateEnvPage(e: EnvId, p: Page, f: Frame) returns (r: Result<()>)
      modifies this`words, this`free, this`refs, this`disk
      ensures r.Panic? <==> PfUpdate(old(View()), e, p, f).Panic?
      ensures r.Panic? ==> r.why == NoFreeFrame
      ensures r.Ok? ==> PfUpdate(old(View()), e, p, f) == Ok(View())
    {
      r := Ensure(DiskDirectory(e));
      if r.Panic? { return; }
      if (e, p) in pf {
        disk := disk[pf[(e, p)] := if f in ram then ram[f] else Blank()];
      }
    }

    method PfRemoveEnvPage(e: EnvId, p: Page)
      modifies this`pf, this`diskFree
      ensures View() == PfRemove(old(View()), e, p)
    {
      if (e, p) in pf {
        var d := pf[(e, p)];
        pf := pf - {(e, p)};
        diskFree := [d] + diskFree;
      }
    }

    /** The block the handler repeats: allocate, map, read from the page file or start a stack page. */
    method PlacePage(e: EnvId, p: Page) returns (r: Result<()>)
      modifies this
      ensures r.Panic? <==> PageIn(old(View()), e, p).Panic?
      ensures r.Ok? ==> PageIn(old(View()), e, p) == Ok(View())
    {
      var f := AllocateFrame();
      if f.Panic? { return Panic(f.why); }
      ghost var k1 := View();
      r := MapFrame(e, p, f.value);
      if r.Panic? { return; }
      assert MapFrameEntry(k1, e, p, f.value);
      var found := PfReadEnvPage(e, p);
      if !found {
        if IsStack(p) {
          r := PfAddEmptyEnvPage(e, p);
        } else {
          return Panic(IllegalAccess);
        }
      }
    }

    /** Writes a victim back if it is modified, and unmaps it. */
    method EvictPage(e: EnvId, v: Page) returns (r: Result<()>)
      requires Entry(e, v) in words
      modifies this`words, this`free, this`refs, this`disk
      ensures r.Panic? <==> Evict(old(View()), e, v).Panic?
      ensures r.Ok? ==> Evict(old(View()), e, v) == Ok(View())
    {
      var w := words[Entry(e, v)];
      r := Ok(());
      if w.modified {
        r := PfUpdateEnvPage(e, v, w.frame);
        if r.Panic? { return; }
      }
      UnmapFrame(Entry(e, v));
    }

    /** The first element of a list that stands for page p, or -1. */
    method FindPage(env: Environment, xs: seq<nat>, p: Page) returns (i: int)
      ensures -1 <= i < |xs|
      ensures i == -1 ==> p !in PagesOf(env.va, xs)
      ensures i >= 0 ==> PagesOf(env.va, xs)[i] == p && p !in PagesOf(env.va, xs)[..i]
    {
      for j := 0 to |xs|
        invariant p !in PagesOf(env.va, xs)[..j]
      {
        if (if xs[j] in env.va then env.va[xs[j]] else 0) == p {
          assert PagesOf(env.va, xs)[j] == p;
          return j;
        }
      }
      assert PagesOf(env.va, xs)[..|xs|] == PagesOf(env.va, xs);
      return -1;
    }

    /** Takes the last spare element for page p. */
    method TakeSpare(env: Environment, p: Page) returns (x: nat)
      requires env.Valid() && env.spare != []
      modifies env`spare, env`va
      ensures multiset(env.spare) + multiset{x} == multiset(old(env.spare))
      ensures x in env.va && env.va == old(env.va)[x := p] && env.View() == old(env.View())
      ensures x !in env.active && x !in env.second && env.va.Keys == old(env.va.Keys)
    {
      env.Partition();
      x := Last(env.spare);
      assert env.spare == env.spare[..|env.spare| - 1] + [x];
      assert x in env.spare;
      PagesOfUpdate(env.va, env.active, x, p);
      PagesOfUpdate(env.va, env.second, x, p);
      env.spare := env.spare[..|env.spare| - 1];
      env.va := env.va[x := p];
    }

    method InsertActiveHead(env: Environment, x: nat)
      requires x in env.va
      modifies env`active
      ensures env.Held() == old(env.Held()) + multiset{x}
      ensures env.View() == old(env.View()).(active := [env.va[x]] + old(env.View()).active)
      ensures env.active == [x] + old(env.active)
    {
      PagesOfCons(env.va, x, env.active);
      env.active := [x] + env.active;
    }

    /** ActiveList is not full: the page goes to its head. */
    method PlaceInActive(env: Environment, p: Page) returns (r: Result<()>)
      requires env.Valid() && env.spare != [] && |env.active| < env.activeMax
      modifies this, env
      ensures r.Panic? <==> PageIn(old(View()), env.id, p).Panic?
      ensures r.Ok? ==> env.Valid() && PageIn(old(View()), env.id, p) == Ok(View())
      ensures r.Ok? ==> env.View() == old(env.View()).(active := [p] + old(env.View()).active)
    {
      var x := TakeSpare(env, p);
      r := PlacePage(env.id, p);
      if r.Panic? { return; }
      PagesOfCons(env.va, x, env.active);
      env.active := [x] + env.active;
    }

    /** ActiveList's tail moves to the head of SecondList and loses PRESENT. */
    method Demote(env: Environment)
      requires env.active != [] && Last(env.active) in env.va && View().Mapped(env.id, Last(env.View().active))
      modifies this`words, env`active, env`second
      ensures env.Held() == old(env.Held())
      ensures View() == KernelState.SetPresent(old(View()), env.id, Last(old(env.View()).active), false)
      ensures env.View() == old(env.View()).(active := old(env.View()).active[..|old(env.active)| - 1],
                                             second := [Last(old(env.View()).active)] + old(env.View()).second)
      ensures env.active == old(env.active)[..|old(env.active)| - 1]
      ensures env.second == [Last(old(env.active))] + old(env.second)
    {
      var t := Last(env.active);
      PagesOfCut(env.va, env.active, |env.active| - 1);
      PagesOfCons(env.va, t, env.second);
      assert env.active == env.active[..|env.active| - 1] + [t];
      SetPresent(env.id, env.va[t], false);
      env.active := env.active[..|env.active| - 1];
      env.second := [t] + env.second;
    }

    /** The page is in SecondList: it becomes present at ActiveList's head, and the tail is demoted. */
    method Promote(env: Environment, p: Page, i: nat)
      requires env.Valid() && i < |env.second| && env.active != []
      requires PagesOf(env.va, env.second)[i] == p && p !in PagesOf(env.va, env.second)[..i]
      requires View().Mapped(env.id, p) && View().Mapped(env.id, Last(env.View().active))
      modifies this`words, env`active, env`second
      ensures env.Valid()
      ensures View() == Paging.Promote(old(env.View()), old(View()), env.id, p)
      ensures env.View() == old(env.View()).(
                active := [p] + old(env.View()).active[..|old(env.active)| - 1],
                second := [Last(old(env.View()).active)] + Without(old(env.View()).second, p))
    {
      hide KernelState.SetPresent, Without, PagesOf, Distinct;
      env.Partition();
      var x := UnlinkSecond(env, i);
      SetPresent(env.id, p, true);
      var t := DropActiveTail(env);
      SetPresentWords(old(View()), env.id, p, env.va[t], true);
      SetPresent(env.id, env.va[t], false);
      InsertActiveHead(env, x);
      InsertSecondHead(env, t);
    }

    method UnlinkSecond(env: Environment, i: nat) returns (x: nat)
      requires i < |env.second| && env.View().second[i] !in env.View().second[..i] && env.second[i] in env.va
      modifies env`second
      ensures x in env.va && env.va[x] == old(env.View()).second[i] && env.Held() + multiset{x} == old(env.Held())
      ensures env.View() == old(env.View()).(second := Without(old(env.View()).second, old(env.View()).second[i]))
    {
      x := env.second[i];
      PagesOfRemove(env.va, env.second, i);
      assert env.second == env.second[..i] + [x] + env.second[i + 1..];
      env.second := env.second[..i] + env.second[i + 1..];
    }

    method DropActiveTail(env: Environment) returns (t: nat)
      requires env.active != [] && Last(env.active) in env.va
      modifies env`active
      ensures t in env.va && env.va[t] == Last(old(env.View()).active) && env.Held() + multiset{t} == old(env.Held())
      ensures env.View() == old(env.View()).(active := old(env.View()).active[..|old(env.active)| - 1])
    {
      t := Last(env.active);
      PagesOfCut(env.va, env.active, |env.active| - 1);
      assert env.active == env.active[..|env.active| - 1] + [t];
      env.active := env.active[..|env.active| - 1];
    }

    method InsertSecondHead(env: Environment, x: nat)
      requires x in env.va
      modifies env`second
      ensures env.Held() == old(env.Held()) + multiset{x}
      ensures env.View() == old(env.View()).(second := [env.va[x]] + old(env.View()).second)
    {
      PagesOfCons(env.va, x, env.second);
      env.second := [x] + env.second;
    }

    /** A full working set without SecondList: ActiveList's tail is replaced by the page. */
    method ReplaceActiveTail(env: Environment, p: Page) returns (r: Result<()>)
      requires env.Valid() && env.active != [] && env.second == [] && View().Mapped(env.id, Last(env.View().active))
      modifies this, env`va, env`active
      ensures r.Ok? ==> env.Valid()
      ensures var v := Last(old(env.View()).active);
        && (r.Panic? <==> Evict(old(View()), env.id, v).Panic? || PageIn(Evict(old(View()), env.id, v).value, env.id, p).Panic?)
        && (r.Ok? ==> Ok(View()) == PageIn(Evict(old(View()), env.id, v).value, env.id, p))
      ensures r.Ok? ==> env.View() == old(env.View()).(active := [p] + old(env.View()).active[..|old(env.active)| - 1])
    {
      hide Evict, PageIn, PagesOf;
      TailMapped(env);
      r := EvictPage(env.id, env.va[Last(env.active)]);
      if r.Panic? { return; }
      var t := RemoveActiveTail(env, p);
      r := PlacePage(env.id, p);
      if r.Panic? { return; }
      InsertActiveHead(env, t);
    }

    lemma TailMapped(env: Environment)
      requires env.Valid() && env.active != []
      ensures Last(env.active) in env.va && env.va[Last(env.active)] == Last(env.View().active)
    {
      env.Partition();
      assert Last(env.active) in env.active;
    }

    /** Takes ActiveList's tail off the list and gives it the new page. */
    method RemoveActiveTail(env: Environment, p: Page) returns (t: nat)
      requires env.Valid() && env.active != [] && env.second == []
      modifies env`va, env`active
      ensures env.Held() + multiset{t} == old(env.Held()) && env.va.Keys == old(env.va.Keys) && t in env.va && env.va[t] == p
      ensures env.View() == old(env.View()).(active := old(env.View()).active[..|old(env.active)| - 1])
    {
      env.Partition();
      t := Last(env.active);
      assert t in env.active;
      PagesOfCut(env.va, env.active, |env.active| - 1);
      assert env.active == env.active[..|env.active| - 1] + [t];
      OnceInActive(env, t);
      env.active := env.active[..|env.active| - 1];
      PagesOfUpdate(env.va, env.active, t, p);
      env.va := env.va[t := p];
    }

    lemma OnceInActive(env: Environment, t: nat)
      requires env.Valid() && env.active != [] && t == Last(env.active)
      ensures t !in env.active[..|env.active| - 1]
    {
      var r := env.active[..|env.active| - 1];
      assert env.active == r + [t];
      var m := multiset(env.spare) + multiset(env.active) + multiset(env.second);
      assert m[t] <= 1;
      var mr: multiset<nat> := multiset(r);
      assert multiset(env.active) == mr + multiset{t};
      assert m[t] >= mr[t] + 1;
      assert t in r ==> mr[t] > 0;
    }

    /** A full working set: SecondList's tail is evicted, ActiveList's tail demoted, the page placed. */
    method ReplaceSecondTail(env: Environment, p: Page) returns (r: Result<()>)
      requires env.Valid() && env.active != [] && env.second != []
      requires View().Mapped(env.id, Last(env.View().second)) && View().Mapped(env.id, Last(env.View().active))
      requires Last(env.View().second) != Last(env.View().active) && Evict(View(), env.id, Last(env.View().second)).Ok?
      modifies this, env`va, env`active, env`second
      ensures r.Ok? ==> env.Valid()
      ensures var k1 := Evict(old(View()), env.id, Last(old(env.View()).second)).value;
        var k2 := KernelState.SetPresent(k1, env.id, Last(old(env.View()).active), false);
        && (r.Panic? <==> PageIn(k2, env.id, p).Panic?)
        && (r.Ok? ==> PageIn(k2, env.id, p) == Ok(View()))
      ensures r.Ok? ==> env.View() == old(env.View()).(
                active := [p] + old(env.View()).active[..|old(env.active)| - 1],
                second := [Last(old(env.View()).active)] + old(env.View()).second[..|old(env.second)| - 1])
    {
      hide Evict, PageIn, KernelState.SetPresent, PagesOf;
      var x := VacateSecondTail(env, p);
      r := PlacePage(env.id, p);
      if r.Panic? { return; }
      InsertActiveHead(env, x);
    }

    /** The first half: SecondList's tail is evicted and its element x freed for page p, ActiveList's tail demoted. */
    method VacateSecondTail(env: Environment, p: Page) returns (x: nat)
      requires env.Valid() && env.active != [] && env.second != []
      requires View().Mapped(env.id, Last(env.View().second)) && View().Mapped(env.id, Last(env.View().active))
      requires Last(env.View().second) != Last(env.View().active) && Evict(View(), env.id, Last(env.View().second)).Ok?
      modifies this, env`va, env`active, env`second
      ensures env.Held() + multiset{x} == old(env.Held()) && env.va.Keys == old(env.va.Keys) && x in env.va && env.va[x] == p
      ensures View() == KernelState.SetPresent(Evict(old(View()), env.id, Last(old(env.View()).second)).value,
                                               env.id, Last(old(env.View()).active), false)
      ensures env.View() == old(env.View()).(
                active := old(env.View()).active[..|old(env.active)| - 1],
                second := [Last(old(env.View()).active)] + old(env.View()).second[..|old(env.second)| - 1])
    {
      hide Evict, KernelState.SetPresent;
      env.Partition();
      ghost var k0, lv := View(), env.View();
      x := Last(env.second);
      assert x in env.second && x !in env.active && Last(env.active) in env.active;
      EvictLeaves(k0, env.id, Last(lv.second), Last(lv.active));
      var r := EvictPage(env.id, env.va[x]);
      RemoveSecondTail(env, p);
      Demote(env);
    }

    /** Takes SecondList's tail off the list and gives it the new page. */
    method RemoveSecondTail(env: Environment, p: Page)
      requires env.Valid() && env.second != []
      modifies env`va, env`second
      ensures var x := Last(old(env.second));
        && env.Held() + multiset{x} == old(env.Held())
        && env.va == old(env.va)[x := p] && env.va.Keys == old(env.va.Keys)
        && x !in env.active && x !in env.second
      ensures env.View() == old(env.View()).(second := old(env.View()).second[..|old(env.second)| - 1])
      ensures |env.second| == |old(env.second)| - 1
    {
      env.Partition();
      var x := Last(env.second);
      assert x in env.second;
      var rest := env.second[..|env.second| - 1];
      assert env.second == rest + [x];
      assert x !in rest by {
        var m := multiset(env.spare) + multiset(env.active) + multiset(env.second);
        assert m[x] <= 1;
        var mr: multiset<nat> := multiset(rest);
        assert multiset(env.second) == mr + multiset{x};
        assert m[x] >= mr[x] + 1;
        assert x in rest ==> mr[x] > 0;
      }
      PagesOfCut(env.va, env.second, |env.second| - 1);
      PagesOfUpdate(env.va, rest, x, p);
      PagesOfUpdate(env.va, env.active, x, p);
      env.second := rest;
      env.va := env.va[x := p];
    }

    ghost predicate MayFault(env: Environment, p: Page)
      reads this, env
    {
      && env.Valid() && Owned(View()) && EnvOk(env.View(), View(), env.id)
      && Table(env.id, Pdx(p)) in words && !View().Present(env.id, p)
    }

    method PlacementFault(env: Environment, p: Page) returns (r: Result<()>)
      requires MayFault(env, p) && env.spare != [] && |env.active| != env.activeMax
      modifies this, env
      ensures r.Panic? <==> Paging.PageFault(old(env.View()), old(View()), env.id, p).Panic?
      ensures r.Ok? ==> env.Valid()
      ensures r.Ok? ==> Paging.PageFault(old(env.View()), old(View()), env.id, p) == Ok((env.View(), View()))
    {
      hide EnvOk, Owned, PageIn, Evict, Paging.PageFault, Paging.Promote, KernelState.SetPresent, Without, PagesOf;
      env.Partition();
      ghost var l, k, e := env.View(), View(), env.id;
      FaultFacts(l, k, e, p);
      SpecPlacement(l, k, e, p);
      assert Entry(e, p) !in words;
      r := PlaceInActive(env, p);
    }

    method SecondListFault(env: Environment, p: Page, i: nat) returns (r: Result<()>)
      requires MayFault(env, p) && i < |env.second| && PagesOf(env.va, env.second)[i] == p
      requires p !in PagesOf(env.va, env.second)[..i]
      modifies this, env
      ensures r.Panic? <==> Paging.PageFault(old(env.View()), old(View()), env.id, p).Panic?
      ensures r.Ok? ==> env.Valid()
      ensures r.Ok? ==> Paging.PageFault(old(env.View()), old(View()), env.id, p) == Ok((env.View(), View()))
    {
      hide EnvOk, Owned, PageIn, Evict, Paging.PageFault, Paging.Promote, KernelState.SetPresent, Without, PagesOf;
      env.Partition();
      ghost var l, k, e := env.View(), View(), env.id;
      FaultFacts(l, k, e, p);
      SpecPromotion(l, k, e, p);
      Promote(env, p, i);
      r := Ok(());
    }

    method DemotingFault(env: Environment, p: Page) returns (r: Result<()>)
      requires MayFault(env, p) && env.spare != [] && |env.active| == env.activeMax
      requires p !in PagesOf(env.va, env.second)
      modifies this, env
      ensures r.Panic? <==> Paging.PageFault(old(env.View()), old(View()), env.id, p).Panic?
      ensures r.Ok? ==> env.Valid()
      ensures r.Ok? ==> Paging.PageFault(old(env.View()), old(View()), env.id, p) == Ok((env.View(), View()))
    {
      hide EnvOk, Owned, PageIn, Evict, Paging.PageFault, Paging.Promote, KernelState.SetPresent, Without, PagesOf;
      env.Partition();
      ghost var l, k, e := env.View(), View(), env.id;
      FaultFacts(l, k, e, p);
      SpecDemotion(l, k, e, p);
      Demote(env);
      assert Entry(e, p) !in words by { SetPresentWords(k, e, Last(l.active), p, false); }
      r := PlaceInActive(env, p);
    }

    method ReplacingActiveFault(env: Environment, p: Page) returns (r: Result<()>)
      requires MayFault(env, p) && env.spare == [] && env.secondMax == 0
      modifies this, env
      ensures r.Panic? <==> Paging.PageFault(old(env.View()), old(View()), env.id, p).Panic?
      ensures r.Ok? ==> env.Valid()
      ensures r.Ok? ==> Paging.PageFault(old(env.View()), old(View()), env.id, p) == Ok((env.View(), View()))
    {
      hide EnvOk, Owned, PageIn, Evict, Paging.PageFault, Paging.Promote, KernelState.SetPresent, Without, PagesOf;
      env.Partition();
      ghost var l, k, e := env.View(), View(), env.id;
      FaultFacts(l, k, e, p);
      assert l.second == [] && l.Resident() == l.active;
      SpecReplaceActive(l, k, e, p);
      r := ReplaceActiveTail(env, p);
    }

    method ReplacingSecondFault(env: Environment, p: Page) returns (r: Result<()>)
      requires MayFault(env, p) && env.spare == [] && env.secondMax > 0
      requires p !in PagesOf(env.va, env.second)
      modifies this, env
      ensures r.Panic? <==> Paging.PageFault(old(env.View()), old(View()), env.id, p).Panic?
      ensures r.Ok? ==> env.Valid()
      ensures r.Ok? ==> Paging.PageFault(old(env.View()), old(View()), env.id, p) == Ok((env.View(), View()))
    {
      hide EnvOk, Owned, PageIn, Evict, Paging.PageFault, Paging.Promote, KernelState.SetPresent, Without, PagesOf;
      env.Partition();
      ghost var l, k, e := env.View(), View(), env.id;
      FaultFacts(l, k, e, p);
      SpecReplaceSecond(l, k, e, p);
      r := ReplaceSecondTail(env, p);
    }

    /**
     * page_fault_handler. It never maps over a non-zero, non-present entry, and its large case
     * split computes move-to-front on the concatenation of the two lists.
     */
    method PageFault(env: Environment, p: Page) returns (r: Result<()>)
      requires MayFault(env, p)
      modifies this, env
      ensures r.Panic? <==> Paging.PageFault(old(env.View()), old(View()), env.id, p).Panic?
      ensures r.Ok? ==> env.Valid()
      ensures r.Ok? ==> Paging.PageFault(old(env.View()), old(View()), env.id, p) == Ok((env.View(), View()))
    {
      hide EnvOk, Owned, PageIn, Paging.PageFault, PagesOf;
      if |env.spare| != 0 {
        if |env.active| != env.activeMax {
          r := PlacementFault(env, p);
        } else {
          var i := FindPage(env, env.second, p);
          if i >= 0 {
            r := SecondListFault(env, p, i);
          } else {
            r := DemotingFault(env, p);
          }
        }
      } else {
        var i := FindPage(env, env.second, p);
        if i >= 0 {
          r := SecondListFault(env, p, i);
        } else if env.secondMax == 0 {
          r := ReplacingActiveFault(env, p);
        } else {
          r := ReplacingSecondFault(env, p);
        }
      }
    }

    /** A user access: the table fault, then the page fault of the retried access. */
    method Access(env: Environment, p: Page) returns (r: Result<()>)
      requires env.Valid() && Owned(View()) && EnvOk(env.View(), View(), env.id)
      modifies this, env
      ensures r.Panic? <==> Touch(old(env.View()), old(View()), env.id, p).Panic?
      ensures r.Ok? ==> env.Valid()
      ensures r.Ok? ==> Touch(old(env.View()), old(View()), env.id, p) == Ok((env.View(), View()))
    {
      if Entry(env.id, p) in words && words[Entry(env.id, p)].present { return Ok(()); }
      if p >= STACK_TOP { return Panic(StackUnderflow); }
      ghost var k0 := View();
      r := Ensure(Table(env.id, Pdx(p)));
      if r.Panic? { return; }
      TableCreated(env.View(), k0, env.id, p);
      hide EnvOk, Owned, Paging.PageFault, KernelState.Ensure;
      r := PageFault(env, p);
    }

    /** The loop body of allocateMem: a page-file entry and a pinned frame. */
    method AllocatePage(e: EnvId, p: Page) returns (r: Result<()>)
      modifies this
      ensures r.Panic? <==> UserMemory.AllocatePage(old(View()), e, p).Panic?
      ensures r.Ok? ==> UserMemory.AllocatePage(old(View()), e, p) == Ok(View())
    {
      hide PfAdd, KernelState.MapFrame, KernelState.AllocateFrame;
      r := PfAddEmptyEnvPage(e, p);
      if r.Panic? { return; }
      if (e, p) !in pf { return Panic(NoPageFileSpace); }
      var f := AllocateFrame();
      if f.Panic? { return Panic(f.why); }
      r := MapFrame(e, p, f.value);
    }

    method AllocateMem(e: EnvId, p: Page, n: nat) returns (r: Result<()>)
      modifies this
      ensures r.Panic? <==> UserMemory.AllocateMem(old(View()), e, p, n).Panic?
      ensures r.Ok? ==> UserMemory.AllocateMem(old(View()), e, p, n) == Ok(View())
    {
      hide UserMemory.AllocatePage;
      r := Ok(());
      for i := 0 to n
        invariant r.Ok?
        invariant UserMemory.AllocateMem(old(View()), e, p, n) == UserMemory.AllocateMem(View(), e, p + i, n - i)
      {
        r := AllocatePage(e, p + i);
        if r.Panic? { return; }
      }
    }

    /** Counts the zero entries of a table and frees the table when all 1024 are zero. */
    method DropTableIfEmpty(e: EnvId, d: nat)
      modifies this`words, this`free, this`refs
      ensures View() == DropEmptyTable(old(View()), e, d)
    {
      var counter := 0;
      for i := 0 to 1024
        invariant counter <= i
        invariant counter == i <==> forall q :: 1024 * d <= q < 1024 * d + i ==> Entry(e, q) !in words
      {
        if Entry(e, 1024 * d + i) !in words { counter := counter + 1; }
      }
      assert forall q: Page :: 1024 * d <= q < 1024 * d + 1024 <==> Pdx(q) == d;
      assert counter < 1024 <==> exists s :: s in words && s.Entry? && s.env == e && Pdx(s.page) == d by {
        if counter < 1024 {
          var q :| 1024 * d <= q < 1024 * d + 1024 && Entry(e, q) in words;
          assert Entry(e, q).Entry? && Pdx(Entry(e, q).page) == d;
        }
        if s :| s in words && s.Entry? && s.env == e && Pdx(s.page) == d {
          assert s == Entry(e, s.page);
        }
      }
      var t := Table(e, d);
      if t in words && counter == 1024 {
        FreeFrame(words[t].frame);
        words := words - {t};
      }
    }

    /** The loop body of freeMem's second pass for one page. */
    method ReleasePage(env: Environment, p: Page)
      requires env.Valid() && env.View().Valid()
      requires forall q :: q in env.View().second ==> View().Mapped(env.id, q)
      modifies this`words, this`free, this`refs, env`spare, env`active, env`second
      ensures env.Valid() && env.View().Valid()
      ensures forall q :: q in env.View().second ==> View().Mapped(env.id, q)
      ensures (env.View(), View()) == UserMemory.ReleasePage(old(env.View()), old(View()), env.id, p)
    {
      ghost var l, k, e := env.View(), View(), env.id;
      Separate(l);
      ReleaseKeepsSecond(l, k, e, p);
      hide UserMemory.ReleasePage, DropEmptyTable, KernelState.UnmapFrame, Without, PagesOf, Unlisted;
      var i := FindPage(env, env.active, p);
      if i >= 0 {
        ReleaseActiveIs(l, k, e, p);
        TakeFromActive(env, p, i);
        DropTableIfEmpty(env.id, Pdx(p));
      } else {
        var j := FindPage(env, env.second, p);
        if j >= 0 {
          ReleaseSecondIs(l, k, e, p);
          TakeFromSecond(env, p, j);
          DropTableIfEmpty(env.id, Pdx(p));
        } else {
          ReleaseNothing(l, k, e, p);
        }
      }
    }

    /** An active page: unmap it, free its element, and let SecondList's head fill the gap. */
    method TakeFromActive(env: Environment, p: Page, i: nat)
      requires env.Valid() && i < |env.active| && PagesOf(env.va, env.active)[i] == p && p !in PagesOf(env.va, env.active)[..i]
      requires env.second != [] ==> env.View().second[0] != p && View().Mapped(env.id, env.View().second[0])
      modifies this`words, this`free, this`refs, env`spare, env`active, env`second
      ensures env.Valid()
      ensures var l := old(env.View());
        var k1 := KernelState.UnmapFrame(old(View()), Entry(env.id, p));
        && View() == (if l.second == [] then k1 else KernelState.SetPresent(k1, env.id, l.second[0], true))
        && env.View() == (if l.second == [] then l.(active := Without(l.active, p))
                          else l.(active := Without(l.active, p) + [l.second[0]], second := l.second[1..]))
    {
      UnmapFrameWords(View(), Entry(env.id, p));
      hide KernelState.UnmapFrame, KernelState.SetPresent, Without, PagesOf;
      UnlinkActive(env, i);
      UnmapFrame(Entry(env.id, p));
      if |env.second| != 0 {
        RefillActive(env);
      }
    }

    method UnlinkActive(env: Environment, i: nat)
      requires i < |env.active| && env.View().active[i] !in env.View().active[..i]
      modifies env`spare, env`active
      ensures env.Held() == old(env.Held())
      ensures env.View() == old(env.View()).(active := Without(old(env.View()).active, old(env.View()).active[i]))
    {
      var x := env.active[i];
      PagesOfRemove(env.va, env.active, i);
      assert env.active == env.active[..i] + [x] + env.active[i + 1..];
      env.active := env.active[..i] + env.active[i + 1..];
      env.spare := [x] + env.spare;
    }

    /** SecondList's head becomes present at ActiveList's tail. */
    method RefillActive(env: Environment)
      requires env.Valid() && env.second != [] && View().Mapped(env.id, env.View().second[0])
      modifies this`words, env`active, env`second
      ensures env.Valid()
      ensures View() == KernelState.SetPresent(old(View()), env.id, old(env.View()).second[0], true)
      ensures env.View() == old(env.View()).(active := old(env.View()).active + [old(env.View()).second[0]],
                                             second := old(env.View()).second[1..])
    {
      env.Partition();
      var h := env.second[0];
      assert h in env.second;
      assert env.second == [h] + env.second[1..];
      PagesOfCons(env.va, h, env.second[1..]);
      PagesOfCons(env.va, h, env.active);
      env.second := env.second[1..];
      SetPresent(env.id, env.va[h], true);
      env.active := env.active + [h];
    }

    method TakeFromSecond(env: Environment, p: Page, i: nat)
      requires env.Valid() && i < |env.second| && PagesOf(env.va, env.second)[i] == p && p !in PagesOf(env.va, env.second)[..i]
      modifies this`words, this`free, this`refs, env`spare, env`second
      ensures env.Valid()
      ensures View() == KernelState.UnmapFrame(old(View()), Entry(env.id, p))
      ensures env.View() == old(env.View()).(second := Without(old(env.View()).second, p))
    {
      var x := env.second[i];
      PagesOfRemove(env.va, env.second, i);
      assert env.second == env.second[..i] + [x] + env.second[i + 1..];
      env.second := env.second[..i] + env.second[i + 1..];
      UnmapFrame(Entry(env.id, p));
      env.spare := [x] + env.spare;
      assert env.Held() == old(env.Held());
    }

    /** freeMem: first the page-file entries of the range, then its resident pages. */
    method FreeMem(env: Environment, p: Page, n: nat)
      requires env.Valid() && env.View().Valid()
      requires forall q :: q in env.View().second ==> View().Mapped(env.id, q)
      modifies this, env`spare, env`active, env`second
      ensures env.Valid()
      ensures (env.View(), View()) == UserMemory.FreeMem(old(env.View()), old(View()), env.id, p, n)
    {
      hide PfRemoveRange, ReleaseRange, PagesOf;
      RemoveFromFile(env.id, p, n);
      ReleaseAll(env, p, n);
    }

    /** The first loop of freeMem. */
    method RemoveFromFile(e: EnvId, p: Page, n: nat)
      modifies this`pf, this`diskFree
      ensures View() == PfRemoveRange(old(View()), e, p, n)
    {
      ghost var k0 := View();
      for i := 0 to n
        invariant PfRemoveRange(k0, e, p, n) == PfRemoveRange(View(), e, p + i, n - i)
      {
        PfRemoveEnvPage(e, p + i);
      }
    }

    /** The second loop. */
    method ReleaseAll(env: Environment, p: Page, n: nat)
      requires env.Valid() && env.View().Valid()
      requires forall q :: q in env.View().second ==> View().Mapped(env.id, q)
      modifies this`words, this`free, this`refs, env`spare, env`active, env`second
      ensures env.Valid()
      ensures (env.View(), View()) == ReleaseRange(old(env.View()), old(View()), env.id, p, n)
    {
      hide UserMemory.ReleasePage, PagesOf;
      ghost var l, k1 := env.View(), View();
      for i := 0 to n
        invariant env.Valid() && env.View().Valid()
        invariant forall q :: q in env.View().second ==> View().Mapped(env.id, q)
        invariant ReleaseRange(l, k1, env.id, p, n) == ReleaseRange(env.View(), View(), env.id, p + i, n - i)
      {
        ReleasePage(env, p + i);
      }
    }

    /** The loop body of env_free over SecondList: unmap the first page and free its element. */
    method FreeFirstOfSecondList(env: Environment)
      requires env.Valid() && env.second != []
      modifies this`words, this`free, this`refs, env`spare, env`second
      ensures env.Valid() && |env.second| == |old(env.second)| - 1
      ensures View() == KernelState.UnmapFrame(old(View()), Entry(env.id, old(env.View()).second[0]))
      ensures env.View() == old(env.View()).(second := old(env.View()).second[1..])
      ensures words == old(words) - {Entry(env.id, old(env.View()).second[0])}
    {
      hide KernelState.UnmapFrame;
      env.Partition();
      var x := env.second[0];
      assert x in env.second && env.second == [x] + env.second[1..];
      PagesOfCons(env.va, x, env.second[1..]);
      UnmapFrameWords(View(), Entry(env.id, env.va[x]));
      UnmapFrame(Entry(env.id, env.va[x]));
      env.second := env.second[1..];
      env.spare := [x] + env.spare;
    }

    method FreeAllOfSecondList(env: Environment)
      requires env.Valid() && forall q :: q in env.View().second ==> Table(env.id, Pdx(q)) in words
      modifies this`words, this`free, this`refs, env`spare, env`second
      ensures env.Valid() && env.second == []
      ensures View() == UnmapAll(old(View()), env.id, old(env.View()).second)
      ensures forall s: Slot :: !s.Entry? && s in old(words) ==> s in words
    {
      hide KernelState.UnmapFrame, PagesOf;
      while env.second != []
        invariant env.Valid()
        invariant forall q :: q in env.View().second ==> Table(env.id, Pdx(q)) in words
        invariant UnmapAll(old(View()), env.id, old(env.View()).second) == UnmapAll(View(), env.id, env.View().second)
        invariant forall s: Slot :: !s.Entry? && s in old(words) ==> s in words
        decreases |env.second|
      {
        FreeFirstOfSecondList(env);
      }
    }

    /** The loop body of env_free over ActiveList: unmap the first page and free its element. */
    method FreeFirstOfActiveList(env: Environment)
      requires env.Valid() && env.active != []
      modifies this`words, this`free, this`refs, env`spare, env`active
      ensures env.Valid() && |env.active| == |old(env.active)| - 1
      ensures View() == KernelState.UnmapFrame(old(View()), Entry(env.id, old(env.View()).active[0]))
      ensures env.View() == old(env.View()).(active := old(env.View()).active[1..])
      ensures words == old(words) - {Entry(env.id, old(env.View()).active[0])}
    {
      hide KernelState.UnmapFrame;
      env.Partition();
      var x := env.active[0];
      assert x in env.active && env.active == [x] + env.active[1..];
      PagesOfCons(env.va, x, env.active[1..]);
      UnmapFrameWords(View(), Entry(env.id, env.va[x]));
      UnmapFrame(Entry(env.id, env.va[x]));
      env.active := env.active[1..];
      env.spare := [x] + env.spare;
    }

    method FreeAllOfActiveList(env: Environment)
      requires env.Valid() && forall q :: q in env.View().active ==> Table(env.id, Pdx(q)) in words
      modifies this`words, this`free, this`refs, env`spare, env`active
      ensures env.Valid() && env.active == []
      ensures View() == UnmapAll(old(View()), env.id, old(env.View()).active)
      ensures forall s: Slot :: !s.Entry? && s in old(words) ==> s in words
    {
      hide KernelState.UnmapFrame, PagesOf;
      while env.active != []
        invariant env.Valid()
        invariant forall q :: q in env.View().active ==> Table(env.id, Pdx(q)) in words
        invariant UnmapAll(old(View()), env.id, old(env.View()).active) == UnmapAll(View(), env.id, env.View().active)
        invariant forall s: Slot :: !s.Entry? && s in old(words) ==> s in words
        decreases |env.active|
      {
        FreeFirstOfActiveList(env);
      }
    }

    method FreeSlot(s: Slot)
      modifies this`words, this`free, this`refs
      ensures View() == EnvFree.FreeSlot(old(View()), s)
    {
      if s in words {
        var f := words[s].frame;
        if (if f in refs then refs[f] else 0) != 0 { FreeFrame(f); }
        words := words - {s};
      }
    }

    method FreeAllTables(e: EnvId)
      modifies this`words, this`free, this`refs
      ensures View() == FreeTables(old(View()), e, 0)
    {
      hide EnvFree.FreeSlot;
      for d := 0 to USER_TABLES
        invariant FreeTables(old(View()), e, 0) == FreeTables(View(), e, d)
      {
        FreeSlot(Table(e, d));
      }
    }

    /** pf_free_env. */
    method PfFreeEnv(e: EnvId)
      modifies this`words, this`free, this`refs, this`pf, this`diskFree
      ensures View() == EnvFree.PfFreeEnv(old(View()), e)
    {
      hide KernelState.UnmapFrame;
      for d := 0 to USER_TABLES
        invariant FreeDiskTables(old(View()), e, 0) == FreeDiskTables(View(), e, d)
      {
        FreeOneDiskTable(e, d);
      }
      UnmapFrame(DiskDirectory(e));
    }

    method FreeOneDiskTable(e: EnvId, d: nat)
      modifies this`words, this`free, this`refs, this`pf, this`diskFree
      ensures View() == FreeDiskTable(old(View()), e, d)
    {
      hide KernelState.UnmapFrame, PfRemove;
      if DiskTable(e, d) in words {
        ghost var k0 := View();
        for i := 0 to 1024
          invariant PfRemoveRange(k0, e, 1024 * d, 1024) == PfRemoveRange(View(), e, 1024 * d + i, 1024 - i)
        {
          PfRemoveEnvPage(e, 1024 * d + i);
        }
        UnmapFrame(DiskTable(e, d));
      }
    }

    /** env_free. */
    method FreeEnvironment(env: Environment)
      requires env.Valid() && Owned(View()) && EnvOk(env.View(), View(), env.id)
      modifies this, env`spare, env`active, env`second
      ensures env.Valid() && env.active == [] && env.second == []
      ensures View() == EnvFree.EnvFree(old(env.View()), old(View()), env.id)
    {
      hide EnvOk, Owned, UnmapAll, FreeTables, EnvFree.FreeSlot, EnvFree.PfFreeEnv, PagesOf;
      ListedHaveTables(env.View(), View(), env.id);
      FreeAllOfSecondList(env);
      FreeAllOfActiveList(env);
      FreeAllTables(env.id);
      FreeSlot(Directory(env.id));
      PfFreeEnv(env.id);
      words := map s | s in words && s.env != env.id :: words[s];
    }
  }

  lemma ListedHaveTables(l: Lists, k: Kernel, e: EnvId)
    requires EnvOk(l, k, e)
    ensures forall q :: q in l.active || q in l.second ==> Table(e, Pdx(q)) in k.words
  {
    forall q | q in l.active || q in l.second ensures Table(e, Pdx(q)) in k.words {
      assert k.Mapped(e, q);
      assert Entry(e, q) in k.words;
    }
  }

  lemma TableCreated(l: Lists, k: Kernel, e: EnvId, p: Page)
    requires Owned(k) && EnvOk(l, k, e) && p < STACK_TOP && KernelState.Ensure(k, Table(e, Pdx(p))).Ok?
    requires !k.Present(e, p)
    ensures var k1 := KernelState.Ensure(k, Table(e, Pdx(p))).value;
      Owned(k1) && EnvOk(l, k1, e) && Table(e, Pdx(p)) in k1.words && !k1.Present(e, p)
  {
    var t := Table(e, Pdx(p));
    EnsureOwned(k, t);
    EnsureEffect(k, t);
    hide KernelState.Ensure, EnvOk, Unshared, Counted, DiskUnshared;
    TableFaultKeeps(map[], l, k, KernelState.Ensure(k, t).value, e, t);
  }

  lemma ReleaseActiveIs(l: Lists, k: Kernel, e: EnvId, p: Page)
    requires l.Valid() && p in l.active
    ensures var k1 := KernelState.UnmapFrame(k, Entry(e, p));
      UserMemory.ReleasePage(l, k, e, p) ==
        (if l.second == [] then l.(active := Without(l.active, p))
         else l.(active := Without(l.active, p) + [l.second[0]], second := l.second[1..]),
         DropEmptyTable(if l.second == [] then k1 else KernelState.SetPresent(k1, e, l.second[0], true), e, Pdx(p)))
  {
    UnlistActiveShape(l, p);
    hide KernelState.UnmapFrame, DropEmptyTable, Unlisted;
  }

  lemma ReleaseSecondIs(l: Lists, k: Kernel, e: EnvId, p: Page)
    requires l.Valid() && p in l.second && p !in l.active
    ensures UserMemory.ReleasePage(l, k, e, p) ==
            (l.(second := Without(l.second, p)), DropEmptyTable(KernelState.UnmapFrame(k, Entry(e, p)), e, Pdx(p)))
  {
    UnlistSecondShape(l, p);
    hide KernelState.UnmapFrame, DropEmptyTable, Unlisted;
  }

  lemma ReleaseNothing(l: Lists, k: Kernel, e: EnvId, p: Page)
    requires p !in l.active && p !in l.second
    ensures UserMemory.ReleasePage(l, k, e, p) == (l, k)
  {
  }

  lemma ReleaseKeepsSecond(l: Lists, k: Kernel, e: EnvId, p: Page)
    requires l.Valid() && forall q :: q in l.second ==> k.Mapped(e, q)
    ensures var (l', k') := UserMemory.ReleasePage(l, k, e, p);
      l'.Valid() && forall q :: q in l'.second ==> k'.Mapped(e, q)
  {
    if p in l.active || p in l.second {
      UnlistedDeletes(l, p);
      UnlistMembers(l, p);
      UnmapFrameWords(k, Entry(e, p));
      hide KernelState.UnmapFrame, Unlisted;
    }
  }

  /** What the handler relies on in every branch: the tails it takes exist and are mapped. */
  lemma FaultFacts(l: Lists, k: Kernel, e: EnvId, p: Page)
    requires Owned(k) && EnvOk(l, k, e) && !k.Present(e, p)
    ensures l.Valid() && p !in l.active
    ensures p !in l.second ==> !k.Mapped(e, p) && p !in l.Resident()
    ensures p in l.second ==> k.Mapped(e, p) && l.active != []
    ensures |l.active| == l.activeMax ==> l.active != [] && k.Mapped(e, Last(l.active))
    ensures l.active != [] ==> k.Mapped(e, Last(l.active))
    ensures l.Full() ==> |l.active| == l.activeMax && Evict(k, e, Last(l.Resident())).Ok?
    ensures l.second != [] ==> k.Mapped(e, Last(l.second)) && Last(l.second) != Last(l.active)
    ensures l.Full() && l.second != [] ==> Evict(k, e, Last(l.second)).Ok?
  {
    Separate(l);
    assert l.active != [] ==> Last(l.active) in l.active;
    assert l.second != [] ==> Last(l.second) in l.second;
    assert k.Mapped(e, p) ==> p in l.active || p in l.second || k.Present(e, p);
    if l.Full() {
      assert Last(l.Resident()) == if l.second == [] then Last(l.active) else Last(l.second);
      EvictLastEffect(l, k, e);
    }
  }

  /** The outcome of a fault whose kernel steps end in r with lists l'. */
  ghost predicate FaultIs(l: Lists, k: Kernel, e: EnvId, p: Page, r: Result<Kernel>, l': Lists) {
    && (Paging.PageFault(l, k, e, p).Panic? <==> r.Panic?)
    && (r.Ok? ==> Paging.PageFault(l, k, e, p) == Ok((l', r.value)))
  }

  lemma SpecPlacement(l: Lists, k: Kernel, e: EnvId, p: Page)
    requires l.Valid() && |l.active| < l.activeMax && p !in l.Resident()
    ensures FaultIs(l, k, e, p, PageIn(k, e, p), l.(active := [p] + l.active))
  {
    hide PageIn;
    PlacementShape(l, p);
  }

  lemma SpecPromotion(l: Lists, k: Kernel, e: EnvId, p: Page)
    requires l.Valid() && p in l.second
    ensures FaultIs(l, k, e, p, Ok(Paging.Promote(l, k, e, p)),
                    l.(active := [p] + l.active[..|l.active| - 1], second := [Last(l.active)] + Without(l.second, p)))
  {
    Separate(l);
    PromotionShape(l, p);
    hide Paging.Promote;
  }

  lemma SpecDemotion(l: Lists, k: Kernel, e: EnvId, p: Page)
    requires l.Valid() && |l.active| == l.activeMax && !l.Full() && p !in l.Resident()
    ensures FaultIs(l, k, e, p, PageIn(KernelState.SetPresent(k, e, Last(l.active), false), e, p),
                    l.(active := [p] + l.active[..|l.active| - 1], second := [Last(l.active)] + l.second))
  {
    hide PageIn;
    DemotionShape(l, p);
  }

  lemma SpecReplaceActive(l: Lists, k: Kernel, e: EnvId, p: Page)
    requires l.Valid() && l.Full() && l.secondMax == 0 && p !in l.Resident()
    ensures Evict(k, e, Last(l.active)).Panic? ==> Paging.PageFault(l, k, e, p).Panic?
    ensures Evict(k, e, Last(l.active)).Ok? ==>
              FaultIs(l, k, e, p, PageIn(Evict(k, e, Last(l.active)).value, e, p),
                      l.(active := [p] + l.active[..|l.active| - 1]))
  {
    hide PageIn, Evict;
    assert l.second == [] && l.Resident() == l.active;
    DemotionShape(l, p);
  }

  lemma SpecReplaceSecond(l: Lists, k: Kernel, e: EnvId, p: Page)
    requires l.Valid() && l.Full() && l.secondMax > 0 && p !in l.Resident() && Evict(k, e, Last(l.second)).Ok?
    ensures var k1 := Evict(k, e, Last(l.second)).value;
      FaultIs(l, k, e, p, PageIn(KernelState.SetPresent(k1, e, Last(l.active), false), e, p),
              l.(active := [p] + l.active[..|l.active| - 1],
                 second := [Last(l.active)] + l.second[..|l.second| - 1]))
  {
    hide PageIn, Evict;
    assert Last(l.Resident()) == Last(l.second);
    DemotionShape(l, p);
    var t := [Last(l.active)] + l.second;
    assert t[..l.secondMax] == [Last(l.active)] + l.second[..|l.second| - 1];
  }

  lemma SetPresentWords(k: Kernel, e: EnvId, q: Page, p: Page, on: bool)
    ensures KernelState.SetPresent(k, e, q, on).Mapped(e, p) <==> k.Mapped(e, p)
  {
  }

  lemma EvictLeaves(k: Kernel, e: EnvId, v: Page, q: Page)
    requires Evict(k, e, v).Ok? && k.Mapped(e, q) && q != v
    ensures Evict(k, e, v).value.Mapped(e, q)
  {
    if k.Mapped(e, v) {
      var w := k.words[Entry(e, v)];
      if w.modified { EnsureEffect(k, DiskDirectory(e)); }
      var k1 := if w.modified then PfUpdate(k, e, v, w.frame).value else k;
      UnmapFrameWords(k1, Entry(e, v));
    }
  }

  ghost predicate MapFrameEntry(k: Kernel, e: EnvId, p: Page, f: Frame) {
    KernelState.MapFrame(k, e, p, f).Ok? ==> KernelState.MapFrame(k, e, p, f).value.Mapped(e, p)
  }
}
