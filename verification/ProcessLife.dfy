/**
 * A process from env_create to env_free on the mutable kernel: however it loads, stores, allocates
 * and releases, its three lists partition its working set elements after every step, and the kernel
 * is in the state the run has on values.
 */
module ProcessLife {
  import opened Sequences
  import opened TwoLists
  import opened KernelState
  import opened Paging
  import opened PageFaultHandler
  import U = UserMemory
  import E = EnvCreate
  import M = Machine
  import C = Conservation
  import Loader

  /** The state on values that has the mutable kernel and environment in it. */
  ghost predicate Shows(s: M.Sys, mem: KernelMemory, env: Environment)
    reads mem, env
  {
    env.id in s.envs && s.envs[env.id] == env.View() && s.k == mem.View()
  }

  /** A load, or the access before a store. */
  method Access(mem: KernelMemory, env: Environment, p: Page, ghost s: M.Sys, ghost h: Stores) returns (r: Result<()>)
    requires env.Valid() && Shows(s, mem, env) && M.Good(s, h)
    modifies mem, env
    ensures r.Panic? <==> Touch(s.envs[env.id], s.k, env.id, p).Panic?
    ensures r.Ok? ==> env.Valid() && Touch(s.envs[env.id], s.k, env.id, p) == Ok((env.View(), mem.View()))
  {
    hide Touch, EnvOk, Owned, Kept;
    M.EnvsOkAt(s, env.id);
    r := mem.Access(env, p);
  }

  /** The processor's store into a present page. */
  method Write(mem: KernelMemory, e: EnvId, p: Page, o: nat, v: byte)
    requires Entry(e, p) in mem.words && o < PAGE_SIZE
    modifies mem
    ensures mem.View() == U.StoreByte(old(mem.View()), e, p, o, v)
  {
    var f := mem.words[Entry(e, p)].frame;
    var data := if f in mem.ram then mem.ram[f] else Blank();
    mem.ram := mem.ram[f := data[o := v]];
    mem.words := mem.words[Entry(e, p) := mem.words[Entry(e, p)].(modified := true)];
  }

  /** One operation of the process. */
  method Do(mem: KernelMemory, env: Environment, op: M.Op, ghost s: M.Sys, ghost h: Stores)
    requires env.Valid() && Shows(s, mem, env) && M.Good(s, h)
    requires C.Own(op, env.id) && M.Allowed(s, op) && M.Step(s, op).Ok?
    modifies mem, env
    ensures env.Valid() && Shows(M.Step(s, op).value.0, mem, env)
  {
    hide Touch, EnvOk, Owned, Kept, U.AllocateMem, U.FreeMem, U.StoreByte, M.Good, M.HasPlace;
    match op
    case Load(e, p, o) => var r := Access(mem, env, p, s, h);
    case Store(e, p, o, v) =>
      StoreFinds(s, h, e, p);
      var r := Access(mem, env, p, s, h);
      Write(mem, e, p, o, v);
    case Alloc(e, p, n) => var r := mem.AllocateMem(e, p, n);
    case Release(e, p, n) =>
      ListsMapped(s, h, e);
      mem.FreeMem(env, p, n);
  }

  lemma StoreFinds(s: M.Sys, h: Stores, e: EnvId, p: Page)
    requires M.Good(s, h) && e in s.envs && M.HasPlace(s.k, e, p) && Touch(s.envs[e], s.k, e, p).Ok?
    ensures Touch(s.envs[e], s.k, e, p).value.1.Mapped(e, p)
  {
    hide Touch, EnvOk, Owned, Kept;
    M.EnvsOkAt(s, e);
    TouchKeeps(h, s.envs[e], s.k, e, p);
  }

  lemma ListsMapped(s: M.Sys, h: Stores, e: EnvId)
    requires M.Good(s, h) && e in s.envs
    ensures s.envs[e].Valid() && forall q :: q in s.envs[e].second ==> s.k.Mapped(e, q)
  {
    hide Owned, Kept, Structured;
    M.EnvsOkAt(s, e);
  }

  /** Any run of the process: after each operation the lists partition the elements, as env.Valid() says. */
  method Run(mem: KernelMemory, env: Environment, ops: seq<M.Op>, ghost s: M.Sys, ghost h: Stores)
    requires env.Valid() && Shows(s, mem, env) && M.Good(s, h)
    requires M.RunsFrom(s, ops) && forall i :: 0 <= i < |ops| ==> C.Own(ops[i], env.id)
    modifies mem, env
    ensures env.Valid() && Shows(M.After(s, ops), mem, env)
  {
    hide M.Good, M.Step, M.Allowed, Shows, M.Remember;
    ghost var (t, g) := (s, h);
    for i := 0 to |ops|
      invariant env.Valid() && Shows(t, mem, env) && M.Good(t, g)
      invariant M.RunsFrom(t, ops[i..]) && M.After(t, ops[i..]) == M.After(s, ops)
    {
      assert ops[i..][0] == ops[i] && ops[i..][1..] == ops[i + 1..];
      M.StepKeeps(t, g, ops[i]);
      Do(mem, env, ops[i], t, g);
      g := M.Remember(g, ops[i]);
      t := M.Step(t, ops[i]).value.0;
    }
  }

  /**
   * env_create, a run, env_free: the mutable kernel ends in the state of the run on values, so what is
   * proved of runs is true of it.
   */
  method Live(mem: KernelMemory, create: M.Op, ops: seq<M.Op>, ghost s: M.Sys, ghost h: Stores)
    requires M.Good(s, h) && s.k == mem.View() && create.Create?
    requires M.RunsFrom(s, [create]) && M.RunsFrom(M.After(s, [create]), ops)
    requires forall i :: 0 <= i < |ops| ==> C.Own(ops[i], create.e)
    modifies mem
    ensures var t := M.After(M.After(s, [create]), ops);
      M.Step(t, M.Exit(create.e)).Ok? && mem.View() == M.Step(t, M.Exit(create.e)).value.0.k
  {
    hide M.Good, Owned, EnvOk, E.EnvCreate, E.GoodProgram, E.FileDemand, M.EnvFree.EnvFree, M.Remember, M.Remembered;
    C.OneStep(s, create);
    M.StepKeeps(s, h, create);
    ghost var s1 := M.Step(s, create).value.0;
    ghost var h1 := M.Remember(h, create);
    var r, env := Loader.CreateEnvironment(mem, create.e, create.activeMax, create.secondMax, create.prog);
    Run(mem, env, ops, s1, h1);
    M.RunKeeps(s1, h1, ops);
    ghost var t := M.After(s1, ops);
    GoodEnv(t, M.Remembered(h1, ops), create.e);
    mem.FreeEnvironment(env);
  }

  lemma GoodEnv(s: M.Sys, h: Stores, e: EnvId)
    requires M.Good(s, h) && e in s.envs
    ensures Owned(s.k) && EnvOk(s.envs[e], s.k, e)
  {
    hide Owned, EnvOk, Kept;
    M.EnvsOkAt(s, e);
  }
}
