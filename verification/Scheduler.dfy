/**
 * The round-robin scheduler (kern/sched.c) over the lists of IntrusiveList. An environment is put
 * at the head of a queue and taken from its tail.
 */
module Scheduler {
  import opened Sequences
  import opened IntrusiveList

  /** The three queues, the running environment, and whether the scheduler is started. */
  datatype Queues = Queues(made: seq<Node>, ready: seq<Node>, done: seq<Node>, cur: Node?, started: bool)

  /** The running environment, as a sequence of at most one. */
  function Running(q: Queues): seq<Node> { if q.cur == null then [] else [q.cur] }

  function Everyone(q: Queues): seq<Node> { q.made + q.ready + q.done + Running(q) }

  /** fos_scheduler: the running environment goes to the back, the one at the front runs. */
  function Dispatched(q: Queues): Queues {
    var r := Running(q) + q.ready;
    if r == [] then q.(ready := r, cur := null, started := false)
    else q.(ready := Front(r), cur := r[|r| - 1], started := true)
  }

  function Kicked(q: Queues): Queues { if q.started then q else Dispatched(q) }

  /** The position of the first environment with this id, or the length. */
  function FindId(s: seq<Node>, id: nat): (k: nat)
    ensures k <= |s| && (k < |s| ==> s[k].id == id) && forall i :: 0 <= i < k ==> s[i].id != id
  {
    if s == [] || s[0].id == id then 0 else 1 + FindId(s[1..], id)
  }

  function Omit(s: seq<Node>, k: nat): seq<Node>
    requires k < |s|
  {
    s[..k] + s[k + 1..]
  }

  datatype Op =
    | New(e: Node)
    | RunEnv(id: nat)
    | RunAll
    | Tick
    | ExitEnv(id: nat)
    | ExitAllReady

  /** sched_new_env, sched_run_env, sched_run_all, the clock interrupt, sched_exit_env, sched_exit_all_ready_envs. */
  function Done(q: Queues, op: Op): Queues {
    match op
    case New(e) => q.(made := [e] + q.made)
    case RunEnv(id) =>
      var k := FindId(q.made, id);
      if k == |q.made| then q
      else Kicked(q.(made := Omit(q.made, k), ready := [q.made[k]] + q.ready))
    case RunAll => Kicked(q.(made := [], ready := Reverse(q.made) + q.ready))
    case Tick => Dispatched(q)
    case ExitEnv(id) =>
      var k := FindId(q.ready, id);
      if k < |q.ready| then Left(q.(ready := Omit(q.ready, k), done := [q.ready[k]] + q.done), id)
      else if q.cur != null && q.cur.id == id then Dispatched(q.(done := [q.cur] + q.done, cur := null))
      else q
    case ExitAllReady => q.(ready := [], done := Reverse(q.ready) + q.done)
  }

  /** If the environment that exited is the running one too, another is dispatched. */
  function Left(q: Queues, id: nat): Queues {
    if q.cur != null && q.cur.id == id then Dispatched(q.(cur := null)) else q
  }

  /** What the callers are held to: a new environment is in no queue, and exit finds it ready or running. */
  ghost predicate Allowed(q: Queues, op: Op) {
    match op
    case New(e) => e !in Everyone(q)
    case ExitEnv(id) => q.cur != null && forall i :: 0 <= i < |q.made| ==> q.made[i].id != id
    case _ => true
  }

  class Scheduler {
    const newQueue: List
    const readyQueue: List
    const exitQueue: List
    var curenv: Node?
    var started: bool

    ghost predicate Valid()
      reads this, newQueue, readyQueue, exitQueue, newQueue.nodes, readyQueue.nodes, exitQueue.nodes
    {
      && newQueue != readyQueue && newQueue != exitQueue && readyQueue != exitQueue
      && newQueue.Valid() && readyQueue.Valid() && exitQueue.Valid()
      && Separate(newQueue.nodes, readyQueue.nodes, exitQueue.nodes, curenv)
    }

    ghost function State(): Queues
      reads this, newQueue, readyQueue, exitQueue
    {
      Queues(newQueue.nodes, readyQueue.nodes, exitQueue.nodes, curenv, started)
    }

    /** sched_init */
    constructor ()
      ensures Valid() && State() == Queues([], [], [], null, false)
      ensures fresh(newQueue) && fresh(readyQueue) && fresh(exitQueue)
    {
      newQueue := new List();
      readyQueue := new List();
      exitQueue := new List();
      curenv, started := null, false;
    }

    /** fos_scheduler; env_run makes next the running environment. */
    method FosScheduler()
      requires Valid()
      modifies this, readyQueue, readyQueue.nodes, Ones(curenv)
      ensures Valid() && State() == Dispatched(old(State()))
    {
      hide Chain, Distinct, Front, Separate;
      Requeue();
      TakeNext();
    }

    /** The running environment, if any, goes to the ready queue. */
    method Requeue()
      requires Valid()
      modifies this`curenv, readyQueue, readyQueue.nodes, Ones(curenv)
      ensures Valid()
      ensures var q := old(State()); State() == q.(ready := Running(q) + q.ready, cur := null)
    {
      hide Chain, Distinct, Front;
      ghost var q := State();
      HeadApart(q);
      if curenv != null {
        readyQueue.InsertHead(curenv);
      }
      curenv := null;
    }

    /** The last ready environment, if any, runs. */
    method TakeNext()
      requires Valid() && curenv == null
      modifies this, readyQueue, readyQueue.nodes
      ensures Valid()
      ensures var r := old(State()).ready;
        State() == old(State()).(ready := if r == [] then r else Front(r), cur := EndOr(r, null), started := r != [])
    {
      hide Chain, Distinct, Front;
      TailApart(newQueue.nodes, exitQueue.nodes, readyQueue.nodes);
      var next := readyQueue.Dequeue();
      curenv := next;
      started := next != null;
    }

    /** sched_new_env */
    method NewEnv(e: Node)
      requires Valid() && e !in Everyone(State())
      modifies newQueue, newQueue.nodes, e
      ensures Valid() && State() == Done(old(State()), New(e))
    {
      hide Chain, Distinct;
      NewApart(State(), e);
      newQueue.InsertHead(e);
    }

    /** sched_run_env: an environment that is not new is not run; a stopped scheduler starts. */
    method RunEnvById(id: nat)
      requires Valid()
      modifies this, newQueue, readyQueue, newQueue.nodes, readyQueue.nodes, Ones(curenv)
      ensures Valid() && State() == Done(old(State()), RunEnv(id))
    {
      hide Chain, Distinct, Dispatched, FindId;
      ghost var q := State();
      var e, k := newQueue.Find(id);
      FindIdIs(q.made, id, k);
      if e != null {
        ToReady(e, k);
        if !started {
          FosScheduler();
        }
      }
    }

    /** sched_remove_new and sched_insert_ready */
    method ToReady(e: Node, ghost k: nat)
      requires Valid() && k < |newQueue.nodes| && newQueue.nodes[k] == e
      modifies newQueue, readyQueue, newQueue.nodes, readyQueue.nodes
      ensures Valid()
      ensures var q := old(State()); State() == q.(made := Omit(q.made, k), ready := [e] + q.ready)
    {
      hide Chain, Distinct;
      ghost var q := State();
      Moves(q.made, q.ready, q.done, q.cur, k);
      newQueue.Remove(e, q.made[..k], q.made[k + 1..]);
      readyQueue.InsertHead(e);
    }

    /** sched_run_all */
    method RunEveryNew()
      requires Valid()
      modifies this, newQueue, readyQueue, newQueue.nodes, readyQueue.nodes, Ones(curenv)
      ensures Valid() && State() == Done(old(State()), RunAll)
    {
      hide Chain, Distinct, Dispatched, Reverse;
      ghost var q := State();
      MovesAll(q.made, q.ready, q.done, q.cur);
      ghost var visited := MoveAll(newQueue, readyQueue);
      if !started {
        FosScheduler();
      }
    }

    /** sched_exit_env of a ready or running environment. */
    method ExitEnvById(id: nat)
      requires Valid() && Allowed(State(), ExitEnv(id))
      modifies this, newQueue, readyQueue, exitQueue, readyQueue.nodes, exitQueue.nodes, Ones(curenv)
      ensures Valid() && State() == Done(old(State()), ExitEnv(id))
    {
      hide Chain, Distinct, Dispatched, FindId, Separate;
      ghost var q := State();
      var e, j := newQueue.Find(id);
      ghost var k;
      e, k := readyQueue.Find(id);
      FindIdIs(q.ready, id, k);
      if e != null {
        ToExit(e, k);
        RunAnother(id);
      } else if curenv.id == id {
        RunningExits();
        FosScheduler();
      }
    }

    /** The running environment does not go on if it is the one that exited. */
    method RunAnother(id: nat)
      requires Valid() && curenv != null
      modifies this, readyQueue, readyQueue.nodes
      ensures Valid() && State() == Left(old(State()), id)
    {
      hide Chain, Distinct, Dispatched;
      if curenv.id == id {
        curenv := null;
        FosScheduler();
      }
    }

    method ToExit(e: Node, ghost k: nat)
      requires Valid() && k < |readyQueue.nodes| && readyQueue.nodes[k] == e
      modifies readyQueue, exitQueue, readyQueue.nodes, exitQueue.nodes
      ensures Valid()
      ensures var q := old(State()); State() == q.(ready := Omit(q.ready, k), done := [e] + q.done)
    {
      hide Chain, Distinct;
      ghost var q := State();
      Moves(q.ready, q.done, q.made, q.cur, k);
      readyQueue.Remove(e, q.ready[..k], q.ready[k + 1..]);
      exitQueue.InsertHead(e);
    }

    method RunningExits()
      requires Valid() && curenv != null
      modifies this, exitQueue, exitQueue.nodes, Ones(curenv)
      ensures Valid() && State() == old(State()).(done := [old(curenv)] + old(State()).done, cur := null)
    {
      hide Chain, Distinct;
      CurApart(State());
      exitQueue.InsertHead(curenv);
      curenv := null;
    }

    /** sched_exit_all_ready_envs */
    method ExitEveryReady()
      requires Valid()
      modifies readyQueue, exitQueue, readyQueue.nodes, exitQueue.nodes
      ensures Valid() && State() == Done(old(State()), ExitAllReady)
    {
      hide Chain, Distinct, Reverse;
      ghost var q := State();
      MovesAll(q.ready, q.done, q.made, q.cur);
      ghost var visited := MoveAll(readyQueue, exitQueue);
    }
  }

  ghost predicate Out(s: seq<Node>, e: Node?) { forall i :: 0 <= i < |s| ==> s[i] != e }

  /** The queues and the running environment have nothing in common. */
  ghost predicate Separate(a: seq<Node>, b: seq<Node>, c: seq<Node>, e: Node?) {
    Disjoint(a, b) && Disjoint(a, c) && Disjoint(b, c) && Out(a, e) && Out(b, e) && Out(c, e)
  }

  lemma HeadApart(q: Queues)
    requires Separate(q.made, q.ready, q.done, q.cur)
    ensures var r := Running(q) + q.ready;
      && Separate(q.made, r, q.done, null)
      && (if q.cur == null then r == q.ready else r == [q.cur] + q.ready && q.cur !in q.ready)
      && (forall x :: x in r ==> x in q.ready || x == q.cur)
  {
  }

  lemma TailApart(a: seq<Node>, c: seq<Node>, r: seq<Node>)
    requires Separate(a, r, c, null) && Distinct(r)
    ensures Separate(a, Front(r), c, EndOr(r, null)) && (r == [] ==> Front(r) == r)
  {
  }

  lemma NewApart(q: Queues, e: Node)
    requires e !in Everyone(q) && Separate(q.made, q.ready, q.done, q.cur)
    ensures e !in q.made && Out(q.ready, e) && Out(q.done, e) && e != q.cur && Separate([e] + q.made, q.ready, q.done, q.cur)
  {
    var (a, b, c, d) := (q.made, q.ready, q.done, Running(q));
    assert forall x :: x in a || x in b || x in c || x in d ==> x in a + b + c + d;
    assert q.cur != null ==> q.cur in d;
  }

  lemma FindIdIs(s: seq<Node>, id: nat, k: nat)
    requires k <= |s| && (forall i :: 0 <= i < k ==> s[i].id != id) && (k < |s| ==> s[k].id == id)
    ensures k == FindId(s, id)
  {
  }

  /** Element k leaves a for the head of b; c is the third queue. */
  lemma Moves(a: seq<Node>, b: seq<Node>, c: seq<Node>, cur: Node?, k: nat)
    requires k < |a| && Distinct(a) && (Separate(a, b, c, cur) || Separate(c, a, b, cur))
    ensures a == a[..k] + [a[k]] + a[k + 1..] && a[k] !in b && Out(b, a[k]) && Out(c, a[k])
    ensures Separate(a, b, c, cur) ==> Separate(Omit(a, k), [a[k]] + b, c, cur)
    ensures Separate(c, a, b, cur) ==> Separate(c, Omit(a, k), [a[k]] + b, cur)
  {
  }

  lemma MovesAll(a: seq<Node>, b: seq<Node>, c: seq<Node>, cur: Node?)
    requires Separate(a, b, c, cur) || Separate(c, a, b, cur)
    ensures Separate(a, b, c, cur) ==> Separate([], Reverse(a) + b, c, cur)
    ensures Separate(c, a, b, cur) ==> Separate(c, [], Reverse(a) + b, cur)
    ensures forall i :: 0 <= i < |Reverse(a) + b| ==> (Reverse(a) + b)[i] in a || (Reverse(a) + b)[i] in b
  {
    ReverseAt(a);
    hide Reverse;
    var t := Reverse(a) + b;
    forall i | 0 <= i < |t| ensures t[i] in a || t[i] in b {
      if i < |a| { assert t[i] == a[|a| - 1 - i]; } else { assert t[i] == b[i - |a|]; }
    }
  }

  lemma CurApart(q: Queues)
    requires q.cur != null && Separate(q.made, q.ready, q.done, q.cur)
    ensures q.cur !in q.done && Separate(q.made, q.ready, [q.cur] + q.done, null)
  {
  }
}
