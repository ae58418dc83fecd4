/**
 * What round robin promises over whole runs of scheduler calls: nobody is lost or in two places,
 * nobody starves, and nobody is overtaken.
 */
module RoundRobin {
  import opened Sequences
  import opened IntrusiveList
  import opened Scheduler

  // ----- nobody is lost, nobody is in two places -----

  /** No two environments share an id, and none is in two places. */
  ghost predicate Proper(q: Queues) {
    && Distinct(Everyone(q))
    && forall x, y :: x in Everyone(q) && y in Everyone(q) && x.id == y.id ==> x == y
  }

  /** The environment the call brings, if any. */
  function News(op: Op): seq<Node> { if op.New? then [op.e] else [] }

  lemma DispatchKeeps(q: Queues)
    ensures multiset(Everyone(Dispatched(q))) == multiset(Everyone(q))
  {
    hide Everyone, Front;
    var r := Running(q) + q.ready;
    JoinKeeps(Running(q), q.ready);
    if r != [] { LastKeeps(r); }
    Parts(q);
    Parts(Dispatched(q));
  }

  lemma LastKeeps(r: seq<Node>)
    requires r != []
    ensures multiset(r) == multiset(Front(r)) + multiset([r[|r| - 1]])
  {
    assert r == Front(r) + [r[|r| - 1]];
  }

  lemma Parts(q: Queues)
    ensures multiset(Everyone(q)) == multiset(q.made) + multiset(q.ready) + multiset(q.done) + multiset(Running(q))
  {
  }

  lemma OmitKeeps(s: seq<Node>, k: nat)
    requires k < |s|
    ensures multiset(s) == multiset(Omit(s, k)) + multiset{s[k]}
  {
    assert s == s[..k] + [s[k]] + s[k + 1..];
  }

  lemma {:induction false} ReverseKeeps(s: seq<Node>)
    ensures multiset(Reverse(s)) == multiset(s)
  {
    if s != [] {
      assert s == [s[0]] + s[1..];
      ReverseKeeps(s[1..]);
    }
  }

  lemma JoinKeeps(a: seq<Node>, b: seq<Node>)
    ensures multiset(a + b) == multiset(a) + multiset(b)
  {
  }

  /** Every call keeps everyone, once each, and adds exactly the new environment. */
  lemma CallKeepsEveryone(q: Queues, op: Op)
    requires Proper(q) && Allowed(q, op)
    ensures multiset(Everyone(Done(q, op))) == multiset(Everyone(q)) + multiset(News(op))
  {
    hide Dispatched, FindId, Reverse, Everyone, Omit, Proper, Left;
    Parts(q);
    Parts(Done(q, op));
    match op
    case New(e) => JoinKeeps([e], q.made);
    case RunEnv(id) => RunKeeps(q, id);
    case RunAll => RunAllKeeps(q);
    case Tick => DispatchKeeps(q);
    case ExitEnv(id) => ExitKeeps(q, id);
    case ExitAllReady =>
      ReverseKeeps(q.ready);
      JoinKeeps(Reverse(q.ready), q.done);
  }

  lemma KickKeeps(q: Queues)
    ensures multiset(Everyone(Kicked(q))) == multiset(Everyone(q))
  {
    DispatchKeeps(q);
  }

  lemma RunKeeps(q: Queues, id: nat)
    ensures multiset(Everyone(Done(q, RunEnv(id)))) == multiset(Everyone(q))
  {
    hide Dispatched, FindId, Everyone, Omit, Kicked;
    var k := FindId(q.made, id);
    if k < |q.made| {
      var q1 := q.(made := Omit(q.made, k), ready := [q.made[k]] + q.ready);
      OmitKeeps(q.made, k);
      JoinKeeps([q.made[k]], q.ready);
      Parts(q);
      Parts(q1);
      KickKeeps(q1);
    }
  }

  lemma RunAllKeeps(q: Queues)
    ensures multiset(Everyone(Done(q, RunAll))) == multiset(Everyone(q))
  {
    hide Dispatched, Everyone, Kicked, Reverse;
    var q1 := q.(made := [], ready := Reverse(q.made) + q.ready);
    ReverseKeeps(q.made);
    JoinKeeps(Reverse(q.made), q.ready);
    Parts(q);
    Parts(q1);
    KickKeeps(q1);
  }

  lemma ExitKeeps(q: Queues, id: nat)
    requires Proper(q)
    ensures multiset(Everyone(Done(q, ExitEnv(id)))) == multiset(Everyone(q))
  {
    hide Dispatched, FindId, Omit, Proper, Everyone;
    var k := FindId(q.ready, id);
    if k < |q.ready| {
      if q.cur != null { NotAlsoRunning(q, k); }
      ReadyExits(q, k);
    } else if q.cur != null && q.cur.id == id {
      RunningExits(q);
      DispatchKeeps(q.(done := [q.cur] + q.done, cur := null));
    }
  }

  lemma ReadyExits(q: Queues, k: nat)
    requires k < |q.ready|
    ensures multiset(Everyone(q.(ready := Omit(q.ready, k), done := [q.ready[k]] + q.done))) == multiset(Everyone(q))
  {
    hide Everyone, Omit;
    var q1 := q.(ready := Omit(q.ready, k), done := [q.ready[k]] + q.done);
    OmitKeeps(q.ready, k);
    JoinKeeps([q.ready[k]], q.done);
    Parts(q);
    Parts(q1);
  }

  lemma RunningExits(q: Queues)
    requires q.cur != null
    ensures multiset(Everyone(q.(done := [q.cur] + q.done, cur := null))) == multiset(Everyone(q))
  {
    hide Everyone;
    JoinKeeps([q.cur], q.done);
    Parts(q);
    Parts(q.(done := [q.cur] + q.done, cur := null));
  }

  lemma NotAlsoRunning(q: Queues, k: nat)
    requires Proper(q) && k < |q.ready| && q.cur != null
    ensures q.ready[k].id != q.cur.id
  {
    var s := Everyone(q);
    var (i, j) := (|q.made| + k, |s| - 1);
    assert s[i] == q.ready[k] && s[j] == q.cur;
  }

  /** Nobody is ever in two of the queues or in one of them while running. */
  lemma CallKeepsProper(q: Queues, op: Op)
    requires Proper(q) && Allowed(q, op) && (op.New? ==> forall x :: x in Everyone(q) ==> x.id != op.e.id)
    ensures Proper(Done(q, op))
  {
    hide Everyone, Done, Distinct;
    var (s, t) := (Everyone(q), Everyone(Done(q, op)));
    CallKeepsEveryone(q, op);
    JoinKeeps(s, News(op));
    OneMore(s, op);
    SameMembers(s + News(op), t);
    forall x, y | x in t && y in t && x.id == y.id ensures x == y {
      assert x in s + News(op) && y in s + News(op);
    }
  }

  lemma OneMore(s: seq<Node>, op: Op)
    requires Distinct(s) && (op.New? ==> op.e !in s)
    ensures Distinct(s + News(op)) && forall x :: x in s + News(op) <==> x in s || (op.New? && x == op.e)
  {
  }

  /** A rearrangement has the same members, and is distinct if they were. */
  lemma SameMembers(s: seq<Node>, t: seq<Node>)
    requires multiset(s) == multiset(t)
    ensures Distinct(s) ==> Distinct(t)
    ensures forall x :: x in t <==> x in s
  {
    if Distinct(s) {
      DistinctCounts(s);
      CountsDistinct(t);
    }
    hide Distinct;
    forall x ensures x in t <==> x in s {
      assert x in t <==> x in multiset(t);
      assert x in s <==> x in multiset(s);
    }
  }

  lemma {:induction false} DistinctCounts(s: seq<Node>)
    requires Distinct(s)
    ensures forall x :: multiset(s)[x] <= 1
  {
    if s != [] {
      assert s == [s[0]] + s[1..];
      DistinctCounts(s[1..]);
      assert s[0] !in s[1..];
    }
  }

  lemma CountsDistinct(s: seq<Node>)
    requires forall x :: multiset(s)[x] <= 1
    ensures Distinct(s)
  {
    forall i, j | 0 <= i < j < |s| ensures s[i] != s[j] {
      OmitKeeps(s, i);
      assert Omit(s, i)[j - 1] == s[j];
      assert multiset(Omit(s, i))[s[j]] >= 1;
      assert multiset(s)[s[i]] == multiset(Omit(s, i))[s[i]] + 1;
    }
  }

  // ----- nobody starves -----

  /** e is ready with d environments in front of it. */
  ghost predicate Waits(q: Queues, e: Node, d: nat) { d < |q.ready| && q.ready[|q.ready| - 1 - d] == e }

  /** Does the call invoke the scheduler? */
  predicate Schedules(q: Queues, op: Op) {
    match op
    case New(_) => false
    case RunEnv(id) => FindId(q.made, id) < |q.made| && !q.started
    case RunAll => !q.started
    case Tick => true
    case ExitEnv(id) => FindId(q.ready, id) == |q.ready| && q.cur != null && q.cur.id == id
    case ExitAllReady => false
  }

  function B(b: bool): nat { if b then 1 else 0 }

  /** The call does not make e exit. */
  predicate Spares(op: Op, e: Node) { !op.ExitAllReady? && (op.ExitEnv? ==> op.id != e.id) }

  lemma DispatchAdvances(q: Queues, e: Node, d: nat)
    requires Waits(q, e, d)
    ensures if d == 0 then Dispatched(q).cur == e else Waits(Dispatched(q), e, d - 1)
  {
  }

  /** The environments in front of one with d in front of it, after the call. */
  function Closer(q: Queues, op: Op, d: nat): int {
    if op.ExitEnv? && FindId(q.ready, op.id) < |q.ready| then d - B(FindId(q.ready, op.id) > |q.ready| - 1 - d)
    else d - B(Schedules(q, op))
  }

  /** One call: e moves up by at least one whenever the scheduler is invoked, and never falls back. */
  lemma CallAdvances(q: Queues, op: Op, e: Node, d: nat)
    requires Waits(q, e, d) && Spares(op, e) && Proper(q)
    ensures if d == 0 && Schedules(q, op) then Done(q, op).cur == e
            else 0 <= Closer(q, op, d) <= d - B(Schedules(q, op)) && Waits(Done(q, op), e, Closer(q, op, d))
  {
    hide Dispatched, Reverse, Proper;
    match op
    case New(_) =>
    case RunEnv(id) =>
      var k := FindId(q.made, id);
      if Schedules(q, op) { DispatchAdvances(q.(made := Omit(q.made, k), ready := [q.made[k]] + q.ready), e, d); }
    case RunAll =>
      if Schedules(q, op) { DispatchAdvances(q.(made := [], ready := Reverse(q.made) + q.ready), e, d); }
    case Tick => DispatchAdvances(q, e, d);
    case ExitEnv(id) => ExitAdvances(q, id, e, d);
    case ExitAllReady =>
  }

  lemma ExitAdvances(q: Queues, id: nat, e: Node, d: nat)
    requires Waits(q, e, d) && id != e.id && Proper(q)
    ensures var op := ExitEnv(id);
      if d == 0 && Schedules(q, op) then Done(q, op).cur == e
      else 0 <= Closer(q, op, d) <= d - B(Schedules(q, op)) && Waits(Done(q, op), e, Closer(q, op, d))
  {
    hide Dispatched, Proper;
    var k := FindId(q.ready, id);
    if k < |q.ready| {
      if q.cur != null { NotAlsoRunning(q, k); }
      assert |q.ready| - 1 - d != k;
    } else if q.cur != null && q.cur.id == id {
      DispatchAdvances(q.(done := [q.cur] + q.done, cur := null), e, d);
    }
  }

  function Ran(q: Queues, ops: seq<Op>): Queues
    decreases |ops|
  {
    if ops == [] then q else Ran(Done(q, ops[0]), ops[1..])
  }

  /** How often the run invokes the scheduler. */
  function Calls(q: Queues, ops: seq<Op>): nat
    decreases |ops|
  {
    if ops == [] then 0 else B(Schedules(q, ops[0])) + Calls(Done(q, ops[0]), ops[1..])
  }

  /** Every call of the run is allowed where it is made, and new ids are new. */
  ghost predicate Lawful(q: Queues, ops: seq<Op>)
    decreases |ops|
  {
    ops == [] || (
      && Allowed(q, ops[0]) && (ops[0].New? ==> forall x :: x in Everyone(q) ==> x.id != ops[0].e.id)
      && Lawful(Done(q, ops[0]), ops[1..]))
  }

  /**
   * No starvation: whatever else arrives or exits, an environment with d others in front of it runs
   * at the latest at the (d+1)-th scheduler call from now.
   */
  lemma {:induction false} BoundedWaiting(q: Queues, e: Node, d: nat, ops: seq<Op>) returns (n: nat)
    requires Waits(q, e, d) && Proper(q) && Lawful(q, ops) && Calls(q, ops) > d
    requires forall i :: 0 <= i < |ops| ==> Spares(ops[i], e)
    ensures 0 < n <= |ops| && Ran(q, ops[..n]).cur == e && Calls(q, ops[..n]) <= d + 1
    decreases |ops|
  {
    hide Done, Schedules, Waits, Proper, Allowed, Spares, Everyone, Closer;
    var q1 := Done(q, ops[0]);
    CallAdvances(q, ops[0], e, d);
    var d1 := Closer(q, ops[0], d);
    OneCall(q, ops);
    if d == 0 && Schedules(q, ops[0]) {
      n := 1;
    } else {
      CallKeepsProper(q, ops[0]);
      var m := BoundedWaiting(q1, e, d1, ops[1..]);
      n := m + 1;
      assert ops[..n][1..] == ops[1..][..m] && ops[..n][0] == ops[0];
    }
  }

  lemma OneCall(q: Queues, ops: seq<Op>)
    requires ops != []
    ensures Ran(q, ops[..1]) == Done(q, ops[0]) && Calls(q, ops[..1]) == B(Schedules(q, ops[0]))
  {
    assert ops[..1] == [ops[0]] && [ops[0]][1..] == [];
    hide Done, Schedules;
  }

  // ----- nobody is overtaken -----

  /** One call keeps the order of two waiting environments. */
  lemma CallKeepsOrder(q: Queues, op: Op, a: Node, da: nat, b: Node, db: nat)
    requires Waits(q, a, da) && Waits(q, b, db) && da < db && Spares(op, a) && Spares(op, b) && Proper(q)
    ensures Closer(q, op, da) < Closer(q, op, db)
  {
    if op.ExitEnv? && FindId(q.ready, op.id) < |q.ready| {
      var k := FindId(q.ready, op.id);
      assert q.ready[|q.ready| - 1 - da] == a && q.ready[|q.ready| - 1 - db] == b;
      assert k != |q.ready| - 1 - da && k != |q.ready| - 1 - db;
    }
  }

  /** First come, first served: if b was behind a and runs at the end, a ran on the way, unless one of them was made to exit. */
  lemma {:induction false} NoOvertaking(q: Queues, a: Node, da: nat, b: Node, db: nat, ops: seq<Op>) returns (n: nat)
    requires Waits(q, a, da) && Waits(q, b, db) && da < db && Proper(q) && Lawful(q, ops)
    requires forall i :: 0 <= i < |ops| ==> Spares(ops[i], a) && Spares(ops[i], b)
    requires Ran(q, ops).cur == b
    ensures n < |ops| && Ran(q, ops[..n]).cur == a
    decreases |ops|
  {
    hide Done, Schedules, Waits, Proper, Allowed, Spares, Everyone, Closer;
    InOnePlace(q, a, da, b, db);
    assert ops != [];
    assert |ops| == 1 ==> ops[..1] == ops;
    var q1 := Done(q, ops[0]);
    CallAdvances(q, ops[0], a, da);
    CallAdvances(q, ops[0], b, db);
    CallKeepsOrder(q, ops[0], a, da, b, db);
    OneCall(q, ops);
    if da == 0 && Schedules(q, ops[0]) {
      n := 1;
    } else {
      CallKeepsProper(q, ops[0]);
      var m := NoOvertaking(q1, a, Closer(q, ops[0], da), b, Closer(q, ops[0], db), ops[1..]);
      n := m + 1;
      assert ops[..n][1..] == ops[1..][..m] && ops[..n][0] == ops[0];
    }
  }

  lemma InOnePlace(q: Queues, a: Node, da: nat, b: Node, db: nat)
    requires Waits(q, a, da) && Waits(q, b, db) && da < db && Proper(q)
    ensures a != b && q.cur != b
  {
    var s := Everyone(q);
    var n := |q.made| + |q.ready| - 1;
    assert s[n - da] == a && s[n - db] == b;
    assert q.cur != null ==> s[|s| - 1] == q.cur;
  }
}
