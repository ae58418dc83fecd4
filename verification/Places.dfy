/**
 * Where each environment is, and where each call of the scheduler puts it: who starts, who exits, who
 * runs next, and that an exited environment never runs again.
 */
module Places {
  import opened Sequences
  import opened IntrusiveList
  import opened Scheduler
  import opened RoundRobin

  datatype Place = Nowhere | Made | Alive | Exited

  /** Alive is in the ready queue or running. */
  ghost function PlaceOf(q: Queues, x: Node): Place {
    if x in q.made then Made else if x in q.ready || q.cur == x then Alive else if x in q.done then Exited else Nowhere
  }

  ghost predicate Starts(op: Op, x: Node) { op.RunAll? || (op.RunEnv? && op.id == x.id) }

  /** The call makes the ready or running environment x exit. */
  ghost predicate Exits(q: Queues, op: Op, x: Node) {
    (op.ExitEnv? && op.id == x.id) || (op.ExitAllReady? && x in q.ready)
  }

  /** The queues and the running environment have nobody in common. */
  ghost predicate OnePlace(q: Queues, x: Node) {
    && (x in q.made ==> x !in q.ready && x !in q.done && q.cur != x)
    && (x in q.ready ==> x !in q.done && q.cur != x)
    && (x in q.done ==> q.cur != x)
  }

  /** Ids tell environments apart, and a call leaves each in one place. */
  ghost predicate ToldApart(q: Queues, x: Node) {
    && OnePlace(q, x)
    && (x in Everyone(q) <==> PlaceOf(q, x) != Nowhere)
    && forall y :: y in Everyone(q) && x in Everyone(q) && x.id == y.id ==> x == y
  }

  lemma ProperPlaces(q: Queues, x: Node)
    requires Proper(q)
    ensures ToldApart(q, x)
  {
    var (a, b, c, d) := (q.made, q.ready, q.done, Running(q));
    assert Everyone(q) == a + (b + (c + d)) && Everyone(q) == a + b + c + d;
    DistinctParts(a, b + (c + d));
    DistinctParts(b, c + d);
    DistinctParts(c, d);
    hide Distinct;
    assert q.cur != null ==> q.cur in d;
  }

  lemma InEveryone(q: Queues, y: Node)
    ensures y in q.made || y in q.ready || y in q.done || q.cur == y ==> y in Everyone(q)
  {
    assert q.cur != null ==> q.cur in Running(q);
  }

  /**
   * Where one call takes an environment. A new one is made; what is started is alive after it; a ready
   * or running one that is made to exit is in the exit queue and nowhere else; everyone else is where
   * they were, alive if alive, made if made, exited if exited.
   */
  lemma CallMoves(q: Queues, op: Op, x: Node)
    requires Proper(q) && Allowed(q, op) && (op.New? ==> forall y :: y in Everyone(q) ==> y.id != op.e.id)
    ensures var (a, b) := (PlaceOf(q, x), PlaceOf(Done(q, op), x));
      b == match a
           case Nowhere => if op == New(x) then Made else Nowhere
           case Made => if Starts(op, x) then Alive else Made
           case Alive => if Exits(q, op, x) then Exited else Alive
           case Exited => Exited
    ensures OnePlace(Done(q, op), x)
  {
    hide Proper, Reverse, Dispatched, FindId, Kicked, Omit, Left;
    ProperPlaces(q, x);
    CallKeepsProper(q, op);
    ProperPlaces(Done(q, op), x);
    match op
    case New(e) => NewMoves(q, e, x);
    case RunEnv(id) => RunMoves(q, id, x);
    case RunAll => RunAllMoves(q, x);
    case Tick => DispatchMoves(q, x);
    case ExitEnv(id) => ExitMoves(q, id, x);
    case ExitAllReady => ReverseMembers(q.ready);
  }

  lemma DispatchMoves(q: Queues, x: Node)
    ensures var q' := Dispatched(q);
      && q'.made == q.made && q'.done == q.done && ((x in q'.ready || q'.cur == x) <==> (x in q.ready || q.cur == x))
  {
    var r := Running(q) + q.ready;
    assert x in r <==> x in q.ready || q.cur == x;
    if r != [] { assert r == Front(r) + [r[|r| - 1]]; }
  }

  lemma NewMoves(q: Queues, e: Node, x: Node)
    requires e !in Everyone(q)
    ensures PlaceOf(q, e) == Nowhere
    ensures PlaceOf(Done(q, New(e)), x) == if x == e then Made else PlaceOf(q, x)
  {
    var (a, b, c, d) := (q.made, q.ready, q.done, Running(q));
    assert e !in a && e !in b && e !in c && e !in d by {
      assert forall y :: y in a || y in b || y in c || y in d ==> y in a + b + c + d;
    }
    assert q.cur != null ==> q.cur in d;
  }

  lemma OmitMembers(s: seq<Node>, k: nat, x: Node)
    requires k < |s|
    ensures x in s <==> x in Omit(s, k) || x == s[k]
  {
    assert s == s[..k] + [s[k]] + s[k + 1..];
  }

  lemma KickMoves(q: Queues, x: Node)
    ensures var q' := Kicked(q);
      && q'.made == q.made && q'.done == q.done && ((x in q'.ready || q'.cur == x) <==> (x in q.ready || q.cur == x))
  {
    hide Dispatched;
    DispatchMoves(q, x);
  }

  lemma RunMoves(q: Queues, id: nat, x: Node)
    requires ToldApart(q, x) && OnePlace(Done(q, RunEnv(id)), x)
    ensures var b := PlaceOf(Done(q, RunEnv(id)), x);
      b == if x in q.made && x.id == id then Alive else PlaceOf(q, x)
  {
    hide Kicked, FindId, Omit;
    var k := FindId(q.made, id);
    if k < |q.made| {
      var q1 := q.(made := Omit(q.made, k), ready := [q.made[k]] + q.ready);
      OmitMembers(q.made, k, x);
      KickMoves(q1, x);
      InEveryone(q, q.made[k]);
    } else if x in q.made {
      var i :| 0 <= i < |q.made| && q.made[i] == x;
      assert x.id != id;
    }
  }

  lemma RunAllMoves(q: Queues, x: Node)
    requires ToldApart(q, x) && OnePlace(Done(q, RunAll), x)
    ensures PlaceOf(Done(q, RunAll), x) == if x in q.made then Alive else PlaceOf(q, x)
  {
    hide Kicked;
    ReverseMembers(q.made);
    KickMoves(q.(made := [], ready := Reverse(q.made) + q.ready), x);
  }

  lemma ExitMoves(q: Queues, id: nat, x: Node)
    requires ToldApart(q, x) && OnePlace(Done(q, ExitEnv(id)), x)
    requires Proper(q) && q.cur != null && forall i :: 0 <= i < |q.made| ==> q.made[i].id != id
    ensures var (a, b) := (PlaceOf(q, x), PlaceOf(Done(q, ExitEnv(id)), x));
      b == if a == Alive && x.id == id then Exited else a
  {
    hide Dispatched, FindId, Omit, Proper;
    var k := FindId(q.ready, id);
    if k < |q.ready| {
      NotAlsoRunning(q, k);
      OmitMembers(q.ready, k, x);
      InEveryone(q, q.ready[k]);
    } else {
      if x in q.ready {
        var i :| 0 <= i < |q.ready| && q.ready[i] == x;
        assert x.id != id;
      }
      InEveryone(q, q.cur);
      if q.cur.id == id { DispatchMoves(q.(done := [q.cur] + q.done, cur := null), x); }
    }
  }

  // ----- who runs -----

  /** Nobody runs in front of the environment that has been ready longest. */
  function Oldest(q: Queues): Node? { if q.ready == [] then q.cur else q.ready[|q.ready| - 1] }

  /**
   * Who runs after a call. The clock gives the processor to the environment that has been ready
   * longest, or back to the running one if nobody is ready. A start while the scheduler is stopped
   * does so too, and if nobody was ready the started one runs, the one made last of several. The exit of the running one gives it to the one ready
   * longest, or stops the scheduler. No other call changes who runs.
   */
  lemma NextRuns(q: Queues, op: Op)
    requires Proper(q) && Allowed(q, op)
    ensures op.Tick? ==> Done(q, op).cur == Oldest(q) && Done(q, op).started == (Oldest(q) != null)
    ensures (op.RunEnv? || op.RunAll?) && !q.started && (exists x :: x in q.made && Starts(op, x)) ==>
      (if q.ready != [] then Done(q, op).cur == Oldest(q)
       else if op.RunAll? then Done(q, op).cur == q.made[0]
       else Done(q, op).cur != null && Done(q, op).cur.id == op.id && Done(q, op).cur in q.made)
      && Done(q, op).started
    ensures op.ExitEnv? && q.cur.id == op.id ==>
      Done(q, op).cur == (if q.ready == [] then null else Oldest(q)) && Done(q, op).started == (q.ready != [])
    ensures op.New? || ((op.RunEnv? || op.RunAll?) && q.started) || op.ExitAllReady? || (op.ExitEnv? && q.cur.id != op.id) ==>
      Done(q, op).cur == q.cur && Done(q, op).started == q.started
  {
    hide Proper, FindId, Reverse;
    match op
    case RunEnv(id) => StartRuns(q, id);
    case RunAll => ReverseLast(q.made);
    case ExitEnv(id) => ExitRuns(q, id);
    case _ =>
  }

  lemma StartRuns(q: Queues, id: nat)
    ensures var (op, q') := (RunEnv(id), Done(q, RunEnv(id)));
      && (q.started ==> q'.cur == q.cur && q'.started)
      && (!q.started && (exists x :: x in q.made && x.id == id) ==>
            q'.started && if q.ready != [] then q'.cur == Oldest(q) else q'.cur != null && q'.cur.id == id && q'.cur in q.made)
  {
    var k := FindId(q.made, id);
    hide FindId;
    if x :| x in q.made && x.id == id {
      var i :| 0 <= i < |q.made| && q.made[i] == x;
      assert k <= i;
    }
  }

  lemma ReverseLast(s: seq<Node>)
    ensures s == [] ==> Reverse(s) == []
    ensures s != [] ==> Reverse(s) != [] && Reverse(s)[|Reverse(s)| - 1] == s[0]
  {
  }

  lemma ExitRuns(q: Queues, id: nat)
    requires Proper(q) && q.cur != null
    ensures var q' := Done(q, ExitEnv(id));
      if q.cur.id != id then q'.cur == q.cur && q'.started == q.started
      else q'.cur == (if q.ready == [] then null else Oldest(q)) && q'.started == (q.ready != [])
  {
    var k := FindId(q.ready, id);
    hide FindId, Proper;
    if k < |q.ready| { NotAlsoRunning(q, k); }
  }

  // ----- the queues, in order -----

  /** Whoever was ready longest, all of f being younger, runs; the running one becomes the youngest ready. */
  lemma TickQueues(q: Queues, f: seq<Node>, n: Node)
    requires Running(q) + q.ready == f + [n]
    ensures Done(q, Tick) == q.(ready := f, cur := n, started := true)
  {
  }

  /** All new ones become ready behind those that are; the one made last is the next of them to run. */
  lemma RunAllQueues(q: Queues)
    ensures var (q1, n) := (Done(q, RunAll), |q.made|);
      q.started ==> q1 == q.(made := [], ready := q1.ready) && |q1.ready| == n + |q.ready| && q1.ready[n..] == q.ready
                    && forall i :: 0 <= i < n ==> q1.ready[i] == q.made[n - 1 - i]
    ensures !q.started ==> Done(q, RunAll) == Done(Done(q.(started := true), RunAll), Tick)
  {
    hide Dispatched;
    ReverseAt(q.made);
    TickStarted(q.(made := [], ready := Reverse(q.made) + q.ready), true);
  }

  /** The clock does not look at whether the scheduler is started. */
  lemma TickStarted(q: Queues, on: bool)
    ensures Dispatched(q.(started := on)) == Dispatched(q)
  {
  }

  /** All ready ones lead the exit queue, the one ready longest in front; the running one goes on. */
  lemma ExitAllQueues(q: Queues)
    ensures var (q1, n) := (Done(q, ExitAllReady), |q.ready|);
      q1 == q.(ready := [], done := q1.done) && |q1.done| == n + |q.done| && q1.done[n..] == q.done
      && forall i :: 0 <= i < n ==> q1.done[i] == q.ready[n - 1 - i]
  {
    ReverseAt(q.ready);
  }

  /**
   * Started together, those made later run earlier: of two new environments the younger one, which
   * stands in front in the new queue, waits for fewer.
   */
  lemma MadeLastRunsFirst(q: Queues, i: nat, j: nat) returns (di: nat, dj: nat)
    requires q.started && i < j < |q.made|
    ensures di < dj && Waits(Done(q, RunAll), q.made[i], di) && Waits(Done(q, RunAll), q.made[j], dj)
  {
    RunAllQueues(q);
    hide Done;
    di, dj := |q.ready| + i, |q.ready| + j;
  }

  /** An environment just made, started together with all new ones, runs right after those ready before. */
  lemma NewRunsNext(q: Queues, e: Node)
    requires q.started
    ensures Waits(Done(Done(q, New(e)), RunAll), e, |q.ready|)
  {
    RunAllQueues(Done(q, New(e)));
    var q2 := Done(Done(q, New(e)), RunAll);
    assert q2.ready[|q.made|] == e;
  }

  /** A new environment that is started leaves its place and is the youngest ready one. */
  lemma RunQueues(q: Queues, a: seq<Node>, x: Node, b: seq<Node>)
    requires Proper(q) && q.made == a + [x] + b
    ensures var q1 := q.(made := a + b, ready := [x] + q.ready);
      Done(q, RunEnv(x.id)) == if q.started then q1 else Done(q1, Tick)
  {
    hide Dispatched, Proper;
    FoundIn(q, q.made, a, x, b);
    hide FindId;
  }

  /** The environment with an id is found where it stands. */
  lemma FoundIn(q: Queues, s: seq<Node>, a: seq<Node>, x: Node, b: seq<Node>)
    requires Proper(q) && s == a + [x] + b && (s == q.made || s == q.ready)
    ensures FindId(s, x.id) == |a| && Omit(s, |a|) == a + b
  {
    hide Proper;
    var k := FindId(s, x.id);
    assert s[|a|] == x && k <= |a|;
    InEveryone(q, s[k]);
    InEveryone(q, x);
    OneOfId(q, s[k], x);
    OnceOnly(q, s, k, |a|);
  }

  lemma OneOfId(q: Queues, x: Node, y: Node)
    requires Proper(q) && x in Everyone(q) && y in Everyone(q) && x.id == y.id
    ensures x == y
  {
  }

  lemma OnceOnly(q: Queues, s: seq<Node>, i: nat, j: nat)
    requires Proper(q) && (s == q.made || s == q.ready) && i <= j < |s| && s[i] == s[j]
    ensures i == j
  {
    var t := Everyone(q);
    var n := if s == q.made then 0 else |q.made|;
    assert t[n + i] == s[i] && t[n + j] == s[j];
  }

  /** A ready environment that exits leaves its place and leads the exit queue; nobody else moves. */
  lemma ExitReadyQueues(q: Queues, a: seq<Node>, x: Node, b: seq<Node>)
    requires Proper(q) && q.ready == a + [x] + b
    ensures Done(q, ExitEnv(x.id)) == q.(ready := a + b, done := [x] + q.done)
  {
    hide Dispatched, Proper;
    FoundIn(q, q.ready, a, x, b);
    if q.cur != null { NotAlsoRunning(q, |a|); }
    hide FindId;
  }

  /** The running environment that exits leads the exit queue, and the one ready longest runs. */
  lemma ExitRunningQueues(q: Queues)
    requires Proper(q) && q.cur != null
    ensures var q1 := q.(done := [q.cur] + q.done, cur := null); Done(q, ExitEnv(q.cur.id)) == Done(q1, Tick)
  {
    var k := FindId(q.ready, q.cur.id);
    hide FindId, Proper, Dispatched;
    if k < |q.ready| { NotAlsoRunning(q, k); }
  }

  // ----- exited for good -----

  /** An exited environment stays in the exit queue through every run, and never runs. */
  lemma {:induction false} ExitedForGood(q: Queues, ops: seq<Op>, x: Node)
    requires Proper(q) && Lawful(q, ops) && PlaceOf(q, x) == Exited
    ensures PlaceOf(Ran(q, ops), x) == Exited && Ran(q, ops).cur != x
    decreases |ops|
  {
    hide Proper, Done, Allowed, Everyone, PlaceOf;
    if ops == [] {
      ProperPlaces(q, x);
      ExitedIsNotRunning(q, x);
    } else {
      CallMoves(q, ops[0], x);
      CallKeepsProper(q, ops[0]);
      ExitedForGood(Done(q, ops[0]), ops[1..], x);
    }
  }

  lemma ExitedIsNotRunning(q: Queues, x: Node)
    requires PlaceOf(q, x) == Exited
    ensures q.cur != x
  {
  }
}
