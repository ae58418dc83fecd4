/**
 * Why the clerks share one lock order: if one clerk can take flight1CS first while another takes
 * flight2CS first, both for customers of type 3, the programs can reach a state in which nobody can
 * move and somebody was never served; in every other case they cannot.
 */
module AirLockOrder {
  import opened AirModel
  import opened AirAccounts
  import opened AirBooks
  import opened AirProtocol
  import opened AirEnding

  lemma {:induction false} RunsJoin(P: Params, s: State, a: seq<Choice>, t: State, b: seq<Choice>, u: State)
    requires Runs(P, s, a, t) && Runs(P, t, b, u)
    ensures Runs(P, s, a + b, u)
    decreases |a|
  {
    hide Step, Enabled, MayWake;
    if a == [] {
      assert a + b == b;
    } else {
      assert (a + b)[0] == a[0] && (a + b)[1..] == a[1..] + b;
      RunsJoin(P, Step(P, s, a[0].who, a[0].wakes), a[1..], t, b, u);
    }
  }

  /** One step of process i from s to t, waking nobody. */
  ghost predicate Goes(P: Params, s: State, i: nat, t: State) {
    Enabled(P, s, i) && MayWake(P, s, i, 0) && t == Step(P, s, i, 0)
  }

  lemma Go(P: Params, s: State, steps: seq<Choice>, t: State, i: nat, u: State) returns (more: seq<Choice>)
    requires Runs(P, s, steps, t) && Goes(P, t, i, u)
    ensures Runs(P, s, more, u)
  {
    more := GoWaking(P, s, steps, t, i, 0, u);
  }

  lemma GoWaking(P: Params, s: State, steps: seq<Choice>, t: State, i: nat, w: nat, u: State) returns (more: seq<Choice>)
    requires Runs(P, s, steps, t) && Enabled(P, t, i) && MayWake(P, t, i, w) && u == Step(P, t, i, w)
    ensures Runs(P, s, more, u)
  {
    hide Step, Enabled, MayWake;
    more := steps + [Choice(i, w)];
    var last := [Choice(i, w)];
    OneChoice(P, t, i, w);
    RunsJoin(P, s, steps, t, last, u);
  }

  lemma OneChoice(P: Params, s: State, i: nat, w: nat)
    requires Enabled(P, s, i) && MayWake(P, s, i, w)
    ensures Runs(P, s, [Choice(i, w)], Step(P, s, i, w))
  {
    hide Step, Enabled, MayWake;
    assert [Choice(i, w)][1..] == [];
    assert Runs(P, Step(P, s, i, w), [], Step(P, s, i, w));
  }

  lemma EmptyRun(P: Params, s: State)
    ensures Runs(P, s, [], s)
  {
  }

  lemma Waits(P: Params, s: State, i: nat) returns (t: State)
    requires i < |s.procs| && ActOf(P, s.procs[i]).Wait?
    ensures Goes(P, s, i, t)
    ensures var a := ActOf(P, s.procs[i]);
      t == s.(val := s.val[a.x := s.Val(a.x) - 1], procs := s.procs[i := if s.Val(a.x) - 1 < 0 then a.blocked else a.next])
  {
    hide ActOf;
    t := Step(P, s, i, 0);
  }

  lemma Signals(P: Params, s: State, i: nat) returns (t: State)
    requires i < |s.procs| && ActOf(P, s.procs[i]).Signal? && s.Val(ActOf(P, s.procs[i]).x) >= 0
    requires !s.procs[i].pc.KSigFin? && !s.procs[i].pc.KSigClerk?
    ensures Goes(P, s, i, t)
    ensures var a := ActOf(P, s.procs[i]);
      t == s.(val := s.val[a.x := s.Val(a.x) + 1], procs := s.procs[i := a.next])
  {
    hide ActOf;
    t := Step(P, s, i, 0);
  }

  lemma Works(P: Params, s: State, i: nat) returns (t: State)
    requires i < |s.procs| && ActOf(P, s.procs[i]).Local?
    ensures Goes(P, s, i, t) && t == LocalStep(P, s, i)
  {
    hide ActOf, LocalStep;
    t := Step(P, s, i, 0);
  }

  /** The same values but for those of the given semaphores. */
  ghost predicate ValsBut(s: State, t: State, xs: set<Sem>) { forall x :: x !in xs ==> t.Val(x) == s.Val(x) }

  /** A customer's steps up to the wait for a clerk. */
  lemma TakesId(P: Params, s0: State, steps0: seq<Choice>, s: State, i: nat) returns (steps: seq<Choice>, t: State)
    requires Runs(P, s0, steps0, s) && i < |s.procs| && s.procs[i] == Proc(CWaitCtr, 0) && s.Val(Ctr) == 1
    ensures Runs(P, s0, steps, t)
    ensures t == s.(procs := s.procs[i := Proc(CWaitClerk, s.ctr)], val := t.val, ctr := s.ctr + 1, who := s.who + [i])
    ensures ValsBut(s, t, {})
  {
    hide Runs, Goes;
    var a := Waits(P, s, i);
    steps := Go(P, s0, steps0, s, i, a);
    var b := Works(P, a, i);
    steps := Go(P, s0, steps, a, i, b);
    var c := Works(P, b, i);
    steps := Go(P, s0, steps, b, i, c);
    t := Signals(P, c, i);
    steps := Go(P, s0, steps, c, i, t);
  }

  /** From the wait for a clerk to the wait to be finished, with the request in the queue. */
  lemma LinesUp(P: Params, s0: State, steps0: seq<Choice>, s: State, i: nat, c: nat) returns (steps: seq<Choice>, t: State)
    requires Runs(P, s0, steps0, s) && i < |s.procs| && s.procs[i] == Proc(CWaitClerk, c)
    requires s.Val(Clerk) >= 1 && s.Val(Queue) == 1 && s.Val(Ready) >= 0 && s.Val(Fin(c)) == 0 && s.qin < |s.queue|
    ensures Runs(P, s0, steps, t)
    ensures t == s.(procs := s.procs[i := Proc(CBlkFin, c)], val := t.val, queue := s.queue[s.qin := c], qin := s.qin + 1)
    ensures ValsBut(s, t, {Clerk, Ready, Fin(c)}) && t.Val(Clerk) == s.Val(Clerk) - 1 && t.Val(Ready) == s.Val(Ready) + 1
  {
    hide Runs, Goes;
    var a := Waits(P, s, i);
    steps := Go(P, s0, steps0, s, i, a);
    var b := Waits(P, a, i);
    steps := Go(P, s0, steps, a, i, b);
    var d := Works(P, b, i);
    steps := Go(P, s0, steps, b, i, d);
    steps, t := Posts(P, s0, steps, d, i, c);
    assert t.procs == s.procs[i := Proc(CBlkFin, c)];
  }

  lemma Posts(P: Params, s0: State, steps0: seq<Choice>, s: State, i: nat, c: nat) returns (steps: seq<Choice>, t: State)
    requires Runs(P, s0, steps0, s) && i < |s.procs| && s.procs[i] == Proc(CInc, c)
    requires s.Val(Queue) == 0 && s.Val(Ready) >= 0 && s.Val(Fin(c)) == 0
    ensures Runs(P, s0, steps, t)
    ensures t == s.(procs := s.procs[i := Proc(CBlkFin, c)], val := t.val, qin := s.qin + 1)
    ensures ValsBut(s, t, {Queue, Ready, Fin(c)}) && t.Val(Queue) == 1 && t.Val(Ready) == s.Val(Ready) + 1
  {
    hide Runs, Goes;
    var a := Works(P, s, i);
    steps := Go(P, s0, steps0, s, i, a);
    var b := Signals(P, a, i);
    steps := Go(P, s0, steps, a, i, b);
    var d := Signals(P, b, i);
    steps := Go(P, s0, steps, b, i, d);
    t := Waits(P, d, i);
    steps := Go(P, s0, steps, d, i, t);
    assert t.procs == s.procs[i := Proc(CBlkFin, c)];
  }

  /** A clerk's steps from its wait for a customer to having its first lock. */
  lemma Fetches(P: Params, s0: State, steps0: seq<Choice>, s: State, i: nat, c: nat) returns (steps: seq<Choice>, t: State)
    requires Runs(P, s0, steps0, s) && i < |s.procs| && s.procs[i] == Proc(KWaitReady, 0)
    requires s.Val(Ready) >= 1 && s.Val(Queue) == 1 && s.qout < |s.queue| && s.queue[s.qout] == c && P.Type(c) == 3
    requires s.Val(if P.Crosses(c) then F2 else F1) == 1
    ensures Runs(P, s0, steps, t)
    ensures t == s.(procs := s.procs[i := Proc(if P.Crosses(c) then KWait1 else KWait2, c)], val := t.val, qout := s.qout + 1)
    ensures ValsBut(s, t, {Ready, if P.Crosses(c) then F2 else F1})
    ensures t.Val(Ready) == s.Val(Ready) - 1 && t.Val(if P.Crosses(c) then F2 else F1) == 0
  {
    hide Runs, Goes;
    var a := Waits(P, s, i);
    steps := Go(P, s0, steps0, s, i, a);
    var b := Waits(P, a, i);
    steps := Go(P, s0, steps, a, i, b);
    var d := Works(P, b, i);
    steps := Go(P, s0, steps, b, i, d);
    steps, t := Locks(P, s0, steps, d, i, c);
    assert t.procs == s.procs[i := Proc(if P.Crosses(c) then KWait1 else KWait2, c)];
  }

  lemma Locks(P: Params, s0: State, steps0: seq<Choice>, s: State, i: nat, c: nat) returns (steps: seq<Choice>, t: State)
    requires Runs(P, s0, steps0, s) && i < |s.procs| && s.procs[i] == Proc(KInc, c) && P.Type(c) == 3
    requires s.Val(Queue) == 0 && s.Val(if P.Crosses(c) then F2 else F1) == 1
    ensures Runs(P, s0, steps, t)
    ensures t == s.(procs := s.procs[i := Proc(if P.Crosses(c) then KWait1 else KWait2, c)], val := t.val, qout := s.qout + 1)
    ensures ValsBut(s, t, {Queue, if P.Crosses(c) then F2 else F1})
    ensures t.Val(Queue) == 1 && t.Val(if P.Crosses(c) then F2 else F1) == 0
  {
    hide Runs, Goes;
    var a := Works(P, s, i);
    steps := Go(P, s0, steps0, s, i, a);
    var b := Signals(P, a, i);
    steps := Go(P, s0, steps, a, i, b);
    t := Waits(P, b, i);
    steps := Go(P, s0, steps, b, i, t);
    assert t.procs == s.procs[i := Proc(if P.Crosses(c) then KWait1 else KWait2, c)];
  }

  // ----- to the circular wait -----

  /** The first n customers have taken their ids, each its own number, and nothing else has happened. */
  ghost predicate IdsTaken(P: Params, s: State, n: nat) {
    && n <= P.N()
    && s == Init(P).(procs := s.procs, val := s.val, ctr := n, who := s.who)
    && |s.procs| == P.N() + P.clerks + 1
    && (forall k :: 0 <= k < |s.procs| ==> s.procs[k] == if k < n then Proc(CWaitClerk, k) else Init(P).procs[k])
    && ValsBut(Init(P), s, {})
  }

  lemma {:induction false} TakeIds(P: Params, n: nat) returns (steps: seq<Choice>, t: State)
    requires n <= P.N()
    ensures Runs(P, Init(P), steps, t) && IdsTaken(P, t, n)
    decreases n
  {
    hide Runs;
    if n == 0 {
      steps, t := [], Init(P);
      EmptyRun(P, t);
    } else {
      var s: State;
      steps, s := TakeIds(P, n - 1);
      assert s.procs[n - 1] == Proc(CWaitCtr, 0) && s.Val(Ctr) == 1;
      hide Init;
      steps, t := TakesId(P, Init(P), steps, s, n - 1);
    }
  }

  /** Clerk i has flight 1 and waits for flight 2, clerk j the other way round; nobody else is past a lock. */
  ghost predicate Circular(P: Params, s: State, i: nat, j: nat) {
    && i < |s.procs| && j < |s.procs| && i != j
    && s.procs[i].pc == KBlk2 && !P.Crosses(s.procs[i].id) && P.Type(s.procs[i].id) == 3
    && s.procs[j].pc == KBlk1 && P.Crosses(s.procs[j].id)
    && s.Val(F1) <= 0 && s.Val(F2) <= 0
    && forall m :: 0 <= m < |s.procs| && m != i && m != j ==> !Locked(P, s.procs[m])
  }

  /** The process holds a flight's lock. */
  predicate Locked(P: Params, p: Proc) {
    || 31 <= Pos(p.pc) <= 39
    || (P.Type(p.id) == 3 && if P.Crosses(p.id) then 27 <= Pos(p.pc) <= 28 else 29 <= Pos(p.pc) <= 30)
  }

  /** Customers a and b of type 3, of whom only a's clerk crosses, and two clerks: the circular wait is reached. */
  lemma CircularReached(P: Params, a: nat, b: nat) returns (steps: seq<Choice>, t: State)
    requires P.Valid() && 2 <= P.clerks && a < P.N() && b < P.N() && P.types[a] == 3 && P.types[b] == 3
    requires a in P.crossed && b !in P.crossed
    ensures Runs(P, Init(P), steps, t) && Circular(P, t, P.N(), P.N() + 1)
  {
    hide Runs, Init, Locked, Params.Crosses;
    var s: State;
    steps, s := TakeIds(P, P.N());
    StartFacts(P);
    CrossingOnes(P, a, b);
    var u: State;
    steps, u := TwoLineUp(P, steps, s, a, b);
    steps, s := TwoFetch(P, steps, u, a, b);
    steps, t := TwoBlock(P, steps, s, a, b);
  }

  lemma CrossingOnes(P: Params, a: nat, b: nat)
    requires a < P.N() && b < P.N() && P.types[a] == 3 && P.types[b] == 3 && a in P.crossed && b !in P.crossed
    ensures P.Crosses(a) && !P.Crosses(b) && P.Type(a) == 3 && P.Type(b) == 3 && a != b
  {
  }

  lemma StartFacts(P: Params)
    ensures var s := Init(P);
      && |s.procs| == P.N() + P.clerks + 1 && |s.queue| == P.N() && s.qin == s.qout == 0
      && (forall k :: P.N() <= k < P.N() + P.clerks ==> s.procs[k] == Proc(KWaitReady, 0))
      && (forall k :: P.N() <= k < |s.procs| ==> s.procs[k].pc in {KWaitReady, MWait, MDone})
      && s.Val(Clerk) == P.clerks && s.Val(Queue) == 1 && s.Val(Ready) == 0 && s.Val(F1) == 1 && s.Val(F2) == 1
      && forall c :: s.Val(Fin(c)) == 0
  {
  }

  /** Where the other processes are while the two requests are under way. */
  ghost predicate Elsewhere(P: Params, s: State, a: nat, b: nat) {
    && |s.procs| == P.N() + P.clerks + 1
    && forall k :: 0 <= k < |s.procs| && k != a && k != b && k != P.N() && k != P.N() + 1 ==>
         s.procs[k].pc in {CWaitClerk, KWaitReady, MWait, MDone}
  }

  lemma TwoLineUp(P: Params, steps0: seq<Choice>, s: State, a: nat, b: nat) returns (steps: seq<Choice>, t: State)
    requires P.Valid() && 2 <= P.clerks && a < P.N() && b < P.N() && a != b
    requires Runs(P, Init(P), steps0, s) && IdsTaken(P, s, P.N())
    ensures Runs(P, Init(P), steps, t) && Elsewhere(P, t, a, b)
    ensures t.procs[a] == Proc(CBlkFin, a) && t.procs[b] == Proc(CBlkFin, b)
    ensures t.procs[P.N()] == Proc(KWaitReady, 0) && t.procs[P.N() + 1] == Proc(KWaitReady, 0)
    ensures |t.queue| == P.N() && t.qout == 0 && t.queue[0] == b && t.queue[1] == a
    ensures t.Val(Ready) == 2 && t.Val(Queue) == 1 && t.Val(F1) == 1 && t.Val(F2) == 1
  {
    hide Runs, Init;
    StartFacts(P);
    var u: State;
    steps, u := LinesUp(P, Init(P), steps0, s, b, b);
    steps, t := LinesUp(P, Init(P), steps, u, a, a);
  }

  lemma TwoFetch(P: Params, steps0: seq<Choice>, s: State, a: nat, b: nat) returns (steps: seq<Choice>, t: State)
    requires 2 <= P.clerks && 2 <= P.N() && a < P.N() && b < P.N()
    requires P.Crosses(a) && !P.Crosses(b) && P.Type(a) == 3 && P.Type(b) == 3
    requires Runs(P, Init(P), steps0, s) && Elsewhere(P, s, a, b)
    requires s.procs[a] == Proc(CBlkFin, a) && s.procs[b] == Proc(CBlkFin, b)
    requires s.procs[P.N()] == Proc(KWaitReady, 0) && s.procs[P.N() + 1] == Proc(KWaitReady, 0)
    requires |s.queue| == P.N() && s.qout == 0 && s.queue[0] == b && s.queue[1] == a
    requires s.Val(Ready) == 2 && s.Val(Queue) == 1 && s.Val(F1) == 1 && s.Val(F2) == 1
    ensures Runs(P, Init(P), steps, t) && Elsewhere(P, t, a, b)
    ensures t.procs[a] == Proc(CBlkFin, a) && t.procs[b] == Proc(CBlkFin, b)
    ensures t.procs[P.N()] == Proc(KWait2, b) && t.procs[P.N() + 1] == Proc(KWait1, a)
    ensures t.Val(F1) == 0 && t.Val(F2) == 0
  {
    hide Runs, Init, Params.Crosses;
    var u: State;
    steps, u := Fetches(P, Init(P), steps0, s, P.N(), b);
    steps, t := Fetches(P, Init(P), steps, u, P.N() + 1, a);
  }

  /** Each clerk asks for the other's lock. */
  lemma TwoBlock(P: Params, steps0: seq<Choice>, s: State, a: nat, b: nat) returns (steps: seq<Choice>, t: State)
    requires 2 <= P.clerks && a < P.N() && b < P.N()
    requires P.Crosses(a) && !P.Crosses(b) && P.Type(a) == 3 && P.Type(b) == 3
    requires Runs(P, Init(P), steps0, s) && Elsewhere(P, s, a, b)
    requires s.procs[a] == Proc(CBlkFin, a) && s.procs[b] == Proc(CBlkFin, b)
    requires s.procs[P.N()] == Proc(KWait2, b) && s.procs[P.N() + 1] == Proc(KWait1, a)
    requires s.Val(F1) == 0 && s.Val(F2) == 0
    ensures Runs(P, Init(P), steps, t) && Circular(P, t, P.N(), P.N() + 1)
  {
    hide Runs, Init, Goes, Params.Crosses, Locked;
    var u := Waits(P, s, P.N());
    steps := Go(P, Init(P), steps0, s, P.N(), u);
    t := Waits(P, u, P.N() + 1);
    steps := Go(P, Init(P), steps, u, P.N() + 1, t);
    forall m | 0 <= m < |t.procs| && m != P.N() && m != P.N() + 1 ensures !Locked(P, t.procs[m]) {
      NotLocked(P, t.procs[m]);
    }
  }

  lemma NotLocked(P: Params, p: Proc)
    requires p.pc in {CWaitClerk, CBlkFin, KWaitReady, MWait, MDone}
    ensures !Locked(P, p)
  {
  }

  // ----- it lasts -----

  /** Whoever moves, the circular wait stays: only a process past a lock signals one, and none passes. */
  lemma StepKeepsCircular(P: Params, s: State, i: nat, j: nat, m: nat, w: nat)
    requires P.Valid() && Circular(P, s, i, j) && Enabled(P, s, m) && MayWake(P, s, m, w)
    ensures Circular(P, Step(P, s, m, w), i, j)
  {
    hide Step, Locked, After, Resume, ActOf, Params.Crosses, BlockedOn;
    StillBlocked(P, s.procs[i]);
    StillBlocked(P, s.procs[j]);
    assert m != i && m != j;
    MoverNotLocked(P, s, m);
    StepVal(P, s, m, w, F1);
    StepVal(P, s, m, w, F2);
    StepProcs(P, s, m, w);
    if Wakes(P, s, m) {
      WokenElsewhere(P, s, m, w);
    }
  }

  lemma StillBlocked(P: Params, p: Proc)
    requires p.pc == KBlk1 || p.pc == KBlk2
    ensures ActOf(P, p) == Stop && forall x :: BlockedOn(p, x) ==> x == F1 || x == F2
  {
  }

  /** A process that holds no lock does not signal one, and does not get one while both are taken. */
  lemma MoverNotLocked(P: Params, s: State, m: nat)
    requires P.Valid() && Enabled(P, s, m) && !Locked(P, s.procs[m]) && s.Val(F1) <= 0 && s.Val(F2) <= 0
    ensures !Locked(P, After(P, s, m))
    ensures ActOf(P, s.procs[m]).Signal? ==> ActOf(P, s.procs[m]).x != F1 && ActOf(P, s.procs[m]).x != F2
  {
    hide Pos, ActOf, LocalStep, Moved;
    match ActOf(P, s.procs[m])
    case Local => LocalTable(P, s, m);
    case Wait(_, _, _) => WaitTable(P, s.procs[m]);
    case Signal(_, _) => SignalTable(P, s.procs[m]);
  }

  lemma WokenElsewhere(P: Params, s: State, m: nat, w: nat)
    requires Enabled(P, s, m) && MayWake(P, s, m, w) && Wakes(P, s, m)
    requires ActOf(P, s.procs[m]).x != F1 && ActOf(P, s.procs[m]).x != F2
    ensures w < |s.procs| && BlockedOn(s.procs[w], ActOf(P, s.procs[m]).x) && !Locked(P, Resume(P, s.procs[w]))
  {
    hide ActOf, Pos, Resume, BlockedOn;
    ResumeTable(P, s.procs[w], ActOf(P, s.procs[m]).x);
  }

  lemma {:induction false} RunKeepsCircular(P: Params, s: State, i: nat, j: nat, steps: seq<Choice>, t: State)
    requires P.Valid() && Circular(P, s, i, j) && Runs(P, s, steps, t)
    ensures Circular(P, t, i, j)
    decreases |steps|
  {
    hide Circular, Step, Enabled, MayWake;
    if steps != [] {
      StepKeepsCircular(P, s, i, j, steps[0].who, steps[0].wakes);
      RunKeepsCircular(P, Step(P, s, steps[0].who, steps[0].wakes), i, j, steps[1..], t);
    }
  }

  /** Every run can be carried on to a state where nobody can move. */
  lemma {:induction false} RunOn(P: Params, s0: State, steps0: seq<Choice>, s: State) returns (steps: seq<Choice>, more: seq<Choice>, t: State)
    requires P.Valid() && Inv(P, s) && Runs(P, s0, steps0, s)
    ensures Runs(P, s0, steps, t) && Runs(P, s, more, t) && Stuck(P, t)
    decreases Rank(P, s)
  {
    hide Runs, Step, Enabled, MayWake, Rank, Accounts, Kept, Roles;
    if Stuck(P, s) {
      EmptyRun(P, s);
      steps, more, t := steps0, [], s;
    } else {
      var i: nat :| i < |s.procs| && Enabled(P, s, i);
      var w := CanStep(P, s, i);
      var u := Step(P, s, i, w);
      StepKeepsInv(P, s, i, w);
      StepRank(P, s, i, w);
      RankNonNegative(P, u);
      var next := GoWaking(P, s0, steps0, s, i, w, u);
      var rest: seq<Choice>;
      steps, rest, t := RunOn(P, s0, next, u);
      OneChoice(P, s, i, w);
      RunsJoin(P, s, [Choice(i, w)], u, rest, t);
      more := [Choice(i, w)] + rest;
    }
  }

  /** Mixed lock orders: some run ends with nobody able to move and a customer never served. */
  lemma MixedOrdersDeadlock(P: Params) returns (steps: seq<Choice>, t: State, x: nat)
    requires P.Valid() && P.Mixed()
    ensures Runs(P, Init(P), steps, t) && Stuck(P, t) && !Ended(P, t) && x < P.N() && x !in t.served
  {
    hide Runs, Init, Circular, Stuck, Ended;
    var a: nat, b: nat :| a < P.N() && b < P.N() && P.types[a] == 3 && P.types[b] == 3 && a in P.crossed && b !in P.crossed;
    var s: State;
    steps, s := CircularReached(P, a, b);
    InitInv(P);
    RunKeepsInv(P, Init(P), steps, s);
    var more: seq<Choice>;
    steps, more, t := RunOn(P, Init(P), steps, s);
    RunKeepsCircular(P, s, P.N(), P.N() + 1, more, t);
    RunKeepsInv(P, s, more, t);
    x := NeverServed(P, t);
  }

  lemma NeverServed(P: Params, t: State) returns (x: nat)
    requires P.Valid() && Inv(P, t) && Circular(P, t, P.N(), P.N() + 1)
    ensures x < P.N() && x !in t.served && !Ended(P, t)
  {
    hide Accounts, Roles, Ids, Line, Flights, Outcome;
    x := t.procs[P.N()].id;
    assert BooksOf(t).faces[P.N()] == FaceOf(t.procs[P.N()]) == Pending(x);
    assert P.Type(x) == 3 && x < P.N();
  }

  /** All runs end well if and only if clerks of the two lock orders cannot meet. */
  lemma LockOrderIff(P: Params)
    requires P.Valid()
    ensures (forall steps, t :: Runs(P, Init(P), steps, t) && Stuck(P, t) ==> Ended(P, t)) <==> !P.Mixed()
  {
    hide Runs, Init, Stuck, Ended, Params.Mixed;
    if P.Mixed() {
      var steps, t, x := MixedOrdersDeadlock(P);
    } else {
      forall steps, t | Runs(P, Init(P), steps, t) && Stuck(P, t) ensures Ended(P, t) {
        EveryRunEndsWell(P, steps, t);
      }
    }
  }

  /** The programs as they are never cross, so no number of customers and clerks can deadlock them. */
  lemma SharedOrderIsSafe(P: Params)
    requires P.Valid() && P.crossed == {}
    ensures forall steps, t :: Runs(P, Init(P), steps, t) && Stuck(P, t) ==> Ended(P, t)
  {
    hide Runs, Init, Stuck, Ended;
    LockOrderIff(P);
  }
}
