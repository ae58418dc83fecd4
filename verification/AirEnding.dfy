/**
 * Every interleaving ends, and ends well: a measure every step lowers, and what a state in which
 * nobody can move looks like.
 */
module AirEnding {
  import opened Sequences
  import opened AirModel
  import opened AirAccounts
  import opened AirBooks
  import opened AirProtocol

  // ----- every run ends -----

  /**
   * Work left to a process at place n. A customer that has not yet signalled ready also pays for
   * the round of the clerk it will wake.
   */
  function Work(P: Params, n: nat, id: nat): nat {
    if n <= 16 then (16 - n) + (if n <= 12 then 40 else 0)
    else if n == 20 then 1
    else if 22 <= n <= 41 then 44 - (if P.Crosses(id) then Crossed(n) else n)
    else if n == 50 && id <= P.N() then 2 * (P.N() - id) + 1
    else if n == 51 && id <= P.N() then 2 * (P.N() - id) + 2
    else 0
  }

  /** The order in which a crossing clerk comes to its places. */
  function Crossed(n: nat): (m: nat)
    ensures 22 <= n <= 41 ==> 22 <= m <= 41
  {
    if 27 <= n <= 28 then n + 2 else if 29 <= n <= 30 then n - 2 else n
  }

  function WorkOf(P: Params, p: Proc): int { Work(P, Pos(p.pc), p.id) }

  function Credit(v: int): nat { if v > 0 then 40 * v else 0 }

  ghost function Rank(P: Params, s: State): (r: int) {
    Sum(s.procs, p => WorkOf(P, p)) + Credit(s.Val(Ready))
  }

  lemma RankNonNegative(P: Params, s: State)
    ensures Rank(P, s) >= 0
  {
    SumNonNegative(s.procs, p => WorkOf(P, p));
  }

  /** What one process's move is worth, the credit of waiting clerks included. */
  lemma MoveWork(P: Params, s: State, i: nat, w: nat)
    requires Enabled(P, s, i) && MayWake(P, s, i, w) && P.Valid() && ProcOk(P, s.procs[i])
    ensures WorkOf(P, After(P, s, i)) + Credit(Step(P, s, i, w).Val(Ready)) + (if Wakes(P, s, i) then ResumeCost(P, s, i) else 0)
            < WorkOf(P, s.procs[i]) + Credit(s.Val(Ready))
  {
    StepVal(P, s, i, w, Ready);
    MainPlaces(s.procs[i]);
    hide ActOf, Pos, Step, LocalStep, MayWake, Moved;
    match ActOf(P, s.procs[i])
    case Local => LocalTable(P, s, i);
    case Wait(_, _, _) => WaitTable(P, s.procs[i]);
    case Signal(_, _) => SignalTable(P, s.procs[i]);
  }

  /** What waking costs: a clerk woken by a ready customer starts a round; anyone else gets closer to the end. */
  function ResumeCost(P: Params, s: State, i: nat): int
    requires Enabled(P, s, i)
  {
    var a := ActOf(P, s.procs[i]);
    if a.Signal? && a.x == Ready then 22 else 0
  }

  lemma ResumeWork(P: Params, p: Proc, x: Sem)
    requires BlockedOn(p, x) && ProcOk(P, p)
    ensures WorkOf(P, Resume(P, p)) <= WorkOf(P, p) + (if x == Ready then 22 else 0)
  {
    ResumeTable(P, p, x);
    MainPlaces(p);
    hide Pos, Resume, BlockedOn;
  }

  lemma StepRank(P: Params, s: State, i: nat, w: nat)
    requires Enabled(P, s, i) && MayWake(P, s, i, w) && P.Valid() && Roles(P, s)
    ensures Rank(P, Step(P, s, i, w)) < Rank(P, s)
  {
    var f := p => WorkOf(P, p);
    var q := After(P, s, i);
    MoveWork(P, s, i, w);
    StepProcs(P, s, i, w);
    SumUpdate(s.procs, f, i, q);
    if Wakes(P, s, i) {
      ResumeWork(P, s.procs[w], ActOf(P, s.procs[i]).x);
      SumUpdate(s.procs[i := q], f, w, Resume(P, s.procs[w]));
    }
    hide Step, After, Resume, WorkOf, ActOf, Credit;
  }

  /** No interleaving is longer than the initial measure. */
  lemma {:induction false} RunsAreBounded(P: Params, s: State, steps: seq<Choice>, t: State)
    requires P.Valid() && Inv(P, s) && Runs(P, s, steps, t)
    ensures |steps| <= Rank(P, s) - Rank(P, t)
    decreases |steps|
  {
    hide Step, Rank, MayWake, Enabled;
    if steps != [] {
      var s' := Step(P, s, steps[0].who, steps[0].wakes);
      StepRank(P, s, steps[0].who, steps[0].wakes);
      StepKeepsInv(P, s, steps[0].who, steps[0].wakes);
      RunsAreBounded(P, s', steps[1..], t);
    }
  }

  // ----- nobody is stuck but at the end -----

  /** A process that is not blocked or done can always take its step: a signal that must wake finds someone to wake. */
  lemma CanStep(P: Params, s: State, i: nat) returns (w: nat)
    requires Accounts(P, s) && Enabled(P, s, i)
    ensures MayWake(P, s, i, w)
  {
    var a := ActOf(P, s.procs[i]);
    w := 0;
    if a.Signal? && s.Val(a.x) + 1 <= 0 {
      assert Queued(s, a.x);
      w := SumPositive(s.procs, p => B(BlockedOn(p, a.x)));
    }
  }

  ghost predicate Stuck(P: Params, s: State) { forall i :: 0 <= i < |s.procs| ==> !Enabled(P, s, i) }

  predicate StuckAt(n: nat) { n in {1, 6, 8, 14, 16, 21, 23, 28, 30, 51, 52} }

  lemma StuckPlaces(P: Params, s: State)
    requires Stuck(P, s)
    ensures forall i :: 0 <= i < |s.procs| ==> StuckAt(Pos(s.procs[i].pc))
  {
    forall i | 0 <= i < |s.procs| ensures StuckAt(Pos(s.procs[i].pc)) {
      assert !Enabled(P, s, i);
    }
  }

  /** If all that has been taken of x is by processes blocked on it, it is free and nobody waits. */
  lemma NobodyHolds(P: Params, s: State, x: Sem)
    requires Balanced(P, s, Of(x)) && Queued(s, x) && x in {Ctr, Queue, F1, F2}
    requires forall i :: 0 <= i < |s.procs| ==> Weight(P, Of(x), s.procs[i]) == B(BlockedOn(s.procs[i], x))
    ensures s.Val(x) == 1
    ensures forall i :: 0 <= i < |s.procs| ==> !BlockedOn(s.procs[i], x)
  {
    var w := p => Weight(P, Of(x), p);
    var k := p => B(BlockedOn(p, x));
    SumBounds(s.procs, w, k);
    SumBounds(s.procs, k, w);
    hide Weight, BlockedOn;
    forall i | 0 <= i < |s.procs| ensures !BlockedOn(s.procs[i], x) {
      SumOne(s.procs, k, i);
    }
  }

  /** If one process at most takes of x, nobody waits for it. */
  lemma OneTaker(P: Params, s: State, x: Sem, o: nat)
    requires Balanced(P, s, Of(x)) && Queued(s, x) && x in {F1, F2} && o < |s.procs|
    requires forall i :: 0 <= i < |s.procs| && i != o ==> Weight(P, Of(x), s.procs[i]) == 0
    ensures forall i :: 0 <= i < |s.procs| ==> !BlockedOn(s.procs[i], x)
  {
    hide Weight, BlockedOn, Sum;
    var w := p => Weight(P, Of(x), p);
    var k := p => B(BlockedOn(p, x));
    OnlyTerm(s.procs, w, o);
    AtMostOne(P, x, s.procs[o]);
    forall i | 0 <= i < |s.procs| ensures !BlockedOn(s.procs[i], x) {
      SumOne(s.procs, k, i);
    }
  }

  lemma AtMostOne(P: Params, x: Sem, p: Proc)
    requires x in {F1, F2}
    ensures Weight(P, Of(x), p) <= 1
  {
  }

  lemma {:induction false} OnlyTerm(s: seq<Proc>, f: Proc -> int, o: nat)
    requires o < |s| && forall k :: 0 <= k < |s| && k != o ==> f(s[k]) == 0
    ensures Sum(s, f) == f(s[o])
  {
    var n := |s| - 1;
    if o == n {
      SumZero(s[..n], f);
    } else {
      OnlyTerm(s[..n], f, o);
    }
  }

  /** Counts the processes at positions lo..hi. */
  lemma {:induction false} SumRange(s: seq<Proc>, f: Proc -> int, lo: nat, hi: nat)
    requires lo <= hi <= |s|
    requires forall k :: 0 <= k < |s| ==> f(s[k]) == B(lo <= k < hi)
    ensures Sum(s, f) == hi - lo
  {
    if s != [] {
      var n := |s| - 1;
      SumRange(s[..n], f, if lo < n then lo else n, if hi < n then hi else n);
    }
  }

  /** Unless crossing and other clerks can meet, a stuck state has all four locks free: no deadlock. */
  lemma LocksFree(P: Params, s: State)
    requires P.Valid() && !P.Mixed() && Roles(P, s) && Accounts(P, s) && Stuck(P, s)
    ensures s.Val(Ctr) == 1 && s.Val(Queue) == 1 && s.Val(F1) == 1 && s.Val(F2) == 1
    ensures forall i :: 0 <= i < |s.procs| ==> Pos(s.procs[i].pc) in {6, 14, 16, 21, 51, 52}
  {
    hide Weight, BlockedOn, Roles, Balanced, Queued, Pos, StuckAt, Stuck, Params.Crosses;
    StuckPlaces(P, s);
    RolesOk(P, s);
    QueuesFree(P, s);
    if P.clerks == 1 {
      OneClerk(P, s);
    } else if NoneCross(P) {
      StraightFree(P, s);
    } else {
      NotMixed(P);
      CrossedFree(P, s);
    }
    AllFree(P, s);
  }

  lemma RolesOk(P: Params, s: State)
    requires Roles(P, s)
    ensures forall i :: 0 <= i < |s.procs| ==> ProcOk(P, s.procs[i])
  {
  }

  ghost predicate NoneCross(P: Params) { forall a: nat :: a < P.N() ==> !P.Crosses(a) }

  ghost predicate AllCross(P: Params) { forall a: nat :: a < P.N() && P.types[a] == 3 ==> a in P.crossed }

  lemma NotMixed(P: Params)
    requires 2 <= P.clerks && !P.Mixed() && !NoneCross(P)
    ensures AllCross(P)
  {
  }

  ghost predicate NobodyBlocked(s: State, x: Sem) { forall i :: 0 <= i < |s.procs| ==> !BlockedOn(s.procs[i], x) }

  lemma QueuesFree(P: Params, s: State)
    requires Accounts(P, s)
    requires forall i :: 0 <= i < |s.procs| ==> ProcOk(P, s.procs[i]) && StuckAt(Pos(s.procs[i].pc))
    ensures s.Val(Ctr) == 1 && s.Val(Queue) == 1 && NobodyBlocked(s, Ctr) && NobodyBlocked(s, Queue)
  {
    hide Weight, BlockedOn, Pos, StuckAt, ProcOk;
    forall i | 0 <= i < |s.procs|
      ensures Weight(P, Of(Ctr), s.procs[i]) == B(BlockedOn(s.procs[i], Ctr))
      ensures Weight(P, Of(Queue), s.procs[i]) == B(BlockedOn(s.procs[i], Queue))
    {
      QueuePlaces(P, s.procs[i]);
    }
    NobodyHolds(P, s, Ctr);
    NobodyHolds(P, s, Queue);
  }

  lemma QueuePlaces(P: Params, p: Proc)
    requires StuckAt(Pos(p.pc))
    ensures Weight(P, Of(Ctr), p) == B(BlockedOn(p, Ctr)) && Weight(P, Of(Queue), p) == B(BlockedOn(p, Queue))
  {
    BlockedPlaces(p, Ctr);
    BlockedPlaces(p, Queue);
    hide Pos, BlockedOn;
  }

  /** Nobody crosses: flight 2 is free, so whoever holds flight 1 could go on. */
  lemma StraightFree(P: Params, s: State)
    requires NoneCross(P) && Accounts(P, s)
    requires forall i :: 0 <= i < |s.procs| ==> ProcOk(P, s.procs[i]) && StuckAt(Pos(s.procs[i].pc))
    ensures NobodyBlocked(s, F1) && NobodyBlocked(s, F2)
  {
    hide Weight, BlockedOn, Pos, StuckAt, ProcOk, NoneCross;
    forall i | 0 <= i < |s.procs|
      ensures Weight(P, Of(F2), s.procs[i]) == B(BlockedOn(s.procs[i], F2))
      ensures BlockedOn(s.procs[i], F2) || Weight(P, Of(F1), s.procs[i]) == B(BlockedOn(s.procs[i], F1))
    {
      StraightPlaces(P, s.procs[i]);
    }
    NobodyHolds(P, s, F2);
    NobodyHolds(P, s, F1);
  }

  lemma StraightPlaces(P: Params, p: Proc)
    requires NoneCross(P) && ProcOk(P, p) && StuckAt(Pos(p.pc))
    ensures Weight(P, Of(F2), p) == B(BlockedOn(p, F2))
    ensures BlockedOn(p, F2) || Weight(P, Of(F1), p) == B(BlockedOn(p, F1))
  {
    BlockedPlaces(p, F1);
    BlockedPlaces(p, F2);
    assert !P.Crosses(p.id);
    hide Pos, BlockedOn;
  }

  /** Every clerk of a type 3 customer crosses: flight 1 is free, so whoever holds flight 2 could go on. */
  lemma CrossedFree(P: Params, s: State)
    requires P.Valid() && AllCross(P) && Accounts(P, s)
    requires forall i :: 0 <= i < |s.procs| ==> ProcOk(P, s.procs[i]) && StuckAt(Pos(s.procs[i].pc))
    ensures NobodyBlocked(s, F1) && NobodyBlocked(s, F2)
  {
    hide Weight, BlockedOn, Pos, StuckAt, ProcOk, AllCross;
    forall i | 0 <= i < |s.procs|
      ensures Weight(P, Of(F1), s.procs[i]) == B(BlockedOn(s.procs[i], F1))
      ensures BlockedOn(s.procs[i], F1) || Weight(P, Of(F2), s.procs[i]) == B(BlockedOn(s.procs[i], F2))
    {
      CrossedPlaces(P, s.procs[i]);
    }
    NobodyHolds(P, s, F1);
    NobodyHolds(P, s, F2);
  }

  lemma CrossedPlaces(P: Params, p: Proc)
    requires P.Valid() && AllCross(P) && ProcOk(P, p) && StuckAt(Pos(p.pc))
    ensures Weight(P, Of(F1), p) == B(BlockedOn(p, F1))
    ensures BlockedOn(p, F1) || Weight(P, Of(F2), p) == B(BlockedOn(p, F2))
  {
    BlockedPlaces(p, F1);
    BlockedPlaces(p, F2);
    assert P.Type(p.id) == 3 ==> P.Crosses(p.id);
    hide Pos, BlockedOn;
  }

  /** A single clerk has both locks to itself. */
  lemma OneClerk(P: Params, s: State)
    requires P.clerks == 1 && Roles(P, s) && Accounts(P, s)
    ensures NobodyBlocked(s, F1) && NobodyBlocked(s, F2)
  {
    hide Weight, BlockedOn, Pos, ProcOk, IsCustomer, IsMain;
    forall i | 0 <= i < |s.procs| && i != P.N()
      ensures Weight(P, Of(F1), s.procs[i]) == 0 && Weight(P, Of(F2), s.procs[i]) == 0
    {
      NoClerk(P, s.procs[i]);
    }
    OneTaker(P, s, F1, P.N());
    OneTaker(P, s, F2, P.N());
  }

  lemma NoClerk(P: Params, p: Proc)
    requires IsCustomer(p.pc) || IsMain(p.pc)
    ensures Weight(P, Of(F1), p) == 0 && Weight(P, Of(F2), p) == 0
  {
    hide Pos;
  }

  lemma AllFree(P: Params, s: State)
    requires Accounts(P, s)
    requires forall i :: 0 <= i < |s.procs| ==> ProcOk(P, s.procs[i]) && StuckAt(Pos(s.procs[i].pc))
    requires NobodyBlocked(s, Ctr) && NobodyBlocked(s, Queue) && NobodyBlocked(s, F1) && NobodyBlocked(s, F2)
    ensures s.Val(F1) == 1 && s.Val(F2) == 1
    ensures forall i :: 0 <= i < |s.procs| ==> Pos(s.procs[i].pc) in {6, 14, 16, 21, 51, 52}
  {
    hide Weight, BlockedOn, Pos, StuckAt, ProcOk;
    forall i | 0 <= i < |s.procs|
      ensures Pos(s.procs[i].pc) in {6, 14, 16, 21, 51, 52}
      ensures Weight(P, Of(F1), s.procs[i]) == B(BlockedOn(s.procs[i], F1))
      ensures Weight(P, Of(F2), s.procs[i]) == B(BlockedOn(s.procs[i], F2))
    {
      FreePlaces(P, s.procs[i]);
    }
    NobodyHolds(P, s, F1);
    NobodyHolds(P, s, F2);
  }

  lemma FreePlaces(P: Params, p: Proc)
    requires StuckAt(Pos(p.pc)) && !BlockedOn(p, Ctr) && !BlockedOn(p, Queue) && !BlockedOn(p, F1) && !BlockedOn(p, F2)
    ensures Pos(p.pc) in {6, 14, 16, 21, 51, 52}
    ensures Weight(P, Of(F1), p) == 0 && Weight(P, Of(F2), p) == 0
  {
    BlockedPlaces(p, Ctr);
    BlockedPlaces(p, Queue);
    BlockedPlaces(p, F1);
    BlockedPlaces(p, F2);
    hide Pos, BlockedOn;
  }

  lemma ClerksWaiting(P: Params, s: State)
    requires Roles(P, s) && forall i :: 0 <= i < |s.procs| ==> Pos(s.procs[i].pc) in {6, 14, 16, 21, 51, 52}
    ensures Sum(s.procs, p => B(BlockedOn(p, Ready))) == P.clerks
  {
    hide Sum, Pos, BlockedOn, IsCustomer, IsMain, ProcOk;
    var f := p => B(BlockedOn(p, Ready));
    forall i | 0 <= i < |s.procs| ensures f(s.procs[i]) == B(P.N() <= i < P.N() + P.clerks) {
      RoundPlaces(P, s.procs[i]);
    }
    SumRange(s.procs, f, P.N(), P.N() + P.clerks);
  }

  lemma ClerksTaken(P: Params, s: State)
    requires Roles(P, s) && forall i :: 0 <= i < |s.procs| ==> Pos(s.procs[i].pc) in {6, 14, 16, 21, 51, 52}
    ensures Sum(s.procs, p => Weight(P, Of(Clerk), p)) == P.N()
  {
    hide Sum, Pos, Weight, IsCustomer, IsMain, ProcOk;
    var f := p => Weight(P, Of(Clerk), p);
    forall i | 0 <= i < |s.procs| ensures f(s.procs[i]) == B(0 <= i < P.N()) {
      RoundPlaces(P, s.procs[i]);
    }
    SumRange(s.procs, f, 0, P.N());
  }

  lemma ReadyAndClerk(P: Params, s: State)
    requires forall i :: 0 <= i < |s.procs| ==> Pos(s.procs[i].pc) in {6, 14, 16, 21, 51, 52}
    ensures Sum(s.procs, p => Weight(P, Of(Ready), p)) + Sum(s.procs, p => Weight(P, Of(Clerk), p))
            == Sum(s.procs, p => B(BlockedOn(p, Ready))) + Sum(s.procs, p => B(BlockedOn(p, Clerk)))
    ensures Sum(s.procs, p => Weight(P, Finished, p)) == 0
  {
    hide Sum, Pos, Weight, BlockedOn;
    var f, g := p => Weight(P, Of(Ready), p), p => Weight(P, Of(Clerk), p);
    var a, b := p => B(BlockedOn(p, Ready)), p => B(BlockedOn(p, Clerk));
    var h := p => Weight(P, Of(Ready), p) + Weight(P, Of(Clerk), p);
    forall i | 0 <= i < |s.procs|
      ensures h(s.procs[i]) == a(s.procs[i]) + b(s.procs[i]) && Weight(P, Finished, s.procs[i]) == 0
    {
      RoundPlaces(P, s.procs[i]);
    }
    SumAdd(s.procs, f, g, h);
    SumAdd(s.procs, a, b, h);
    SumZero(s.procs, p => Weight(P, Finished, p));
  }

  /** With the locks free, the customers in line have been matched with clerk rounds; nobody waits for a clerk. */
  lemma RoundsDone(P: Params, s: State)
    requires P.Valid() && Roles(P, s) && Accounts(P, s)
    requires forall i :: 0 <= i < |s.procs| ==> Pos(s.procs[i].pc) in {6, 14, 16, 21, 51, 52}
    ensures s.Val(Ready) + P.clerks == 0 && s.Val(Clerk) == P.clerks && s.rounds == |s.served| == P.N()
    ensures forall i :: 0 <= i < |s.procs| ==> Pos(s.procs[i].pc) != 6
  {
    assert Balanced(P, s, Of(Ready)) && Balanced(P, s, Of(Clerk)) && Balanced(P, s, Finished);
    assert Queued(s, Ready) && Queued(s, Clerk);
    hide Sum, Pos, Weight, BlockedOn, Accounts;
    ClerksWaiting(P, s);
    ClerksTaken(P, s);
    ReadyAndClerk(P, s);
    hide Roles;
    forall i | 0 <= i < |s.procs| ensures Pos(s.procs[i].pc) != 6 {
      RoundPlaces(P, s.procs[i]);
      NoneBlocked(s, Clerk, i);
    }
  }

  lemma NoneBlocked(s: State, x: Sem, i: nat)
    requires i < |s.procs| && Sum(s.procs, p => B(BlockedOn(p, x))) <= 0
    ensures !BlockedOn(s.procs[i], x)
  {
    SumOne(s.procs, p => B(BlockedOn(p, x)), i);
  }

  lemma RoundPlaces(P: Params, p: Proc)
    requires Pos(p.pc) in {6, 14, 16, 21, 51, 52}
    ensures B(BlockedOn(p, Ready)) == B(!IsCustomer(p.pc) && !IsMain(p.pc))
    ensures Weight(P, Of(Clerk), p) == B(IsCustomer(p.pc))
    ensures Weight(P, Of(Ready), p) + Weight(P, Of(Clerk), p) == B(BlockedOn(p, Ready)) + B(BlockedOn(p, Clerk))
    ensures Weight(P, Finished, p) == 0 && B(BlockedOn(p, Clerk)) >= 0
    ensures Pos(p.pc) == 6 ==> B(BlockedOn(p, Clerk)) == 1
  {
    BlockedPlaces(p, Ready);
    BlockedPlaces(p, Clerk);
    hide Pos, BlockedOn;
  }

  /** N ids were signalled finished, so they are 0 .. N-1, and all ids are out. */
  lemma AllServed(P: Params, s: State)
    requires Kept(P, BooksOf(s)) && |s.served| == P.N()
    ensures s.ctr == P.N() && forall x: nat :: x in s.served <==> x < P.N()
  {
    var b := BooksOf(s);
    IdsFit(P, b);
    ServedIds(P, b);
    hide Kept;
    SameSizeSame(s.served, Below(P.N()));
    assert P.N() > 0 ==> P.N() - 1 in s.served;
  }

  lemma ServedIds(P: Params, b: Books)
    requires Kept(P, b)
    ensures forall x: nat :: x in b.served ==> x < b.ctr
  {
    hide Ids, Flights;
  }

  lemma SameSizeSame(a: set<nat>, b: set<nat>)
    requires |a| == |b| && forall x :: x in a ==> x in b
    ensures a == b
  {
    assert a <= b;
    if x :| x in b && x !in a {
      assert a + {x} <= b;
      SubsetSize(a + {x}, b);
    }
  }

  lemma SubsetSize(a: set<nat>, b: set<nat>)
    requires a <= b
    ensures |a| <= |b|
  {
    assert b == a + (b - a);
  }

  /** Nobody waits to be told it is finished. */
  lemma FinishedHeard(P: Params, s: State, c: nat)
    requires P.Valid() && Roles(P, s) && Accounts(P, s) && Kept(P, BooksOf(s)) && s.ctr == P.N()
    requires forall x: nat :: x in s.served <==> x < P.N()
    requires forall i :: 0 <= i < |s.procs| ==> Pos(s.procs[i].pc) in {14, 16, 21, 51, 52}
    ensures s.Val(Fin(c)) == 0
    ensures forall i :: 0 <= i < |s.procs| ==> !BlockedOn(s.procs[i], Fin(c))
  {
    var w, k := p => Weight(P, Of(Fin(c)), p), p => B(BlockedOn(p, Fin(c)));
    assert Balanced(P, s, Of(Fin(c))) && Queued(s, Fin(c));
    OneOwner(P, s, c);
    hide Weight, BlockedOn, Accounts, Roles, Kept;
    if c < P.N() {
      assert Sum(s.procs, w) == 1;
    } else {
      assert Sum(s.procs, w) == 0;
    }
    assert s.Val(Fin(c)) == 0;
    forall i | 0 <= i < |s.procs| ensures !BlockedOn(s.procs[i], Fin(c)) {
      SumOne(s.procs, k, i);
    }
  }

  /** Exactly one customer past its wait has id c, if c is an id. */
  lemma OneOwner(P: Params, s: State, c: nat)
    requires Roles(P, s) && Kept(P, BooksOf(s)) && s.ctr == P.N()
    requires forall i :: 0 <= i < |s.procs| ==> Pos(s.procs[i].pc) in {14, 16, 21, 51, 52}
    ensures Sum(s.procs, p => Weight(P, Of(Fin(c)), p)) == B(c < P.N())
  {
    var w := p => Weight(P, Of(Fin(c)), p);
    var b := BooksOf(s);
    forall i | 0 <= i < |s.procs|
      ensures w(s.procs[i]) == B(b.faces[i].HasId() && b.faces[i].id == c)
    {
      assert b.faces[i] == FaceOf(s.procs[i]);
      OwnerPlaces(P, s.procs[i], c);
    }
    hide Weight, Roles, FaceOf, BooksOf, Line, Desks, Flights;
    if c < P.N() {
      var o := b.who[c];
      assert forall i :: 0 <= i < |s.procs| ==> w(s.procs[i]) == B(o <= i < o + 1);
      hide Ids;
      SumRange(s.procs, w, o, o + 1);
    } else {
      assert forall i :: 0 <= i < |s.procs| ==> w(s.procs[i]) == 0;
      hide Ids;
      SumZero(s.procs, w);
    }
  }

  lemma OwnerPlaces(P: Params, p: Proc, c: nat)
    requires Pos(p.pc) in {14, 16, 21, 51, 52}
    ensures Weight(P, Of(Fin(c)), p) == B(FaceOf(p).HasId() && FaceOf(p).id == c)
  {
    hide Pos;
  }

  lemma TermSum(P: Params, s: State)
    requires Roles(P, s) && forall i :: 0 <= i < |s.procs| ==> Pos(s.procs[i].pc) in {16, 21, 51, 52}
    ensures Sum(s.procs, p => Weight(P, Of(Term), p)) == s.procs[P.N() + P.clerks].id - P.N()
  {
    var m := P.N() + P.clerks;
    var w := p => Weight(P, Of(Term), p);
    var ended := (p: Proc) => B(IsCustomer(p.pc));
    var main := (p: Proc) => if IsMain(p.pc) then p.id else 0;
    hide Sum;
    forall i | 0 <= i < |s.procs| ensures main(s.procs[i]) == w(s.procs[i]) + ended(s.procs[i]) {
      TermPlaces(P, s.procs[i]);
    }
    assert forall i :: 0 <= i < |s.procs| ==> ended(s.procs[i]) == B(0 <= i < P.N());
    assert forall i :: 0 <= i < |s.procs| ==> (IsMain(s.procs[i].pc) <==> i == m);
    hide Weight, Pos, IsCustomer, IsMain, ProcOk, Sum, Roles;
    SumRange(s.procs, ended, 0, P.N());
    SumAdd(s.procs, w, ended, main);
    SumLast(s.procs, main, m);
  }

  lemma TermWaiters(P: Params, s: State)
    requires Roles(P, s) && forall i :: 0 <= i < |s.procs| ==> Pos(s.procs[i].pc) in {16, 21, 51, 52}
    ensures Sum(s.procs, p => B(BlockedOn(p, Term))) == B(Pos(s.procs[P.N() + P.clerks].pc) == 51)
  {
    var m := P.N() + P.clerks;
    var k := p => B(BlockedOn(p, Term));
    forall i | 0 <= i < |s.procs|
      ensures k(s.procs[i]) == B(Pos(s.procs[i].pc) == 51) && (i != m ==> Pos(s.procs[i].pc) != 51)
    {
      TermPlaces(P, s.procs[i]);
    }
    hide BlockedOn, Roles, Pos;
    SumLast(s.procs, k, m);
  }

  /** The main program has seen every customer terminate. */
  lemma MainDone(P: Params, s: State)
    requires P.Valid() && Roles(P, s) && Accounts(P, s)
    requires forall i :: 0 <= i < |s.procs| ==> Pos(s.procs[i].pc) in {16, 21, 51, 52}
    ensures s.Val(Term) == 0
    ensures |s.procs| == P.N() + P.clerks + 1 && Pos(s.procs[P.N() + P.clerks].pc) == 52
  {
    var last := s.procs[P.N() + P.clerks];
    assert IsMain(last.pc) && ProcOk(P, last);
    MainPlaces(last);
    assert Balanced(P, s, Of(Term)) && Queued(s, Term);
    hide Pos, BlockedOn, Weight, Accounts;
    TermSum(P, s);
    TermWaiters(P, s);
  }

  lemma TermPlaces(P: Params, p: Proc)
    requires Pos(p.pc) in {16, 21, 51, 52}
    ensures Weight(P, Of(Term), p) == (if IsMain(p.pc) then p.id else 0) - B(IsCustomer(p.pc))
    ensures B(BlockedOn(p, Term)) == B(Pos(p.pc) == 51)
    ensures IsMain(p.pc) <==> Pos(p.pc) >= 50
    ensures IsCustomer(p.pc) <==> Pos(p.pc) == 16
  {
    BlockedPlaces(p, Term);
    hide Pos, BlockedOn;
  }

  lemma SumLast(s: seq<Proc>, f: Proc -> int, m: nat)
    requires |s| == m + 1 && forall k :: 0 <= k < m ==> f(s[k]) == 0
    ensures Sum(s, f) == f(s[m])
  {
    SumZero(s[..m], f);
  }

  /** A finished reservation run, with the values the main program asserts. */
  ghost predicate Ended(P: Params, s: State) {
    && |s.procs| == P.N() + P.clerks + 1
    && (forall i :: 0 <= i < P.N() ==> s.procs[i].pc == CDone)
    && (forall i :: P.N() <= i < P.N() + P.clerks ==> s.procs[i].pc == KBlkReady)
    && s.procs[P.N() + P.clerks].pc == MDone
    && s.Val(F1) == 1 && s.Val(F2) == 1 && s.Val(Ctr) == 1 && s.Val(Queue) == 1
    && s.Val(Clerk) == P.clerks && s.Val(Ready) + P.clerks == 0 && s.Val(Term) == 0
    && (forall c: nat :: s.Val(Fin(c)) == 0)
    && s.rounds == P.N() && (forall x: nat :: x in s.served <==> x < P.N())
    && |s.who| == P.N() && (forall x :: 0 <= x < P.N() ==> s.who[x] < P.N() && s.procs[s.who[x]].id == x)
    && s.left1 + s.cnt1 == P.seats1 && s.left2 + s.cnt2 == P.seats2
    && (forall x: nat :: x < P.N() ==> Outcome(P, BooksOf(s), x))
  }

  /** A state in which nobody can move is a finished run: no deadlock, no starved customer. */
  lemma StuckIsEnded(P: Params, s: State)
    requires P.Valid() && !P.Mixed() && Inv(P, s) && Stuck(P, s)
    ensures Ended(P, s)
  {
    hide Stuck, Kept, Accounts, Roles, BooksOf, Pos;
    LocksFree(P, s);
    RoundsDone(P, s);
    AllServed(P, s);
    forall c: nat ensures s.Val(Fin(c)) == 0 { FinishedHeard(P, s, c); }
    forall i | 0 <= i < |s.procs| ensures Pos(s.procs[i].pc) in {16, 21, 51, 52} {
      StillWaiting(P, s, i);
    }
    AllEnded(P, s);
  }

  lemma StillWaiting(P: Params, s: State, i: nat)
    requires P.Valid() && Roles(P, s) && Accounts(P, s) && Kept(P, BooksOf(s)) && s.ctr == P.N()
    requires forall x: nat :: x in s.served <==> x < P.N()
    requires forall i :: 0 <= i < |s.procs| ==> Pos(s.procs[i].pc) in {14, 16, 21, 51, 52}
    requires i < |s.procs|
    ensures Pos(s.procs[i].pc) != 14
  {
    hide Roles, Accounts, Kept, BooksOf, Pos, BlockedOn;
    FinishedHeard(P, s, s.procs[i].id);
    BlockedPlaces(s.procs[i], Fin(s.procs[i].id));
  }

  lemma AllEnded(P: Params, s: State)
    requires P.Valid() && Inv(P, s) && s.ctr == P.N()
    requires s.Val(F1) == 1 && s.Val(F2) == 1 && s.Val(Ctr) == 1 && s.Val(Queue) == 1
    requires s.Val(Clerk) == P.clerks && s.Val(Ready) + P.clerks == 0 && s.rounds == P.N()
    requires (forall c: nat :: s.Val(Fin(c)) == 0) && forall x: nat :: x in s.served <==> x < P.N()
    requires forall i :: 0 <= i < |s.procs| ==> Pos(s.procs[i].pc) in {16, 21, 51, 52}
    ensures Ended(P, s)
  {
    hide Kept, Accounts, Roles, BooksOf, Pos, Outcome;
    MainDone(P, s);
    EndPlaces(P, s);
    FinalBooks(P, s);
    SeatsFinal(P, s);
  }

  lemma EndPlaces(P: Params, s: State)
    requires Roles(P, s) && (forall i :: 0 <= i < |s.procs| ==> Pos(s.procs[i].pc) in {16, 21, 51, 52})
    requires Pos(s.procs[P.N() + P.clerks].pc) == 52
    ensures |s.procs| == P.N() + P.clerks + 1
    ensures forall i :: 0 <= i < P.N() ==> s.procs[i].pc == CDone
    ensures forall i :: P.N() <= i < P.N() + P.clerks ==> s.procs[i].pc == KBlkReady
    ensures s.procs[P.N() + P.clerks].pc == MDone
  {
    forall i | 0 <= i < |s.procs|
      ensures IsCustomer(s.procs[i].pc) ==> s.procs[i].pc == CDone
      ensures !IsCustomer(s.procs[i].pc) && !IsMain(s.procs[i].pc) ==> s.procs[i].pc == KBlkReady
    {
    }
    hide Pos, ProcOk;
    MainPlaces(s.procs[P.N() + P.clerks]);
  }

  lemma FinalBooks(P: Params, s: State)
    requires Roles(P, s) && Kept(P, BooksOf(s)) && s.ctr == P.N() && forall x: nat :: x in s.served <==> x < P.N()
    ensures |s.who| == P.N() && |s.procs| >= P.N()
    ensures forall x :: 0 <= x < P.N() ==> s.who[x] < P.N() && s.procs[s.who[x]].id == x
    ensures forall x: nat :: x < P.N() ==> Outcome(P, BooksOf(s), x)
  {
    hide Line, Desks, Midway, Outcome;
    var b := BooksOf(s);
    forall x | 0 <= x < P.N() ensures s.who[x] < P.N() && s.procs[s.who[x]].id == x {
      assert b.faces[s.who[x]] == FaceOf(s.procs[s.who[x]]);
    }
  }

  lemma SeatsFinal(P: Params, s: State)
    requires Accounts(P, s) && forall i :: 0 <= i < |s.procs| ==> Pos(s.procs[i].pc) in {16, 21, 51, 52}
    ensures s.left1 + s.cnt1 == P.seats1 && s.left2 + s.cnt2 == P.seats2
  {
    assert Balanced(P, s, Seats1) && Balanced(P, s, Seats2);
    SumZero(s.procs, p => Weight(P, Seats1, p));
    SumZero(s.procs, p => Weight(P, Seats2, p));
  }

  /**
   * The protocol's promise, over every interleaving: no run is longer than the initial measure, and
   * a run that cannot go on has served every customer once and left every semaphore as asserted.
   * Clerks that never mix the two lock orders keep it; those of the programs as they are never do.
   */
  lemma EveryRunEndsWell(P: Params, steps: seq<Choice>, t: State)
    requires P.Valid() && !P.Mixed() && Runs(P, Init(P), steps, t)
    ensures |steps| <= Rank(P, Init(P))
    ensures Stuck(P, t) <==> Ended(P, t)
  {
    hide Rank, Inv, Init, Stuck, Ended, Params.Mixed;
    InitInv(P);
    RunKeepsInv(P, Init(P), steps, t);
    RunsAreBounded(P, Init(P), steps, t);
    RankNonNegative(P, t);
    if Stuck(P, t) { StuckIsEnded(P, t); }
    if Ended(P, t) { EndedIsStuck(P, t); }
  }

  lemma EndedIsStuck(P: Params, s: State)
    requires Ended(P, s)
    ensures Stuck(P, s)
  {
    hide Outcome;
    forall i | 0 <= i < |s.procs| ensures !Enabled(P, s, i) {
      assert s.procs[i].pc in {CDone, KBlkReady, MDone};
    }
  }

  // ----- who flies -----

  /** The customers that ordered the flight: type 1 or 3, type 2 or 3. */
  ghost function Want1(P: Params): set<nat> { set x: nat | x < |P.types| && P.types[x] != 2 }

  ghost function Want2(P: Params): set<nat> { set x: nat | x < |P.types| && P.types[x] != 1 }

  /** The customer is in the booking array of every flight it ordered. */
  ghost predicate Flies(P: Params, s: State, x: nat)
    requires x < |P.types|
  {
    (P.types[x] != 2 ==> Among(s.arr1, s.cnt1, x)) && (P.types[x] != 1 ==> Among(s.arr2, s.cnt2, x))
  }

  /**
   * When a run ends, everyone is booked exactly if each flight has a seat for everyone who ordered
   * it; this is when the main program's final checks of the booking arrays pass.
   */
  lemma EveryoneFliesIff(P: Params, steps: seq<Choice>, t: State)
    requires P.Valid() && !P.Mixed() && Runs(P, Init(P), steps, t) && Stuck(P, t)
    ensures (forall x: nat :: x < P.N() ==> Flies(P, t, x)) <==> |Want1(P)| <= P.seats1 && |Want2(P)| <= P.seats2
  {
    EveryRunEndsWell(P, steps, t);
    ReachableBookings(P, steps, t);
    forall x: nat | x < P.N() ensures FliesOrFull(P, t, x) { assert Outcome(P, BooksOf(t), x); }
    hide Ended, Stuck, Runs, Init, FliesOrFull, Flies;
    FullOr(t.arr1, t.cnt1, Want1(P));
    FullOr(t.arr2, t.cnt2, Want2(P));
    AmongAll(t.arr1, t.cnt1, Want1(P));
    AmongAll(t.arr2, t.cnt2, Want2(P));
    Weigh(P, t);
  }

  ghost predicate FliesOrFull(P: Params, s: State, x: nat)
    requires x < |P.types|
  {
    || Flies(P, s, x)
    || (x in Want1(P) && s.left1 == 0 && !Among(s.arr1, s.cnt1, x))
    || (x in Want2(P) && s.left2 == 0 && !Among(s.arr2, s.cnt2, x))
  }

  lemma Weigh(P: Params, s: State)
    requires forall x: nat :: x < P.N() ==> FliesOrFull(P, s, x)
    requires s.left1 + s.cnt1 == P.seats1 && s.left2 + s.cnt2 == P.seats2 && s.left1 >= 0 && s.left2 >= 0
    requires forall x: nat :: x in Want1(P) && !Among(s.arr1, s.cnt1, x) ==> s.cnt1 < |Want1(P)|
    requires forall x: nat :: x in Want2(P) && !Among(s.arr2, s.cnt2, x) ==> s.cnt2 < |Want2(P)|
    requires (forall x: nat :: x in Want1(P) ==> Among(s.arr1, s.cnt1, x)) ==> |Want1(P)| <= s.cnt1
    requires (forall x: nat :: x in Want2(P) ==> Among(s.arr2, s.cnt2, x)) ==> |Want2(P)| <= s.cnt2
    ensures (forall x: nat :: x < P.N() ==> Flies(P, s, x)) <==> |Want1(P)| <= P.seats1 && |Want2(P)| <= P.seats2
  {
    hide Among;
    if forall x: nat :: x < P.N() ==> Flies(P, s, x) {
      forall x: nat | x in Want1(P) ensures Among(s.arr1, s.cnt1, x) { assert Flies(P, s, x); }
      forall x: nat | x in Want2(P) ensures Among(s.arr2, s.cnt2, x) { assert Flies(P, s, x); }
    } else {
      var x: nat :| x < P.N() && !Flies(P, s, x);
      assert FliesOrFull(P, s, x);
    }
  }

  /** Distinct members of want: as many as want has only if all of want is there. */
  lemma FullOr(s: seq<nat>, n: nat, want: set<nat>)
    requires n <= |s| && (forall j, k :: 0 <= j < k < n ==> s[j] != s[k]) && forall j :: 0 <= j < n ==> s[j] in want
    ensures forall x: nat :: x in want && !Among(s, n, x) ==> n < |want|
  {
    forall x: nat | x in want && !Among(s, n, x) ensures n < |want| {
      var more := s[..n] + [x];
      assert Distinct(more);
      DistinctSize(more, want);
    }
  }

  lemma AmongAll(s: seq<nat>, n: nat, want: set<nat>)
    requires n <= |s|
    ensures (forall x: nat :: x in want ==> Among(s, n, x)) ==> |want| <= n
  {
    if forall x: nat :: x in want ==> Among(s, n, x) {
      SeqSize(s[..n]);
      assert forall x: nat :: x in want ==> x in s[..n];
      SubsetSize(want, set x: nat | x in s[..n]);
    }
  }

  lemma {:induction false} SeqSize(s: seq<nat>)
    ensures |set x: nat | x in s| <= |s|
  {
    if s != [] {
      var n := |s| - 1;
      SeqSize(s[..n]);
      var (a, b) := (set x: nat | x in s[..n], set x: nat | x in s);
      assert b == a + {s[n]};
    } else {
      assert (set x: nat | x in s) == {};
    }
  }
}
