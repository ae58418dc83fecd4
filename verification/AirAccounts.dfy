/**
 * The counting part of the protocol's invariant: every semaphore value and every counter is its
 * initial value minus what the processes have taken, and blocked processes are what a negative
 * value counts.
 */
module AirAccounts {
  import opened AirModel

  /** What is accounted for: the semaphores, the queue indices, the finished customers, the seats. */
  datatype Account = Of(x: Sem) | QIn | QOut | Finished | Seats1 | Seats2

  function B(b: bool): int { if b then 1 else 0 }

  /** The place of a program counter in its program: customers 0-16, clerks 20-41, main 50-52. */
  function Pos(pc: PC): nat {
    match pc
    case CWaitCtr => 0 case CBlkCtr => 1 case CRead => 2 case CWrite => 3 case CSigCtr => 4
    case CWaitClerk => 5 case CBlkClerk => 6 case CWaitQ => 7 case CBlkQ => 8 case CPut => 9
    case CInc => 10 case CSigQ => 11 case CSigReady => 12 case CWaitFin => 13 case CBlkFin => 14
    case CSigTerm => 15 case CDone => 16
    case KWaitReady => 20 case KBlkReady => 21 case KWaitQ => 22 case KBlkQ => 23 case KGet => 24
    case KInc => 25 case KSigQ => 26 case KWait1 => 27 case KBlk1 => 28 case KWait2 => 29 case KBlk2 => 30
    case KTest => 31 case KDec1 => 32 case KArr1 => 33 case KCnt1 => 34 case KDec2 => 35 case KArr2 => 36
    case KCnt2 => 37 case KSig2 => 38 case KSig1 => 39 case KSigFin => 40 case KSigClerk => 41
    case MWait => 50 case MBlk => 51 case MDone => 52
  }

  predicate InCtr(pc: PC) { 2 <= Pos(pc) <= 4 }

  predicate InQueue(pc: PC) { 9 <= Pos(pc) <= 11 || 24 <= Pos(pc) <= 26 }

  /** The clerk holds flight1CS: from its wait on, for a type 3 customer until both flights are done. */
  predicate In1(P: Params, p: Proc) {
    P.Type(p.id) != 2 && (if P.Crosses(p.id) then 31 <= Pos(p.pc) <= 39 else 29 <= Pos(p.pc) <= 39)
  }

  predicate In2(P: Params, p: Proc) {
    P.Type(p.id) != 1 && (31 <= Pos(p.pc) <= 38 || (P.Crosses(p.id) && 27 <= Pos(p.pc) <= 28))
  }

  predicate IsCustomer(pc: PC) { Pos(pc) <= 16 }

  predicate IsMain(pc: PC) { Pos(pc) >= 50 }

  /** What a process has taken of an account, by its place n, its customer's type t, and whether it crosses. */
  function WeightAt(a: Account, t: nat, c: bool, n: nat, id: nat): int {
    match a
    case Of(x) => TakenAt(x, t, c, n, id)
    case QIn => -B(11 <= n <= 16)
    case QOut => -B(26 <= n <= 41)
    case Finished => -B(n == 41)
    case Seats1 => B(33 <= n <= 34)
    case Seats2 => B(36 <= n <= 37)
  }

  /** The units of semaphore x taken and not given back. */
  function TakenAt(x: Sem, t: nat, c: bool, n: nat, id: nat): int {
    match x
    case Ctr => B(1 <= n <= 4)
    case Queue => B(8 <= n <= 11 || 23 <= n <= 26)
    case F1 => B(t != 2 && if c then n == 28 || 31 <= n <= 39 else 28 <= n <= 39)
    case F2 => B(t != 1 && (30 <= n <= 38 || (c && 27 <= n <= 28)))
    case Clerk => B(6 <= n <= 16)
    case Ready => B(21 <= n <= 41) - B(13 <= n <= 16)
    case Term => (if n >= 50 then id else 0) - B(n == 16)
    case Fin(y) => B(14 <= n <= 16 && id == y)
  }

  function Weight(P: Params, a: Account, p: Proc): int { WeightAt(a, P.Type(p.id), P.Crosses(p.id), Pos(p.pc), p.id) }

  function Level(P: Params, s: State, a: Account): int {
    match a
    case Of(Clerk) => s.Val(Clerk) - s.rounds
    case Of(Ready) => s.Val(Ready) + s.rounds
    case Of(Fin(x)) => s.Val(Fin(x)) - B(x in s.served)
    case Of(x) => s.Val(x)
    case QIn => s.qin
    case QOut => s.qout - s.rounds
    case Finished => |s.served| - s.rounds
    case Seats1 => s.left1 + s.cnt1
    case Seats2 => s.left2 + s.cnt2
  }

  function Base(P: Params, a: Account): int {
    match a
    case Of(Ctr) => 1
    case Of(Queue) => 1
    case Of(F1) => 1
    case Of(F2) => 1
    case Of(Clerk) => P.clerks
    case Of(_) => 0
    case QIn => 0
    case QOut => 0
    case Finished => 0
    case Seats1 => P.seats1
    case Seats2 => P.seats2
  }

  ghost predicate Balanced(P: Params, s: State, a: Account) {
    Level(P, s, a) + Sum(s.procs, p => Weight(P, a, p)) == Base(P, a)
  }

  /** As many processes are blocked on x as its value is below zero. */
  ghost predicate Queued(s: State, x: Sem) {
    Sum(s.procs, p => B(BlockedOn(p, x))) == if s.Val(x) < 0 then -s.Val(x) else 0
  }

  ghost predicate Accounts(P: Params, s: State) {
    (forall a :: Balanced(P, s, a)) && (forall x :: Queued(s, x))
  }

  /** A clerk works only on the flights its customer ordered; main has begun at most N waits. */
  predicate ProcOk(P: Params, p: Proc) {
    && (P.Type(p.id) == 1 ==> Pos(p.pc) !in {29, 30, 35, 36, 37, 38})
    && (P.Type(p.id) == 2 ==> Pos(p.pc) !in {27, 28, 32, 33, 34, 39})
    && (p.pc.MWait? ==> p.id < P.N())
    && (p.pc.MBlk? ==> 1 <= p.id <= P.N())
    && (p.pc.MDone? ==> p.id == P.N())
  }

  /** Who sits where in procs. */
  ghost predicate Roles(P: Params, s: State) {
    Seated(P, s.procs)
  }

  /** Customers first, then clerks, then the main program. */
  ghost predicate Seated(P: Params, procs: seq<Proc>) {
    && |procs| == P.N() + P.clerks + 1
    && (forall i :: 0 <= i < |procs| ==> (IsCustomer(procs[i].pc) <==> i < P.N()))
    && (forall i :: 0 <= i < |procs| ==> (IsMain(procs[i].pc) <==> i == P.N() + P.clerks))
    && (forall i :: 0 <= i < |procs| ==> ProcOk(P, procs[i]))
  }

  // ----- the programs as tables of places -----

  lemma WaitTable(P: Params, p: Proc)
    requires ActOf(P, p).Wait?
    ensures var (n, x, b, q) := (Pos(p.pc), ActOf(P, p).x, ActOf(P, p).blocked, ActOf(P, p).next);
      var t := P.Type(p.id);
      && Pos(b.pc) == n + 1
      && (n != 50 ==> b.id == p.id && q.id == p.id)
      && (|| (n == 0 && x == Ctr && Pos(q.pc) == 2)
          || (n == 5 && x == Clerk && Pos(q.pc) == 7)
          || (n == 7 && x == Queue && Pos(q.pc) == 9)
          || (n == 13 && x == Fin(p.id) && Pos(q.pc) == 15)
          || (n == 20 && x == Ready && Pos(q.pc) == 22)
          || (n == 22 && x == Queue && Pos(q.pc) == 24)
          || (n == 27 && x == F1 && Pos(q.pc) == if t == 3 && !P.Crosses(p.id) then 29 else 31)
          || (n == 29 && x == F2 && Pos(q.pc) == if P.Crosses(p.id) then 27 else 31)
          || (n == 50 && x == Term && b.id == q.id == p.id + 1 && (Pos(q.pc) == if p.id + 1 < P.N() then 50 else 52)))
  {
  }

  lemma SignalTable(P: Params, p: Proc)
    requires ActOf(P, p).Signal?
    ensures var (n, x, q) := (Pos(p.pc), ActOf(P, p).x, ActOf(P, p).next);
      var t := P.Type(p.id);
      && q.id == p.id
      && (p.pc.KSigFin? <==> n == 40) && (p.pc.KSigClerk? <==> n == 41)
      && (|| (n == 4 && x == Ctr && Pos(q.pc) == 5)
          || (n == 11 && x == Queue && Pos(q.pc) == 12)
          || (n == 12 && x == Ready && Pos(q.pc) == 13)
          || (n == 15 && x == Term && Pos(q.pc) == 16)
          || (n == 26 && x == Queue && Pos(q.pc) == if t == 2 || P.Crosses(p.id) then 29 else 27)
          || (n == 38 && x == F2 && Pos(q.pc) == if t == 3 then 39 else 40)
          || (n == 39 && x == F1 && Pos(q.pc) == 40)
          || (n == 40 && x == Fin(p.id) && Pos(q.pc) == 41)
          || (n == 41 && x == Clerk && Pos(q.pc) == 20))
  {
  }

  ghost predicate LocalMove(P: Params, s: State, i: nat)
    requires i < |s.procs|
  {
    var (p, q) := (s.procs[i], Moved(P, s, i));
    && LocalStep(P, s, i).procs == s.procs[i := q]
    && var (n, m, t) := (Pos(p.pc), Pos(q.pc), P.Type(p.id));
    && (n != 2 && n != 24 ==> q.id == p.id)
    && (|| (n in {2, 3, 9, 10, 24, 25, 32, 33, 35, 36, 37} && m == n + 1)
        || (n == 31 && m == (if t == 1 then if s.left1 > 0 then 32 else 39
                             else if t == 2 then if s.left2 > 0 then 35 else 38
                             else if s.left1 > 0 && s.left2 > 0 then 32 else 38))
        || (n == 34 && m == if t == 3 then 35 else 39))
  }

  /** What a local step makes of the process. */
  function Moved(P: Params, s: State, i: nat): Proc
    requires i < |s.procs|
  {
    var p := s.procs[i];
    match p.pc
    case CRead => Proc(CWrite, s.ctr)
    case CWrite => Proc(CSigCtr, p.id)
    case CPut => Proc(CInc, p.id)
    case CInc => Proc(CSigQ, p.id)
    case KGet => Proc(KInc, if s.qout < |s.queue| then s.queue[s.qout] else 0)
    case KInc => Proc(KSigQ, p.id)
    case KTest => Decided(P, s, p.id)
    case KDec1 => Proc(KArr1, p.id)
    case KArr1 => Proc(KCnt1, p.id)
    case KCnt1 => Proc(if P.Type(p.id) == 3 then KDec2 else KSig1, p.id)
    case KDec2 => Proc(KArr2, p.id)
    case KArr2 => Proc(KCnt2, p.id)
    case KCnt2 => Proc(KSig2, p.id)
    case _ => p
  }

  ghost predicate LocalEffect(P: Params, s: State, i: nat)
    requires i < |s.procs|
  {
    var (n, s') := (Pos(s.procs[i].pc), LocalStep(P, s, i));
    && s'.val == s.val && s'.served == s.served && s'.rounds == s.rounds
    && s'.qin == s.qin + B(n == 10) && s'.qout == s.qout + B(n == 25)
    && s'.left1 == s.left1 - B(n == 32) && s'.cnt1 == s.cnt1 + B(n == 34)
    && s'.left2 == s.left2 - B(n == 35) && s'.cnt2 == s.cnt2 + B(n == 37)
  }

  lemma LocalTable(P: Params, s: State, i: nat)
    requires i < |s.procs| && ActOf(P, s.procs[i]).Local? && P.Valid()
    ensures LocalMove(P, s, i) && LocalEffect(P, s, i)
  {
    LocalMoves(P, s, i);
    LocalEffects(P, s, i);
    hide LocalMove, LocalEffect;
  }

  lemma LocalMoves(P: Params, s: State, i: nat)
    requires i < |s.procs| && ActOf(P, s.procs[i]).Local? && P.Valid()
    ensures LocalMove(P, s, i)
  {
    LocalProcs(P, s, i);
    LocalPlaces(P, s, i);
    hide LocalStep, Moved, Pos, ActOf;
  }

  lemma LocalProcs(P: Params, s: State, i: nat)
    requires i < |s.procs|
    ensures LocalStep(P, s, i).procs == s.procs[i := Moved(P, s, i)]
  {
    hide Decided;
  }

  lemma LocalPlaces(P: Params, s: State, i: nat)
    requires i < |s.procs| && ActOf(P, s.procs[i]).Local? && P.Valid()
    ensures var (p, q) := (s.procs[i], Moved(P, s, i));
      var (n, m, t) := (Pos(p.pc), Pos(q.pc), P.Type(p.id));
      && (n != 2 && n != 24 ==> q.id == p.id)
      && (|| (n in {2, 3, 9, 10, 24, 25, 32, 33, 35, 36, 37} && m == n + 1)
          || (n == 31 && m == (if t == 1 then if s.left1 > 0 then 32 else 39
                               else if t == 2 then if s.left2 > 0 then 35 else 38
                               else if s.left1 > 0 && s.left2 > 0 then 32 else 38))
          || (n == 34 && m == if t == 3 then 35 else 39))
  {
    var p := s.procs[i];
    if p.pc.KTest? {
      TestPlaces(P, s, p.id);
    } else if !p.pc.KCnt1? {
      NextPlaces(P, s, i);
      hide ActOf, Pos, Moved;
    }
  }

  lemma TestPlaces(P: Params, s: State, id: nat)
    ensures var (q, t) := (Decided(P, s, id), P.Type(id));
      q.id == id && Pos(q.pc) == if t == 1 then if s.left1 > 0 then 32 else 39
                                 else if t == 2 then if s.left2 > 0 then 35 else 38
                                 else if s.left1 > 0 && s.left2 > 0 then 32 else 38
  {
  }

  lemma NextPlaces(P: Params, s: State, i: nat)
    requires i < |s.procs| && ActOf(P, s.procs[i]).Local? && !s.procs[i].pc.KTest? && !s.procs[i].pc.KCnt1?
    ensures var (p, q) := (s.procs[i], Moved(P, s, i));
      && (!p.pc.CRead? && !p.pc.KGet? ==> q.id == p.id)
      && (p.pc.CRead? <==> Pos(p.pc) == 2) && (p.pc.KGet? <==> Pos(p.pc) == 24)
      && Pos(p.pc) in {2, 3, 9, 10, 24, 25, 32, 33, 35, 36, 37} && Pos(q.pc) == Pos(p.pc) + 1
  {
  }

  lemma LocalEffects(P: Params, s: State, i: nat)
    requires i < |s.procs|
    ensures LocalEffect(P, s, i)
  {
  }

  lemma ResumeTable(P: Params, p: Proc, x: Sem)
    requires BlockedOn(p, x)
    ensures var (n, q, t) := (Pos(p.pc), Resume(P, p), P.Type(p.id));
      && q.id == p.id
      && (|| (n == 1 && x == Ctr && Pos(q.pc) == 2)
          || (n == 6 && x == Clerk && Pos(q.pc) == 7)
          || (n == 8 && x == Queue && Pos(q.pc) == 9)
          || (n == 14 && x == Fin(p.id) && Pos(q.pc) == 15)
          || (n == 21 && x == Ready && Pos(q.pc) == 22)
          || (n == 23 && x == Queue && Pos(q.pc) == 24)
          || (n == 28 && x == F1 && Pos(q.pc) == if t == 3 && !P.Crosses(p.id) then 29 else 31)
          || (n == 30 && x == F2 && Pos(q.pc) == if P.Crosses(p.id) then 27 else 31)
          || (n == 51 && x == Term && Pos(q.pc) == if p.id < P.N() then 50 else 52))
  {
  }

  // ----- one step keeps the accounts -----

  lemma WaitWeight(P: Params, a: Account, p: Proc)
    requires ActOf(P, p).Wait? && ProcOk(P, p) && P.Valid()
    ensures Weight(P, a, ActOf(P, p).blocked) == Weight(P, a, p) + B(a == Of(ActOf(P, p).x))
    ensures Weight(P, a, ActOf(P, p).next) == Weight(P, a, p) + B(a == Of(ActOf(P, p).x))
  {
    hide Pos, ActOf, WeightAt;
    WaitTable(P, p);
    var (t, c, n, x) := (P.Type(p.id), P.Crosses(p.id), Pos(p.pc), ActOf(P, p).x);
    if n == 50 {
      MainWaitAt(a, t, c, p.id, 51, P.Type(p.id + 1), P.Crosses(p.id + 1));
      MainWaitAt(a, t, c, p.id, Pos(ActOf(P, p).next.pc), P.Type(p.id + 1), P.Crosses(p.id + 1));
    } else {
      CrossedType(P, p.id);
      WaitAt(a, t, c, n, n + 1, x, p.id);
      WaitAt(a, t, c, n, Pos(ActOf(P, p).next.pc), x, p.id);
    }
  }

  lemma CrossedType(P: Params, id: nat)
    requires P.Valid()
    ensures 1 <= P.Type(id) <= 3 && (P.Crosses(id) ==> P.Type(id) == 3)
  {
  }

  /** A wait takes one unit of its semaphore, whether it blocks or passes, and nothing else. */
  lemma WaitAt(a: Account, t: nat, c: bool, n: nat, m: nat, x: Sem, id: nat)
    requires 1 <= t <= 3 && (c ==> t == 3) && (t == 1 ==> n != 29) && (t == 2 ==> n != 27)
    requires || (n == 0 && x == Ctr && 1 <= m <= 2)
             || (n == 5 && x == Clerk && 6 <= m <= 7)
             || (n == 7 && x == Queue && 8 <= m <= 9)
             || (n == 13 && x == Fin(id) && 14 <= m <= 15)
             || (n == 20 && x == Ready && 21 <= m <= 22)
             || (n == 22 && x == Queue && 23 <= m <= 24)
             || (n == 27 && x == F1 && (m == 28 || m == if t == 3 && !c then 29 else 31))
             || (n == 29 && x == F2 && (m == 30 || m == if c then 27 else 31))
    ensures WeightAt(a, t, c, m, id) == WeightAt(a, t, c, n, id) + B(a == Of(x))
  {
  }

  lemma MainWaitAt(a: Account, t: nat, c: bool, id: nat, m: nat, t': nat, c': bool)
    requires 50 <= m <= 52
    ensures WeightAt(a, t', c', m, id + 1) == WeightAt(a, t, c, 50, id) + B(a == Of(Term))
  {
  }

  lemma WaitBalance(P: Params, s: State, i: nat, w: nat, a: Account)
    requires Enabled(P, s, i) && MayWake(P, s, i, w) && P.Valid() && ProcOk(P, s.procs[i])
    requires ActOf(P, s.procs[i]).Wait?
    ensures Level(P, Step(P, s, i, w), a) + Weight(P, a, After(P, s, i)) == Level(P, s, a) + Weight(P, a, s.procs[i])
  {
    hide Weight, Level, ActOf, Pos, ProcOk, Step;
    WaitWeight(P, a, s.procs[i]);
    WaitLevel(P, s, i, w, a);
  }

  lemma WaitLevel(P: Params, s: State, i: nat, w: nat, a: Account)
    requires Enabled(P, s, i) && MayWake(P, s, i, w) && ActOf(P, s.procs[i]).Wait?
    ensures Level(P, Step(P, s, i, w), a) == Level(P, s, a) - B(a == Of(ActOf(P, s.procs[i]).x))
  {
    hide Pos, ActOf, Step, Level;
    WaitEffect(P, s, i, w);
    LevelMoves(P, s, Step(P, s, i, w), ActOf(P, s.procs[i]).x, -1, a);
  }

  /** Only the value of semaphore x moved, by d. */
  lemma LevelMoves(P: Params, s: State, s': State, x: Sem, d: int, a: Account)
    requires s'.val == s.val[x := s.Val(x) + d] && s' == s.(procs := s'.procs, val := s'.val)
    ensures Level(P, s', a) == Level(P, s, a) + (if a == Of(x) then d else 0)
  {
    assert forall y :: s'.Val(y) == s.Val(y) + (if y == x then d else 0);
    hide State.Val;
  }

  lemma WaitEffect(P: Params, s: State, i: nat, w: nat)
    requires Enabled(P, s, i) && MayWake(P, s, i, w) && ActOf(P, s.procs[i]).Wait?
    ensures var (s', x) := (Step(P, s, i, w), ActOf(P, s.procs[i]).x);
      && s'.val == s.val[x := s.Val(x) - 1]
      && s' == s.(procs := s'.procs, val := s'.val)
  {
    hide ActOf;
  }

  lemma SignalBalance(P: Params, s: State, i: nat, w: nat, a: Account)
    requires Enabled(P, s, i) && MayWake(P, s, i, w) && P.Valid() && ProcOk(P, s.procs[i])
    requires ActOf(P, s.procs[i]).Signal?
    requires s.procs[i].pc.KSigFin? ==> s.procs[i].id !in s.served
    ensures Level(P, Step(P, s, i, w), a) + Weight(P, a, After(P, s, i)) == Level(P, s, a) + Weight(P, a, s.procs[i])
  {
    hide Weight, Level, ActOf, Step, Pos, ProcOk;
    SignalWeight(P, a, s.procs[i]);
    SignalLevel(P, s, i, w, a);
  }

  /** A signal gives back one unit of its semaphore; the last two of a clerk's round settle its books. */
  lemma SignalWeight(P: Params, a: Account, p: Proc)
    requires ActOf(P, p).Signal? && ProcOk(P, p) && P.Valid()
    ensures Weight(P, a, ActOf(P, p).next) == Weight(P, a, p)
      - (if p.pc.KSigFin? then B(a == Finished)
         else if p.pc.KSigClerk? then B(a == Of(Ready)) - B(a == QOut) - B(a == Finished)
         else B(a == Of(ActOf(P, p).x)))
  {
    hide Pos, ActOf;
    SignalTable(P, p);
  }

  lemma SignalLevel(P: Params, s: State, i: nat, w: nat, a: Account)
    requires Enabled(P, s, i) && MayWake(P, s, i, w) && ActOf(P, s.procs[i]).Signal?
    requires s.procs[i].pc.KSigFin? ==> s.procs[i].id !in s.served
    ensures var p := s.procs[i];
      Level(P, Step(P, s, i, w), a) == Level(P, s, a)
        + (if p.pc.KSigFin? then B(a == Finished)
           else if p.pc.KSigClerk? then B(a == Of(Ready)) - B(a == QOut) - B(a == Finished)
           else B(a == Of(ActOf(P, p).x)))
  {
    hide Pos, ActOf, Step, Level;
    SignalTable(P, s.procs[i]);
    SignalEffect(P, s, i, w);
    var (p, s') := (s.procs[i], Step(P, s, i, w));
    var s1 := s.(served := s'.served, rounds := s'.rounds);
    LevelMoves(P, s1, s', ActOf(P, p).x, 1, a);
    LevelNoted(P, s, p, a);
  }

  /** What the history a signal leaves does to the accounts. */
  lemma LevelNoted(P: Params, s: State, p: Proc, a: Account)
    requires p.pc.KSigFin? ==> p.id !in s.served
    ensures Level(P, Noted(s, p), a) == Level(P, s, a)
      + (if p.pc.KSigFin? then B(a == Finished) - B(a == Of(Fin(p.id)))
         else if p.pc.KSigClerk? then B(a == Of(Ready)) - B(a == QOut) - B(a == Finished) - B(a == Of(Clerk))
         else 0)
  {
  }

  lemma SignalEffect(P: Params, s: State, i: nat, w: nat)
    requires Enabled(P, s, i) && MayWake(P, s, i, w) && ActOf(P, s.procs[i]).Signal?
    ensures var (p, s', x) := (s.procs[i], Step(P, s, i, w), ActOf(P, s.procs[i]).x);
      && s'.val == s.val[x := s.Val(x) + 1]
      && s'.served == (if p.pc.KSigFin? then s.served + {p.id} else s.served)
      && s'.rounds == (if p.pc.KSigClerk? then s.rounds + 1 else s.rounds)
      && s' == s.(procs := s'.procs, val := s'.val, served := s'.served, rounds := s'.rounds)
  {
    hide ActOf, Resume;
  }

  lemma LocalBalance(P: Params, s: State, i: nat, w: nat, a: Account)
    requires Enabled(P, s, i) && MayWake(P, s, i, w) && P.Valid() && ProcOk(P, s.procs[i])
    requires ActOf(P, s.procs[i]).Local?
    ensures Level(P, Step(P, s, i, w), a) + Weight(P, a, After(P, s, i)) == Level(P, s, a) + Weight(P, a, s.procs[i])
  {
    hide Weight, Level, LocalStep, ActOf, Pos, ProcOk, Moved, Step;
    LocalWeight(P, s, i, a);
    LocalLevel(P, s, i, a);
    LocalIsStep(P, s, i, w);
  }

  /** What a local step takes of an account, by its place. */
  function Taken(a: Account, n: nat): int {
    match a
    case QIn => -B(n == 10)
    case QOut => -B(n == 25)
    case Seats1 => B(n == 32) - B(n == 34)
    case Seats2 => B(n == 35) - B(n == 37)
    case _ => 0
  }

  lemma LocalIsStep(P: Params, s: State, i: nat, w: nat)
    requires Enabled(P, s, i) && MayWake(P, s, i, w) && ActOf(P, s.procs[i]).Local?
    ensures Step(P, s, i, w) == LocalStep(P, s, i) && LocalStep(P, s, i).procs == s.procs[i := Moved(P, s, i)]
    ensures After(P, s, i) == Moved(P, s, i)
  {
    LocalProcs(P, s, i);
    hide LocalStep, Moved;
  }

  lemma LocalWeight(P: Params, s: State, i: nat, a: Account)
    requires i < |s.procs| && ActOf(P, s.procs[i]).Local? && P.Valid() && ProcOk(P, s.procs[i])
    ensures Weight(P, a, Moved(P, s, i)) == Weight(P, a, s.procs[i]) + Taken(a, Pos(s.procs[i].pc))
  {
    hide Pos, ActOf, LocalStep, Moved, WeightAt, Taken;
    LocalPlaces(P, s, i);
    var (p, q) := (s.procs[i], Moved(P, s, i));
    CrossedType(P, p.id);
    CrossedType(P, q.id);
    if Pos(p.pc) == 2 || Pos(p.pc) == 24 {
      EarlyAt(a, P.Type(p.id), P.Crosses(p.id), Pos(p.pc), p.id, P.Type(q.id), P.Crosses(q.id), q.id);
    } else {
      LocalAt(a, P.Type(p.id), P.Crosses(p.id), Pos(p.pc), Pos(q.pc), p.id);
    }
  }

  /** Reading a customer's id takes nothing. */
  lemma EarlyAt(a: Account, t: nat, c: bool, n: nat, id: nat, t': nat, c': bool, id': nat)
    requires n == 2 || n == 24
    ensures WeightAt(a, t', c', n + 1, id') == WeightAt(a, t, c, n, id) + Taken(a, n)
  {
  }

  lemma LocalAt(a: Account, t: nat, c: bool, n: nat, m: nat, id: nat)
    requires 1 <= t <= 3 && (c ==> t == 3) && (t == 2 ==> n !in {32, 33, 34}) && (t == 1 ==> n !in {35, 36, 37})
    requires || (n in {3, 9, 10, 25, 32, 33, 35, 36, 37} && m == n + 1)
             || (n == 31 && m == 32 && t != 2) || (n == 31 && m == 39 && t == 1)
             || (n == 31 && m == 35 && t == 2) || (n == 31 && m == 38 && t != 1)
             || (n == 34 && m == if t == 3 then 35 else 39)
    ensures WeightAt(a, t, c, m, id) == WeightAt(a, t, c, n, id) + Taken(a, n)
  {
    hide TakenAt;
    if a.Of? { LocalTakesNone(a.x, t, c, n, m, id); }
  }

  /** A local step moves within the places that hold a semaphore, or outside them. */
  lemma LocalTakesNone(x: Sem, t: nat, c: bool, n: nat, m: nat, id: nat)
    requires 1 <= t <= 3 && (c ==> t == 3) && (t == 2 ==> n !in {32, 33, 34}) && (t == 1 ==> n !in {35, 36, 37})
    requires || (n in {3, 9, 10, 25, 32, 33, 35, 36, 37} && m == n + 1)
             || (n == 31 && m == 32 && t != 2) || (n == 31 && m == 39 && t == 1)
             || (n == 31 && m == 35 && t == 2) || (n == 31 && m == 38 && t != 1)
             || (n == 34 && m == if t == 3 then 35 else 39)
    ensures TakenAt(x, t, c, m, id) == TakenAt(x, t, c, n, id)
  {
  }

  lemma LocalLevel(P: Params, s: State, i: nat, a: Account)
    requires i < |s.procs|
    ensures Level(P, LocalStep(P, s, i), a) == Level(P, s, a) - Taken(a, Pos(s.procs[i].pc))
  {
    hide Pos, LocalStep;
    LocalEffects(P, s, i);
  }

  lemma StepBalance(P: Params, s: State, i: nat, w: nat, a: Account)
    requires Enabled(P, s, i) && MayWake(P, s, i, w) && P.Valid() && ProcOk(P, s.procs[i])
    requires s.procs[i].pc.KSigFin? ==> s.procs[i].id !in s.served
    ensures Level(P, Step(P, s, i, w), a) + Weight(P, a, After(P, s, i)) == Level(P, s, a) + Weight(P, a, s.procs[i])
  {
    hide Level, Weight, After, Step, ActOf, ProcOk;
    match ActOf(P, s.procs[i])
    case Local => LocalBalance(P, s, i, w, a);
    case Wait(_, _, _) => WaitBalance(P, s, i, w, a);
    case Signal(_, _) => SignalBalance(P, s, i, w, a);
  }

  /** What process i itself becomes. */
  function After(P: Params, s: State, i: nat): Proc
    requires Enabled(P, s, i)
  {
    match ActOf(P, s.procs[i])
    case Local => LocalStep(P, s, i).procs[i]
    case Wait(x, blocked, next) => if s.Val(x) - 1 < 0 then blocked else next
    case Signal(x, next) => next
  }

  predicate Wakes(P: Params, s: State, i: nat)
    requires Enabled(P, s, i)
  {
    var a := ActOf(P, s.procs[i]);
    a.Signal? && s.Val(a.x) + 1 <= 0
  }

  lemma StepProcs(P: Params, s: State, i: nat, w: nat)
    requires Enabled(P, s, i) && MayWake(P, s, i, w)
    ensures Wakes(P, s, i) ==> w != i && w < |s.procs|
    ensures Step(P, s, i, w).procs ==
            if Wakes(P, s, i) then s.procs[i := After(P, s, i)][w := Resume(P, s.procs[w])]
            else s.procs[i := After(P, s, i)]
  {
  }

  lemma ResumeWeight(P: Params, a: Account, p: Proc, x: Sem)
    requires BlockedOn(p, x) && P.Valid() && ProcOk(P, p)
    ensures Weight(P, a, Resume(P, p)) == Weight(P, a, p)
  {
    hide Pos, Resume, BlockedOn;
    ResumeTable(P, p, x);
  }

  lemma ResumeUnblocks(P: Params, p: Proc, x: Sem)
    requires BlockedOn(p, x)
    ensures forall y :: BlockedOn(p, y) <==> y == x
    ensures forall y :: !BlockedOn(Resume(P, p), y)
  {
  }

  lemma StepKeepsBalance(P: Params, s: State, i: nat, w: nat, a: Account)
    requires Enabled(P, s, i) && MayWake(P, s, i, w) && P.Valid() && Roles(P, s) && Balanced(P, s, a)
    requires s.procs[i].pc.KSigFin? ==> s.procs[i].id !in s.served
    ensures Balanced(P, Step(P, s, i, w), a)
  {
    var f := p => Weight(P, a, p);
    var q := After(P, s, i);
    StepBalance(P, s, i, w, a);
    StepProcs(P, s, i, w);
    SumUpdate(s.procs, f, i, q);
    if Wakes(P, s, i) {
      ResumeWeight(P, a, s.procs[w], ActOf(P, s.procs[i]).x);
      SumUpdate(s.procs[i := q], f, w, Resume(P, s.procs[w]));
    }
    hide Step, Weight, Level, After, Resume;
  }

  lemma BlockBalance(P: Params, s: State, i: nat, x: Sem)
    requires Enabled(P, s, i)
    ensures !BlockedOn(s.procs[i], x)
    ensures BlockedOn(After(P, s, i), x) <==>
              ActOf(P, s.procs[i]).Wait? && ActOf(P, s.procs[i]).x == x && s.Val(x) - 1 < 0
  {
    hide BlockedOn, ActOf, LocalStep;
    match ActOf(P, s.procs[i])
    case Local =>
      LocalUnblocked(P, s, i, x);
    case Wait(_, _, _) => WaitUnblocked(P, s.procs[i], x);
    case Signal(_, _) => SignalUnblocked(P, s.procs[i], x);
  }

  lemma WaitUnblocked(P: Params, p: Proc, x: Sem)
    requires ActOf(P, p).Wait?
    ensures !BlockedOn(p, x) && !BlockedOn(ActOf(P, p).next, x) && (BlockedOn(ActOf(P, p).blocked, x) <==> x == ActOf(P, p).x)
  {
  }

  lemma SignalUnblocked(P: Params, p: Proc, x: Sem)
    requires ActOf(P, p).Signal?
    ensures !BlockedOn(p, x) && !BlockedOn(ActOf(P, p).next, x)
  {
  }

  lemma LocalUnblocked(P: Params, s: State, i: nat, x: Sem)
    requires i < |s.procs| && ActOf(P, s.procs[i]).Local?
    ensures !BlockedOn(s.procs[i], x) && !BlockedOn(LocalStep(P, s, i).procs[i], x)
  {
    LocalProcs(P, s, i);
    hide LocalStep;
  }

  lemma StepVal(P: Params, s: State, i: nat, w: nat, x: Sem)
    requires Enabled(P, s, i) && MayWake(P, s, i, w)
    ensures var d := ActOf(P, s.procs[i]);
      Step(P, s, i, w).Val(x) == s.Val(x) + (if d.Wait? && d.x == x then -1 else if d.Signal? && d.x == x then 1 else 0)
  {
    if ActOf(P, s.procs[i]).Local? { LocalVal(P, s, i); }
    hide ActOf, LocalStep;
  }

  lemma LocalVal(P: Params, s: State, i: nat)
    requires i < |s.procs|
    ensures LocalStep(P, s, i).val == s.val
  {
  }

  lemma StepKeepsQueued(P: Params, s: State, i: nat, w: nat, x: Sem)
    requires Enabled(P, s, i) && MayWake(P, s, i, w) && P.Valid() && Queued(s, x)
    ensures Queued(Step(P, s, i, w), x)
  {
    hide Step, After, Resume, BlockedOn, ActOf, Pos;
    var f := p => B(BlockedOn(p, x));
    var q := After(P, s, i);
    BlockBalance(P, s, i, x);
    StepVal(P, s, i, w, x);
    StepProcs(P, s, i, w);
    SumUpdate(s.procs, f, i, q);
    if Wakes(P, s, i) {
      ResumeUnblocks(P, s.procs[w], ActOf(P, s.procs[i]).x);
      SumUpdate(s.procs[i := q], f, w, Resume(P, s.procs[w]));
    }
  }

  lemma AccountsKept(P: Params, s: State, i: nat, w: nat)
    requires Enabled(P, s, i) && MayWake(P, s, i, w) && P.Valid() && Roles(P, s) && Accounts(P, s)
    requires s.procs[i].pc.KSigFin? ==> s.procs[i].id !in s.served
    ensures Accounts(P, Step(P, s, i, w))
  {
    hide Step, Balanced, Queued, Roles;
    forall a ensures Balanced(P, Step(P, s, i, w), a) { StepKeepsBalance(P, s, i, w, a); }
    forall x ensures Queued(Step(P, s, i, w), x) { StepKeepsQueued(P, s, i, w, x); }
  }

  /** No process changes its role, and none strays from its customer's flights. */
  lemma AfterOk(P: Params, s: State, i: nat)
    requires Enabled(P, s, i) && P.Valid() && ProcOk(P, s.procs[i])
    ensures ProcOk(P, After(P, s, i))
    ensures IsCustomer(After(P, s, i).pc) <==> IsCustomer(s.procs[i].pc)
    ensures IsMain(After(P, s, i).pc) <==> IsMain(s.procs[i].pc)
  {
    hide Pos, ActOf, LocalStep, Moved;
    MainPlaces(s.procs[i]);
    MainPlaces(After(P, s, i));
    match ActOf(P, s.procs[i])
    case Local => LocalTable(P, s, i);
    case Wait(_, _, _) => WaitTable(P, s.procs[i]);
    case Signal(_, _) => SignalTable(P, s.procs[i]);
  }

  lemma MainPlaces(p: Proc)
    ensures (p.pc.MWait? <==> Pos(p.pc) == 50) && (p.pc.MBlk? <==> Pos(p.pc) == 51) && (p.pc.MDone? <==> Pos(p.pc) == 52)
  {
  }

  lemma ResumeOk(P: Params, p: Proc)
    requires P.Valid() && ProcOk(P, p)
    ensures ProcOk(P, Resume(P, p))
    ensures IsCustomer(Resume(P, p).pc) <==> IsCustomer(p.pc)
    ensures IsMain(Resume(P, p).pc) <==> IsMain(p.pc)
  {
  }

  lemma RolesKept(P: Params, s: State, i: nat, w: nat)
    requires Enabled(P, s, i) && MayWake(P, s, i, w) && P.Valid() && Roles(P, s)
    ensures Roles(P, Step(P, s, i, w))
  {
    hide Step, After, Resume, IsCustomer, IsMain, ProcOk, ActOf;
    StepProcs(P, s, i, w);
    AfterOk(P, s, i);
    RoleKept(P, s.procs, i, After(P, s, i));
    if Wakes(P, s, i) {
      ResumeOk(P, s.procs[w]);
      RoleKept(P, s.procs[i := After(P, s, i)], w, Resume(P, s.procs[w]));
    }
  }

  lemma RoleKept(P: Params, procs: seq<Proc>, i: nat, p: Proc)
    requires Seated(P, procs) && i < |procs| && ProcOk(P, p)
    requires (IsCustomer(p.pc) <==> IsCustomer(procs[i].pc)) && (IsMain(p.pc) <==> IsMain(procs[i].pc))
    ensures Seated(P, procs[i := p])
  {
    hide IsCustomer, IsMain, ProcOk;
  }
}
