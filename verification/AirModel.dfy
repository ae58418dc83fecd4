/**
 * The air reservation programs (user/tst_air*.c) as interleaved steps: N customers, K clerks and
 * the main program, each with a program counter, over counting semaphores and shared memory.
 *
 * Waiting decrements a semaphore and blocks when the value falls below zero; signalling increments
 * it and, when the value is not yet positive, wakes one blocked process, any one.
 */
module AirModel {

  /**
   * What each customer orders, the seats, the clerks, and the customers of type 3 whose clerk would
   * take flight2CS before flight1CS: none in the programs as they are.
   */
  datatype Params = Params(types: seq<nat>, seats1: nat, seats2: nat, clerks: nat, crossed: set<nat>) {
    function N(): nat { |types| }

    ghost predicate Valid() {
      1 <= clerks && forall c :: 0 <= c < |types| ==> 1 <= types[c] <= 3
    }

    /** The flight type a customer id orders. */
    function Type(id: nat): nat { if id < |types| then types[id] else 1 }

    predicate Crosses(id: nat) { id in crossed && Type(id) == 3 }

    /** Two clerks can work at once for customers of type 3, one crossing and one not. */
    ghost predicate Mixed() {
      && 2 <= clerks
      && exists a: nat, b: nat :: a < N() && b < N() && types[a] == 3 && types[b] == 3 && a in crossed && b !in crossed
    }
  }

  datatype Sem = Ctr | Queue | F1 | F2 | Clerk | Ready | Term | Fin(id: nat)

  datatype PC =
    // customer
    | CWaitCtr | CBlkCtr | CRead | CWrite | CSigCtr | CWaitClerk | CBlkClerk
    | CWaitQ | CBlkQ | CPut | CInc | CSigQ | CSigReady | CWaitFin | CBlkFin | CSigTerm | CDone
    // clerk
    | KWaitReady | KBlkReady | KWaitQ | KBlkQ | KGet | KInc | KSigQ
    | KWait1 | KBlk1 | KWait2 | KBlk2 | KTest
    | KDec1 | KArr1 | KCnt1 | KDec2 | KArr2 | KCnt2 | KSig2 | KSig1 | KSigFin | KSigClerk
    // main program
    | MWait | MBlk | MDone

  /** A process: its program counter and its local variable (custId; for main, the waits begun). */
  datatype Proc = Proc(pc: PC, id: nat)

  /**
   * Shared memory and semaphores, with three history variables that no program reads: the ids
   * already signalled finished, the clerk rounds completed, and which customer process has which id.
   */
  datatype State = State(
    procs: seq<Proc>,
    val: map<Sem, int>,
    ctr: nat,
    queue: seq<nat>, qin: nat, qout: nat,
    left1: int, left2: int,
    cnt1: nat, cnt2: nat,
    arr1: seq<nat>, arr2: seq<nat>, booked: set<nat>,
    served: set<nat>, rounds: nat, who: seq<nat>) {

    function Val(x: Sem): int { if x in val then val[x] else 0 }
  }

  function Init(P: Params): State {
    State(seq(P.N() + P.clerks + 1, i => if i < P.N() then Proc(CWaitCtr, 0)
                                         else if i < P.N() + P.clerks then Proc(KWaitReady, 0)
                                         else Proc(if P.N() == 0 then MDone else MWait, 0)),
          map[Ctr := 1, Queue := 1, F1 := 1, F2 := 1, Clerk := P.clerks, Ready := 0, Term := 0],
          0, seq(P.N(), i => 0), 0, 0, P.seats1, P.seats2, 0, 0,
          seq(P.seats1, i => 0), seq(P.seats2, i => 0), {}, {}, 0, [])
  }

  datatype Act = Wait(x: Sem, blocked: Proc, next: Proc) | Signal(x: Sem, next: Proc) | Local | Stop

  /** Where a clerk goes with flight1CS in hand, and with flight2CS. */
  function After1(P: Params, id: nat): Proc { Proc(if P.Type(id) == 3 && !P.Crosses(id) then KWait2 else KTest, id) }

  function After2(P: Params, id: nat): Proc { Proc(if P.Crosses(id) then KWait1 else KTest, id) }

  function MainAfter(P: Params, begun: nat): Proc { Proc(if begun < P.N() then MWait else MDone, begun) }

  function ActOf(P: Params, p: Proc): Act {
    match p.pc
    case CWaitCtr => Wait(Ctr, Proc(CBlkCtr, p.id), Proc(CRead, p.id))
    case CSigCtr => Signal(Ctr, Proc(CWaitClerk, p.id))
    case CWaitClerk => Wait(Clerk, Proc(CBlkClerk, p.id), Proc(CWaitQ, p.id))
    case CWaitQ => Wait(Queue, Proc(CBlkQ, p.id), Proc(CPut, p.id))
    case CSigQ => Signal(Queue, Proc(CSigReady, p.id))
    case CSigReady => Signal(Ready, Proc(CWaitFin, p.id))
    case CWaitFin => Wait(Fin(p.id), Proc(CBlkFin, p.id), Proc(CSigTerm, p.id))
    case CSigTerm => Signal(Term, Proc(CDone, p.id))
    case KWaitReady => Wait(Ready, Proc(KBlkReady, p.id), Proc(KWaitQ, p.id))
    case KWaitQ => Wait(Queue, Proc(KBlkQ, p.id), Proc(KGet, p.id))
    case KSigQ => Signal(Queue, Proc(if P.Type(p.id) == 2 || P.Crosses(p.id) then KWait2 else KWait1, p.id))
    case KWait1 => Wait(F1, Proc(KBlk1, p.id), After1(P, p.id))
    case KWait2 => Wait(F2, Proc(KBlk2, p.id), After2(P, p.id))
    case KSig2 => Signal(F2, Proc(if P.Type(p.id) == 3 then KSig1 else KSigFin, p.id))
    case KSig1 => Signal(F1, Proc(KSigFin, p.id))
    case KSigFin => Signal(Fin(p.id), Proc(KSigClerk, p.id))
    case KSigClerk => Signal(Clerk, Proc(KWaitReady, p.id))
    case MWait => Wait(Term, Proc(MBlk, p.id + 1), MainAfter(P, p.id + 1))
    case CRead | CWrite | CPut | CInc | KGet | KInc | KTest
       | KDec1 | KArr1 | KCnt1 | KDec2 | KArr2 | KCnt2 => Local
    case CBlkCtr | CBlkClerk | CBlkQ | CBlkFin | CDone
       | KBlkReady | KBlkQ | KBlk1 | KBlk2 | MBlk | MDone => Stop
  }

  /** Is the process blocked in a wait on x? */
  predicate BlockedOn(p: Proc, x: Sem) {
    match p.pc
    case CBlkCtr => x == Ctr
    case CBlkClerk => x == Clerk
    case CBlkQ | KBlkQ => x == Queue
    case CBlkFin => x == Fin(p.id)
    case KBlkReady => x == Ready
    case KBlk1 => x == F1
    case KBlk2 => x == F2
    case MBlk => x == Term
    case _ => false
  }

  /** Where a woken process continues. */
  function Resume(P: Params, p: Proc): Proc {
    match p.pc
    case CBlkCtr => Proc(CRead, p.id)
    case CBlkClerk => Proc(CWaitQ, p.id)
    case CBlkQ => Proc(CPut, p.id)
    case CBlkFin => Proc(CSigTerm, p.id)
    case KBlkReady => Proc(KWaitQ, p.id)
    case KBlkQ => Proc(KGet, p.id)
    case KBlk1 => After1(P, p.id)
    case KBlk2 => After2(P, p.id)
    case MBlk => MainAfter(P, p.id)
    case _ => p
  }

  /** Which booking the clerk starts, if any: flight 1 first, flight 2 alone, or none. */
  function Decided(P: Params, s: State, id: nat): Proc {
    var t := P.Type(id);
    if t == 1 then Proc(if s.left1 > 0 then KDec1 else KSig1, id)
    else if t == 2 then Proc(if s.left2 > 0 then KDec2 else KSig2, id)
    else Proc(if s.left1 > 0 && s.left2 > 0 then KDec1 else KSig2, id)
  }

  /** A step on shared memory. */
  function LocalStep(P: Params, s: State, i: nat): State
    requires i < |s.procs|
  {
    var p := s.procs[i];
    match p.pc
    case CRead => s.(procs := s.procs[i := Proc(CWrite, s.ctr)])
    case CWrite => s.(procs := s.procs[i := Proc(CSigCtr, p.id)], ctr := p.id + 1, who := s.who + [i])
    case CPut => s.(procs := s.procs[i := Proc(CInc, p.id)], queue := if s.qin < |s.queue| then s.queue[s.qin := p.id] else s.queue)
    case CInc => s.(procs := s.procs[i := Proc(CSigQ, p.id)], qin := s.qin + 1)
    case KGet => s.(procs := s.procs[i := Proc(KInc, if s.qout < |s.queue| then s.queue[s.qout] else 0)])
    case KInc => s.(procs := s.procs[i := Proc(KSigQ, p.id)], qout := s.qout + 1)
    case KTest => s.(procs := s.procs[i := Decided(P, s, p.id)])
    case KDec1 => s.(procs := s.procs[i := Proc(KArr1, p.id)], left1 := s.left1 - 1, booked := s.booked + {p.id})
    case KArr1 => s.(procs := s.procs[i := Proc(KCnt1, p.id)], arr1 := if s.cnt1 < |s.arr1| then s.arr1[s.cnt1 := p.id] else s.arr1)
    case KCnt1 => s.(procs := s.procs[i := Proc(if P.Type(p.id) == 3 then KDec2 else KSig1, p.id)], cnt1 := s.cnt1 + 1)
    case KDec2 => s.(procs := s.procs[i := Proc(KArr2, p.id)], left2 := s.left2 - 1, booked := s.booked + {p.id})
    case KArr2 => s.(procs := s.procs[i := Proc(KCnt2, p.id)], arr2 := if s.cnt2 < |s.arr2| then s.arr2[s.cnt2 := p.id] else s.arr2)
    case KCnt2 => s.(procs := s.procs[i := Proc(KSig2, p.id)], cnt2 := s.cnt2 + 1)
    case _ => s
  }

  /** The history a signal leaves. */
  function Noted(s: State, p: Proc): State {
    if p.pc == KSigFin then s.(served := s.served + {p.id})
    else if p.pc == KSigClerk then s.(rounds := s.rounds + 1)
    else s
  }

  predicate Enabled(P: Params, s: State, i: nat) {
    i < |s.procs| && ActOf(P, s.procs[i]) != Stop
  }

  /** w is the process a signal of i wakes; it matters only when someone is blocked. */
  predicate MayWake(P: Params, s: State, i: nat, w: nat)
    requires i < |s.procs|
  {
    var a := ActOf(P, s.procs[i]);
    a.Signal? && s.Val(a.x) + 1 <= 0 ==> w < |s.procs| && BlockedOn(s.procs[w], a.x)
  }

  function Step(P: Params, s: State, i: nat, w: nat): State
    requires Enabled(P, s, i) && MayWake(P, s, i, w)
  {
    var p := s.procs[i];
    match ActOf(P, p)
    case Local => LocalStep(P, s, i)
    case Wait(x, blocked, next) =>
      s.(val := s.val[x := s.Val(x) - 1], procs := s.procs[i := if s.Val(x) - 1 < 0 then blocked else next])
    case Signal(x, next) =>
      var s1 := Noted(s, p).(val := s.val[x := s.Val(x) + 1], procs := s.procs[i := next]);
      if s.Val(x) + 1 <= 0 then s1.(procs := s1.procs[w := Resume(P, s.procs[w])]) else s1
  }

  // ----- sums over the processes -----

  function Sum(s: seq<Proc>, f: Proc -> int): int {
    if s == [] then 0 else Sum(s[..|s| - 1], f) + f(s[|s| - 1])
  }

  lemma {:induction false} SumUpdate(s: seq<Proc>, f: Proc -> int, i: nat, q: Proc)
    requires i < |s|
    ensures Sum(s[i := q], f) == Sum(s, f) - f(s[i]) + f(q)
  {
    var n := |s| - 1;
    if i < n {
      SumUpdate(s[..n], f, i, q);
      assert s[i := q][..n] == s[..n][i := q];
    } else {
      assert s[i := q][..n] == s[..n];
    }
  }

  lemma {:induction false} SumBounds(s: seq<Proc>, f: Proc -> int, g: Proc -> int)
    requires forall k :: 0 <= k < |s| ==> f(s[k]) <= g(s[k])
    ensures Sum(s, f) <= Sum(s, g)
  {
    if s != [] {
      SumBounds(s[..|s| - 1], f, g);
    }
  }

  lemma {:induction false} SumZero(s: seq<Proc>, f: Proc -> int)
    requires forall k :: 0 <= k < |s| ==> f(s[k]) == 0
    ensures Sum(s, f) == 0
  {
    if s != [] { SumZero(s[..|s| - 1], f); }
  }

  /** A non-negative sum is at least any two of its terms. */
  lemma {:induction false} SumTwo(s: seq<Proc>, f: Proc -> int, i: nat, j: nat)
    requires i < j < |s| && forall k :: 0 <= k < |s| ==> f(s[k]) >= 0
    ensures Sum(s, f) >= f(s[i]) + f(s[j])
  {
    var n := |s| - 1;
    if j < n {
      SumTwo(s[..n], f, i, j);
    } else {
      SumOne(s[..n], f, i);
    }
  }

  lemma {:induction false} SumOne(s: seq<Proc>, f: Proc -> int, i: nat)
    requires i < |s| && forall k :: 0 <= k < |s| ==> f(s[k]) >= 0
    ensures Sum(s, f) >= f(s[i])
  {
    var n := |s| - 1;
    if i < n {
      SumOne(s[..n], f, i);
    } else {
      SumNonNegative(s[..n], f);
    }
  }

  lemma {:induction false} SumNonNegative(s: seq<Proc>, f: Proc -> int)
    requires forall k :: 0 <= k < |s| ==> f(s[k]) >= 0
    ensures Sum(s, f) >= 0
  {
    if s != [] { SumNonNegative(s[..|s| - 1], f); }
  }

  /** A positive sum has a positive term. */
  lemma {:induction false} SumPositive(s: seq<Proc>, f: Proc -> int) returns (i: nat)
    requires Sum(s, f) > 0
    ensures i < |s| && f(s[i]) > 0
  {
    var n := |s| - 1;
    if f(s[n]) > 0 {
      i := n;
    } else {
      i := SumPositive(s[..n], f);
    }
  }

  lemma {:induction false} SumAdd(s: seq<Proc>, f: Proc -> int, g: Proc -> int, h: Proc -> int)
    requires forall k :: 0 <= k < |s| ==> h(s[k]) == f(s[k]) + g(s[k])
    ensures Sum(s, h) == Sum(s, f) + Sum(s, g)
  {
    if s != [] { SumAdd(s[..|s| - 1], f, g, h); }
  }
}
