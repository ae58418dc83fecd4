/**
 * The protocol's whole invariant, kept by every step of every process: the accounts and the books
 * together. The accounts give mutual exclusion, the room in the queue and in the booking arrays;
 * the books say what the shared data means.
 */
module AirProtocol {
  import opened Sequences
  import opened AirModel
  import opened AirAccounts
  import opened AirBooks

  function FaceAt(n: nat, id: nat): Face {
    if n <= 2 then NoId else if n == 3 then Writing(id) else if n <= 9 then Named(id)
    else if n == 10 then Putting(id) else if n <= 16 then InLine(id)
    else if n <= 24 || n == 41 then Idle else if n == 25 then Got(id) else if n <= 31 then Pending(id)
    else if n == 32 then Dec1(id) else if n == 33 then Arr1(id) else if n == 34 then Cnt1(id)
    else if n == 35 then Dec2(id) else if n == 36 then Arr2(id) else if n == 37 then Cnt2(id)
    else if n <= 40 then Settled(id) else Main
  }

  function FaceOf(p: Proc): Face { FaceAt(Pos(p.pc), p.id) }

  function Faces(procs: seq<Proc>): (r: seq<Face>)
    ensures |r| == |procs| && forall k :: 0 <= k < |r| ==> r[k] == FaceOf(procs[k])
  {
    seq(|procs|, k requires 0 <= k < |procs| => FaceOf(procs[k]))
  }

  function BooksOf(s: State): Books {
    Books(Faces(s.procs), s.ctr, s.queue, s.qin, s.qout, s.left1, s.left2,
          s.cnt1, s.cnt2, s.arr1, s.arr2, s.booked, s.served, s.who)
  }

  ghost predicate Inv(P: Params, s: State) { Roles(P, s) && Accounts(P, s) && Kept(P, BooksOf(s)) }

  // ----- what the accounts give -----

  /** The process is between the wait and the signal of a mutual-exclusion semaphore. */
  predicate Inside(P: Params, x: Sem, p: Proc) {
    match x
    case Ctr => InCtr(p.pc)
    case Queue => InQueue(p.pc)
    case F1 => In1(P, p)
    case F2 => In2(P, p)
    case _ => false
  }

  lemma BlockedPlaces(p: Proc, x: Sem)
    ensures BlockedOn(p, x) <==> (match Pos(p.pc)
      case 1 => x == Ctr case 6 => x == Clerk case 8 => x == Queue case 23 => x == Queue
      case 14 => x == Fin(p.id) case 21 => x == Ready case 28 => x == F1 case 30 => x == F2 case 51 => x == Term
      case _ => false)
  {
  }

  /** No two processes are inside the same critical section. */
  lemma Mutex(P: Params, s: State, x: Sem, i: nat, j: nat)
    requires Roles(P, s) && Accounts(P, s)
    requires x == Ctr || x == Queue || x == F1 || x == F2
    requires i < |s.procs| && j < |s.procs| && i != j
    ensures !(Inside(P, x, s.procs[i]) && Inside(P, x, s.procs[j]))
  {
    var w := p => Weight(P, Of(x), p);
    var k := p => B(BlockedOn(p, x));
    var d := p => Weight(P, Of(x), p) - B(BlockedOn(p, x));
    assert Balanced(P, s, Of(x)) && Queued(s, x);
    forall q | 0 <= q < |s.procs|
      ensures d(s.procs[q]) >= B(Inside(P, x, s.procs[q])) {
      InsideWeight(P, x, s.procs[q]);
    }
    hide Weight, BlockedOn, Inside, Roles, Accounts;
    SumAdd(s.procs, d, k, w);
    SumTwo(s.procs, d, if i < j then i else j, if i < j then j else i);
  }

  lemma InsideWeight(P: Params, x: Sem, p: Proc)
    requires (x == Ctr || x == Queue || x == F1 || x == F2) && ProcOk(P, p)
    ensures Weight(P, Of(x), p) - B(BlockedOn(p, x)) >= B(Inside(P, x, p))
  {
    BlockedPlaces(p, x);
    hide BlockedOn, Pos;
  }

  /** A clerk about to dequeue finds someone in the queue. */
  lemma SomeoneInLine(P: Params, s: State, i: nat)
    requires Accounts(P, s) && i < |s.procs| && s.procs[i].pc.KGet?
    ensures s.qout < s.qin
  {
    var ready, out, into := p => Weight(P, Of(Ready), p), p => Weight(P, QOut, p), p => Weight(P, QIn, p);
    var blocked := p => B(BlockedOn(p, Ready));
    var a := p => Weight(P, Of(Ready), p) + Weight(P, QOut, p);
    var b := p => Weight(P, QIn, p) + B(BlockedOn(p, Ready));
    var d := p => Weight(P, Of(Ready), p) + Weight(P, QOut, p) - Weight(P, QIn, p) - B(BlockedOn(p, Ready));
    assert Balanced(P, s, Of(Ready)) && Balanced(P, s, QOut) && Balanced(P, s, QIn) && Queued(s, Ready);
    forall k | 0 <= k < |s.procs| ensures d(s.procs[k]) >= B(s.procs[k].pc.KGet?) {
      GetWeight(P, s.procs[k]);
    }
    hide Weight, BlockedOn, Accounts;
    SumAdd(s.procs, ready, out, a);
    SumAdd(s.procs, into, blocked, b);
    SumAdd(s.procs, d, b, a);
    SumOne(s.procs, d, i);
  }

  lemma GetWeight(P: Params, p: Proc)
    ensures Weight(P, Of(Ready), p) + Weight(P, QOut, p) - Weight(P, QIn, p) - B(BlockedOn(p, Ready)) >= B(p.pc.KGet?)
  {
    BlockedPlaces(p, Ready);
    assert p.pc.KGet? ==> Pos(p.pc) == 24;
    hide BlockedOn, Pos;
  }

  /** A seat still sold as free has a place in the booking array. */
  lemma SeatsLeft(P: Params, s: State)
    requires Accounts(P, s)
    ensures s.left1 + s.cnt1 <= P.seats1 && s.left2 + s.cnt2 <= P.seats2
  {
    assert Balanced(P, s, Seats1) && Balanced(P, s, Seats2);
    SumNonNegative(s.procs, p => Weight(P, Seats1, p));
    SumNonNegative(s.procs, p => Weight(P, Seats2, p));
  }

  // ----- faces along a step -----

  lemma WaitFace(P: Params, s: State, i: nat)
    requires Enabled(P, s, i) && !ActOf(P, s.procs[i]).Local? && !s.procs[i].pc.KSigFin?
    ensures FaceOf(After(P, s, i)) == FaceOf(s.procs[i])
  {
    if ActOf(P, s.procs[i]).Wait? { WaitTable(P, s.procs[i]); } else { SignalTable(P, s.procs[i]); }
    hide Pos, ActOf;
  }

  lemma ResumeFace(P: Params, p: Proc, x: Sem)
    requires BlockedOn(p, x)
    ensures FaceOf(Resume(P, p)) == FaceOf(p)
  {
    ResumeTable(P, p, x);
    hide Pos, Resume, BlockedOn;
  }

  lemma FacesUpdate(procs: seq<Proc>, i: nat, p: Proc)
    requires i < |procs|
    ensures Faces(procs[i := p]) == Faces(procs)[i := FaceOf(p)]
  {
  }

  /** Waiting, signalling and waking move no face, but for the signal that serves a customer. */
  lemma SemaphoreBooks(P: Params, s: State, i: nat, w: nat)
    requires Enabled(P, s, i) && MayWake(P, s, i, w) && !ActOf(P, s.procs[i]).Local?
    ensures BooksOf(Step(P, s, i, w)) ==
            (if s.procs[i].pc.KSigFin? then With(BooksOf(s), i, Idle).(served := s.served + {s.procs[i].id}) else BooksOf(s))
  {
    hide Step, After, Resume, FaceOf, ActOf, Faces;
    SemaphoreFaces(P, s, i, w);
    SemaphoreRest(P, s, i, w);
  }

  lemma SemaphoreFaces(P: Params, s: State, i: nat, w: nat)
    requires Enabled(P, s, i) && MayWake(P, s, i, w) && !ActOf(P, s.procs[i]).Local?
    ensures Faces(Step(P, s, i, w).procs) == if s.procs[i].pc.KSigFin? then Faces(s.procs)[i := Idle] else Faces(s.procs)
  {
    hide Step, After, Resume, FaceOf, ActOf;
    StepProcs(P, s, i, w);
    MoverFace(P, s, i);
    FacesUpdate(s.procs, i, After(P, s, i));
    if Wakes(P, s, i) {
      ResumeFace(P, s.procs[w], ActOf(P, s.procs[i]).x);
      FacesUpdate(s.procs[i := After(P, s, i)], w, Resume(P, s.procs[w]));
    }
  }

  lemma MoverFace(P: Params, s: State, i: nat)
    requires Enabled(P, s, i) && !ActOf(P, s.procs[i]).Local?
    ensures FaceOf(After(P, s, i)) == if s.procs[i].pc.KSigFin? then Idle else FaceOf(s.procs[i])
  {
    if !s.procs[i].pc.KSigFin? {
      WaitFace(P, s, i);
      hide After, FaceOf, ActOf;
    }
  }

  lemma SemaphoreRest(P: Params, s: State, i: nat, w: nat)
    requires Enabled(P, s, i) && MayWake(P, s, i, w) && !ActOf(P, s.procs[i]).Local?
    ensures var s' := Step(P, s, i, w);
      && s' == s.(procs := s'.procs, val := s'.val, rounds := s'.rounds, served := s'.served)
      && s'.served == (if s.procs[i].pc.KSigFin? then s.served + {s.procs[i].id} else s.served)
  {
    if ActOf(P, s.procs[i]).Wait? { WaitEffect(P, s, i, w); } else { SignalEffect(P, s, i, w); }
    hide Step;
  }

  /** What a local step does to the books. */
  function Written(P: Params, b: Books, i: nat, pc: PC): Books
    requires i < |b.faces|
  {
    var f := b.faces[i];
    match pc
    case CRead => With(b, i, Writing(b.ctr))
    case CWrite => if f.Writing? then With(b, i, Named(f.id)).(ctr := f.id + 1, who := b.who + [i]) else b
    case CPut => if f.Named? && b.qin < |b.queue| then With(b, i, Putting(f.id)).(queue := b.queue[b.qin := f.id]) else b
    case CInc => if f.Putting? then With(b, i, InLine(f.id)).(qin := b.qin + 1) else b
    case KGet => if b.qout < |b.queue| then With(b, i, Got(b.queue[b.qout])) else b
    case KInc => if f.Got? then With(b, i, Pending(f.id)).(qout := b.qout + 1) else b
    case KTest => if f.Pending? then With(b, i, DecidedFace(P, b, f.id)) else b
    case KDec1 => if f.Dec1? then With(b, i, Arr1(f.id)).(left1 := b.left1 - 1, booked := b.booked + {f.id}) else b
    case KArr1 => if f.Arr1? && b.cnt1 < |b.arr1| then With(b, i, Cnt1(f.id)).(arr1 := b.arr1[b.cnt1 := f.id]) else b
    case KCnt1 => if f.Cnt1? then With(b, i, if P.Type(f.id) == 3 then Dec2(f.id) else Settled(f.id)).(cnt1 := b.cnt1 + 1) else b
    case KDec2 => if f.Dec2? then With(b, i, Arr2(f.id)).(left2 := b.left2 - 1, booked := b.booked + {f.id}) else b
    case KArr2 => if f.Arr2? && b.cnt2 < |b.arr2| then With(b, i, Cnt2(f.id)).(arr2 := b.arr2[b.cnt2 := f.id]) else b
    case KCnt2 => if f.Cnt2? then With(b, i, Settled(f.id)).(cnt2 := b.cnt2 + 1) else b
    case _ => b
  }

  lemma LocalBooks(P: Params, s: State, i: nat)
    requires i < |s.procs| && ActOf(P, s.procs[i]).Local? && Room(BooksOf(s), s.procs[i].pc)
    ensures BooksOf(LocalStep(P, s, i)) == Written(P, BooksOf(s), i, s.procs[i].pc)
  {
    LocalProcs(P, s, i);
    FacesUpdate(s.procs, i, Moved(P, s, i));
    LocalData(P, s, i);
    LocalFaces(P, s, i);
    hide LocalStep, Moved, FaceOf, Written, ActOf;
  }

  lemma LocalFaces(P: Params, s: State, i: nat)
    requires i < |s.procs| && ActOf(P, s.procs[i]).Local? && Room(BooksOf(s), s.procs[i].pc)
    ensures Written(P, BooksOf(s), i, s.procs[i].pc).faces == Faces(s.procs)[i := FaceOf(Moved(P, s, i))]
  {
    hide ActOf, Room, Written, FaceOf, Moved, Faces;
    LocalPcs(P, s.procs[i]);
    var pc := s.procs[i].pc;
    if pc in {CRead, CWrite, CPut, CInc} { CustomerFaces(P, s, BooksOf(s), i); }
    else if pc in {KGet, KInc, KTest} { QueueFaces(P, s, BooksOf(s), i); }
    else if pc in {KDec1, KArr1, KCnt1} { Flight1Faces(P, s, BooksOf(s), i); }
    else { Flight2Faces(P, s, BooksOf(s), i); }
  }

  lemma LocalPcs(P: Params, p: Proc)
    requires ActOf(P, p).Local?
    ensures p.pc in {CRead, CWrite, CPut, CInc} || p.pc in {KGet, KInc, KTest}
      || p.pc in {KDec1, KArr1, KCnt1} || p.pc in {KDec2, KArr2, KCnt2}
  {
  }

  /** The data the faces depend on. */
  predicate Shown(s: State, b: Books, i: nat)
    requires i < |s.procs|
  {
    && i < |b.faces| && b.faces[i] == FaceOf(s.procs[i])
    && b.ctr == s.ctr && b.queue == s.queue && b.qin == s.qin && b.qout == s.qout && b.left1 == s.left1 && b.left2 == s.left2
    && b.cnt1 == s.cnt1 && b.cnt2 == s.cnt2 && b.arr1 == s.arr1 && b.arr2 == s.arr2
  }

  lemma CustomerFaces(P: Params, s: State, b: Books, i: nat)
    requires i < |s.procs| && Shown(s, b, i) && Room(b, s.procs[i].pc) && s.procs[i].pc in {CRead, CWrite, CPut, CInc}
    ensures Written(P, b, i, s.procs[i].pc).faces == b.faces[i := FaceOf(Moved(P, s, i))]
  {
  }

  lemma QueueFaces(P: Params, s: State, b: Books, i: nat)
    requires i < |s.procs| && Shown(s, b, i) && Room(b, s.procs[i].pc) && s.procs[i].pc in {KGet, KInc, KTest}
    ensures Written(P, b, i, s.procs[i].pc).faces == b.faces[i := FaceOf(Moved(P, s, i))]
  {
  }

  lemma Flight1Faces(P: Params, s: State, b: Books, i: nat)
    requires i < |s.procs| && Shown(s, b, i) && Room(b, s.procs[i].pc) && s.procs[i].pc in {KDec1, KArr1, KCnt1}
    ensures Written(P, b, i, s.procs[i].pc).faces == b.faces[i := FaceOf(Moved(P, s, i))]
  {
  }

  lemma Flight2Faces(P: Params, s: State, b: Books, i: nat)
    requires i < |s.procs| && Shown(s, b, i) && Room(b, s.procs[i].pc) && s.procs[i].pc in {KDec2, KArr2, KCnt2}
    ensures Written(P, b, i, s.procs[i].pc).faces == b.faces[i := FaceOf(Moved(P, s, i))]
  {
  }

  lemma LocalData(P: Params, s: State, i: nat)
    requires i < |s.procs| && ActOf(P, s.procs[i]).Local? && Room(BooksOf(s), s.procs[i].pc)
    ensures var (b, s') := (Written(P, BooksOf(s), i, s.procs[i].pc), LocalStep(P, s, i));
      b == Books(b.faces, s'.ctr, s'.queue, s'.qin, s'.qout, s'.left1, s'.left2,
                 s'.cnt1, s'.cnt2, s'.arr1, s'.arr2, s'.booked, s'.served, s'.who)
  {
  }

  // ----- every step keeps the invariant -----

  lemma FacePlaces(P: Params, p: Proc)
    requires ProcOk(P, p)
    ensures FaceOf(p).Writing? ==> Inside(P, Ctr, p)
    ensures FaceOf(p).Putting? || FaceOf(p).Got? ==> Inside(P, Queue, p)
    ensures Uses1(FaceOf(p)) ==> Inside(P, F1, p)
    ensures Uses2(P, FaceOf(p)) ==> Inside(P, F2, p)
  {
    hide Pos;
  }

  /** Inside x alone: no other process shows a face that needs x. */
  lemma AloneInside(P: Params, s: State, x: Sem, i: nat)
    requires Roles(P, s) && Accounts(P, s) && i < |s.procs| && Inside(P, x, s.procs[i])
    ensures x == Ctr ==> Alone(BooksOf(s), i, (f: Face) => f.Writing?)
    ensures x == Queue ==> Alone(BooksOf(s), i, (f: Face) => f.Putting?) && Alone(BooksOf(s), i, (f: Face) => f.Got?)
    ensures x == F1 ==> Alone(BooksOf(s), i, (f: Face) => Uses1(f))
    ensures x == F2 ==> Alone(BooksOf(s), i, (f: Face) => Uses2(P, f))
  {
    hide Accounts, FaceOf, Uses1, Uses2;
    assert x == Ctr || x == Queue || x == F1 || x == F2;
    hide Inside, ProcOk;
    forall j | 0 <= j < |s.procs| && j != i
      ensures !Inside(P, x, s.procs[j]) && ProcOk(P, s.procs[j])
    {
      Mutex(P, s, x, i, j);
    }
    hide Roles;
    forall j | 0 <= j < |s.procs| && j != i
      ensures var f := BooksOf(s).faces[j];
        && (x == Ctr ==> !f.Writing?) && (x == Queue ==> !f.Putting? && !f.Got?)
        && (x == F1 ==> !Uses1(f)) && (x == F2 ==> !Uses2(P, f))
    {
      FacePlaces(P, s.procs[j]);
    }
  }

  /** What a process at a local step can rely on. */
  ghost predicate CanWrite(P: Params, b: Books, i: nat, pc: PC)
    requires i < |b.faces|
  {
    var f := b.faces[i];
    match pc
    case CRead => f.NoId? && i < P.N()
    case CWrite => f.Writing? && Alone(b, i, (f: Face) => f.Writing?)
    case CPut => f.Named? && Alone(b, i, (f: Face) => f.Putting?)
    case CInc => f.Putting? && Alone(b, i, (f: Face) => f.Putting?)
    case KGet => f.Idle? && b.qout < b.qin
    case KInc => f.Got? && Alone(b, i, (f: Face) => f.Got?)
    case KTest => f.Pending?
    case KDec1 => f.Dec1? && Alone(b, i, (f: Face) => Uses1(f)) && b.left1 + b.cnt1 <= P.seats1
    case KArr1 => f.Arr1? && Alone(b, i, (f: Face) => Uses1(f))
    case KCnt1 => f.Cnt1? && Alone(b, i, (f: Face) => Uses1(f))
    case KDec2 => f.Dec2? && Alone(b, i, (f: Face) => Uses2(P, f)) && b.left2 + b.cnt2 <= P.seats2
    case KArr2 => f.Arr2? && Alone(b, i, (f: Face) => Uses2(P, f))
    case KCnt2 => f.Cnt2? && Alone(b, i, (f: Face) => Uses2(P, f))
    case _ => false
  }

  /** The arrays have room for what the step writes. */
  predicate Room(b: Books, pc: PC) {
    match pc
    case CPut => b.qin < |b.queue|
    case KGet => b.qout < |b.queue|
    case KArr1 => b.cnt1 < |b.arr1|
    case KArr2 => b.cnt2 < |b.arr2|
    case _ => true
  }

  lemma WrittenKeeps(P: Params, b: Books, i: nat, pc: PC)
    requires Kept(P, b) && P.Valid() && i < |b.faces| && CanWrite(P, b, i, pc)
    ensures Room(b, pc) && Kept(P, Written(P, b, i, pc))
  {
    assert pc in {CRead, CWrite, CPut, CInc} || pc in {KGet, KInc, KTest} || pc in {KDec1, KArr1, KCnt1} || pc in {KDec2, KArr2, KCnt2};
    hide Kept, Written, Room, CanWrite;
    if pc in {CRead, CWrite, CPut, CInc} { CustomerKeeps(P, b, i, pc); }
    else if pc in {KGet, KInc, KTest} { ClerkQueueKeeps(P, b, i, pc); }
    else if pc in {KDec1, KArr1, KCnt1} { ClerkFlight1Keeps(P, b, i, pc); }
    else { ClerkFlight2Keeps(P, b, i, pc); }
  }

  lemma CustomerKeeps(P: Params, b: Books, i: nat, pc: PC)
    requires Kept(P, b) && P.Valid() && i < |b.faces| && CanWrite(P, b, i, pc)
    requires pc in {CRead, CWrite, CPut, CInc}
    ensures Room(b, pc) && Kept(P, Written(P, b, i, pc))
  {
    hide Kept, Alone, Uses1, Uses2, DecidedFace;
    match pc
    case CRead => ReadKeeps(P, b, i);
    case CWrite =>
      WritingIsNext(P, b, i);
      WriteKeeps(P, b, i);
    case CPut => PutKeeps(P, b, i);
    case CInc => IncKeeps(P, b, i);
  }

  lemma ClerkQueueKeeps(P: Params, b: Books, i: nat, pc: PC)
    requires Kept(P, b) && P.Valid() && i < |b.faces| && CanWrite(P, b, i, pc)
    requires pc in {KGet, KInc, KTest}
    ensures Room(b, pc) && Kept(P, Written(P, b, i, pc))
  {
    hide Kept, Alone, Uses1, Uses2, DecidedFace;
    match pc
    case KGet => GetKeeps(P, b, i);
    case KInc => OutKeeps(P, b, i);
    case KTest => TestKeeps(P, b, i);
  }

  lemma ClerkFlight1Keeps(P: Params, b: Books, i: nat, pc: PC)
    requires Kept(P, b) && P.Valid() && i < |b.faces| && CanWrite(P, b, i, pc)
    requires pc in {KDec1, KArr1, KCnt1}
    ensures Room(b, pc) && Kept(P, Written(P, b, i, pc))
  {
    hide Kept, Alone, Uses1, Uses2, DecidedFace;
    match pc
    case KDec1 => Dec1Keeps(P, b, i);
    case KArr1 => Arr1Keeps(P, b, i);
    case KCnt1 => Cnt1Keeps(P, b, i);
  }

  lemma ClerkFlight2Keeps(P: Params, b: Books, i: nat, pc: PC)
    requires Kept(P, b) && P.Valid() && i < |b.faces| && CanWrite(P, b, i, pc)
    requires pc in {KDec2, KArr2, KCnt2}
    ensures Room(b, pc) && Kept(P, Written(P, b, i, pc))
  {
    hide Kept, Alone, Uses1, Uses2, DecidedFace;
    match pc
    case KDec2 => Dec2Keeps(P, b, i);
    case KArr2 => Arr2Keeps(P, b, i);
    case KCnt2 => Cnt2Keeps(P, b, i);
  }

  lemma WritingIsNext(P: Params, b: Books, i: nat)
    requires Kept(P, b) && i < |b.faces| && b.faces[i].Writing?
    ensures b.faces[i].id == b.ctr
  {
  }

  /** The lock a local step works under. */
  function Lock(pc: PC): Sem {
    if pc in {CRead, CWrite} then Ctr
    else if pc in {CPut, CInc, KGet, KInc} then Queue
    else if pc in {KDec1, KArr1, KCnt1} then F1
    else if pc in {KDec2, KArr2, KCnt2} then F2
    else Term
  }

  lemma LockHeld(P: Params, p: Proc)
    requires ProcOk(P, p) && ActOf(P, p).Local? && !p.pc.KTest?
    ensures Inside(P, Lock(p.pc), p) && Lock(p.pc) != Term
  {
  }

  lemma ReadyNow(P: Params, s: State, i: nat)
    requires Inv(P, s) && P.Valid() && i < |s.procs| && ActOf(P, s.procs[i]).Local?
    ensures CanWrite(P, BooksOf(s), i, s.procs[i].pc)
  {
    var (b, p) := (BooksOf(s), s.procs[i]);
    assert b.faces[i] == FaceOf(p) && ProcOk(P, p);
    assert p.pc.CRead? ==> IsCustomer(p.pc);
    assert IsCustomer(p.pc) ==> i < P.N();
    if p.pc.KGet? { SomeoneInLine(P, s, i); }
    SeatsLeft(P, s);
    if !p.pc.KTest? {
      LockHeld(P, p);
      AloneInside(P, s, Lock(p.pc), i);
    }
    ReadyFace(P, p);
    hide Accounts, Kept, Roles, Alone, Inside, FaceOf, ActOf, Uses1, Uses2, IsCustomer, ProcOk, Faces;
  }

  lemma ReadyFace(P: Params, p: Proc)
    requires ActOf(P, p).Local?
    ensures var f := FaceOf(p);
      match p.pc
      case CRead => f.NoId? case CWrite => f.Writing? case CPut => f.Named? case CInc => f.Putting?
      case KGet => f.Idle? case KInc => f.Got? case KTest => f.Pending?
      case KDec1 => f.Dec1? case KArr1 => f.Arr1? case KCnt1 => f.Cnt1?
      case KDec2 => f.Dec2? case KArr2 => f.Arr2? case KCnt2 => f.Cnt2?
      case _ => false
  {
  }

  lemma LocalKeeps(P: Params, s: State, i: nat)
    requires Inv(P, s) && P.Valid() && i < |s.procs| && ActOf(P, s.procs[i]).Local?
    ensures Kept(P, BooksOf(LocalStep(P, s, i)))
  {
    ReadyNow(P, s, i);
    hide Accounts, Roles, Kept, Written, Room, LocalStep, ActOf, CanWrite;
    WrittenKeeps(P, BooksOf(s), i, s.procs[i].pc);
    LocalBooks(P, s, i);
  }

  lemma SettledFace(p: Proc)
    requires p.pc.KSigFin?
    ensures FaceOf(p) == Settled(p.id)
  {
  }

  lemma SigFinAct(P: Params, p: Proc)
    requires p.pc.KSigFin?
    ensures ActOf(P, p).Signal?
  {
  }

  /** The clerk that signals a customer finished holds a settled request not served before. */
  lemma ServeKeepsHere(P: Params, s: State, i: nat, w: nat)
    requires Inv(P, s) && P.Valid() && Enabled(P, s, i) && MayWake(P, s, i, w) && s.procs[i].pc.KSigFin?
    ensures s.procs[i].id !in s.served
    ensures Kept(P, BooksOf(Step(P, s, i, w)))
  {
    hide Step, Accounts, Kept, Roles, MayWake, FaceOf;
    var b := BooksOf(s);
    SettledFace(s.procs[i]);
    assert b.faces[i] == FaceOf(s.procs[i]);
    SigFinAct(P, s.procs[i]);
    SemaphoreBooks(P, s, i, w);
    ServeKeeps(P, b, i);
  }

  lemma SemaphoreKeeps(P: Params, s: State, i: nat, w: nat)
    requires Inv(P, s) && P.Valid() && Enabled(P, s, i) && MayWake(P, s, i, w) && !ActOf(P, s.procs[i]).Local?
    ensures s.procs[i].pc.KSigFin? ==> s.procs[i].id !in s.served
    ensures Kept(P, BooksOf(Step(P, s, i, w)))
  {
    hide Step, Accounts, Kept, Roles, FaceOf, BooksOf;
    if s.procs[i].pc.KSigFin? {
      ServeKeepsHere(P, s, i, w);
    } else {
      SemaphoreBooks(P, s, i, w);
    }
  }

  lemma BooksKept(P: Params, s: State, i: nat, w: nat)
    requires Inv(P, s) && P.Valid() && Enabled(P, s, i) && MayWake(P, s, i, w)
    ensures Kept(P, BooksOf(Step(P, s, i, w)))
    ensures s.procs[i].pc.KSigFin? ==> s.procs[i].id !in s.served
  {
    StepIsLocal(P, s, i, w);
    hide Step, Inv, Kept, BooksOf, LocalStep, ActOf, MayWake;
    if ActOf(P, s.procs[i]).Local? {
      LocalKeeps(P, s, i);
    } else {
      SemaphoreKeeps(P, s, i, w);
    }
  }

  /** Whatever process takes a step, and whichever blocked process it wakes, the invariant stays. */
  lemma StepKeepsInv(P: Params, s: State, i: nat, w: nat)
    requires Inv(P, s) && P.Valid() && Enabled(P, s, i) && MayWake(P, s, i, w)
    ensures Inv(P, Step(P, s, i, w))
  {
    hide Step, Accounts, Kept, Roles, BooksOf, ActOf, MayWake;
    BooksKept(P, s, i, w);
    AccountsKept(P, s, i, w);
    RolesKept(P, s, i, w);
  }

  lemma StepIsLocal(P: Params, s: State, i: nat, w: nat)
    requires Enabled(P, s, i) && MayWake(P, s, i, w)
    ensures ActOf(P, s.procs[i]).Local? ==> Step(P, s, i, w) == LocalStep(P, s, i) && !s.procs[i].pc.KSigFin?
  {
  }

  lemma InitInv(P: Params)
    requires P.Valid()
    ensures Inv(P, Init(P))
  {
    var s := Init(P);
    forall a ensures Balanced(P, s, a) {
      InitWeights(P, a);
      SumZero(s.procs, p => Weight(P, a, p));
      InitLevel(P, a);
    }
    forall x ensures Queued(s, x) {
      SumZero(s.procs, p => B(BlockedOn(p, x)));
    }
    InitRoles(P);
    InitBooks(P);
  }

  lemma InitWeights(P: Params, a: Account)
    ensures forall k :: 0 <= k < |Init(P).procs| ==> Weight(P, a, Init(P).procs[k]) == 0
  {
  }

  lemma InitLevel(P: Params, a: Account)
    ensures Level(P, Init(P), a) == Base(P, a)
  {
  }

  lemma InitRoles(P: Params)
    ensures Roles(P, Init(P))
  {
  }

  lemma InitBooks(P: Params)
    ensures Kept(P, BooksOf(Init(P)))
  {
    var b := BooksOf(Init(P));
    InitFaces(P);
    hide FaceOf, Faces, Midway, Init;
  }

  lemma InitFaces(P: Params)
    ensures var b := BooksOf(Init(P));
      && forall k :: 0 <= k < |b.faces| ==> (b.faces[k].NoId? || b.faces[k].Idle? || b.faces[k].Main?) && Midway(P, b, b.faces[k])
    ensures var b := BooksOf(Init(P));
      b == Books(b.faces, 0, seq(P.N(), i => 0), 0, 0, P.seats1, P.seats2, 0, 0, seq(P.seats1, i => 0), seq(P.seats2, i => 0), {}, {}, [])
      && |b.faces| == P.N() + P.clerks + 1
  {
  }

  // ----- runs -----

  /** One step of the schedule: who moves, and whom a signal wakes if anyone. */
  datatype Choice = Choice(who: nat, wakes: nat)

  ghost predicate Runs(P: Params, s: State, steps: seq<Choice>, t: State)
    decreases |steps|
  {
    if steps == [] then t == s
    else
      && Enabled(P, s, steps[0].who) && MayWake(P, s, steps[0].who, steps[0].wakes)
      && Runs(P, Step(P, s, steps[0].who, steps[0].wakes), steps[1..], t)
  }

  /** Every state of every interleaving satisfies the invariant. */
  lemma {:induction false} RunKeepsInv(P: Params, s: State, steps: seq<Choice>, t: State)
    requires P.Valid() && Inv(P, s) && Runs(P, s, steps, t)
    ensures Inv(P, t)
    decreases |steps|
  {
    hide Inv, Step;
    if steps != [] {
      StepKeepsInv(P, s, steps[0].who, steps[0].wakes);
      RunKeepsInv(P, Step(P, s, steps[0].who, steps[0].wakes), steps[1..], t);
    }
  }

  /**
   * In every reachable state: a flight's free and taken seats make its capacity whenever nobody
   * holds its lock, no counter is negative, the booking arrays hold distinct customers who asked for
   * that flight, the queue indices are in order, and a served customer has all its flights or none.
   */
  lemma ReachableBookings(P: Params, steps: seq<Choice>, t: State)
    requires P.Valid() && Runs(P, Init(P), steps, t)
    ensures (forall i :: 0 <= i < |t.procs| ==> !Inside(P, F1, t.procs[i])) ==> t.left1 + t.cnt1 == P.seats1
    ensures (forall i :: 0 <= i < |t.procs| ==> !Inside(P, F2, t.procs[i])) ==> t.left2 + t.cnt2 == P.seats2
    ensures t.left1 >= 0 && t.left2 >= 0 && t.cnt1 <= |t.arr1| == P.seats1 && t.cnt2 <= |t.arr2| == P.seats2
    ensures forall j, k :: 0 <= j < k < t.cnt1 ==> t.arr1[j] != t.arr1[k]
    ensures forall j, k :: 0 <= j < k < t.cnt2 ==> t.arr2[j] != t.arr2[k]
    ensures forall j :: 0 <= j < t.cnt1 ==> t.arr1[j] < P.N() && P.types[t.arr1[j]] != 2
    ensures forall j :: 0 <= j < t.cnt2 ==> t.arr2[j] < P.N() && P.types[t.arr2[j]] != 1
    ensures t.qout <= t.qin <= P.N() == |t.queue|
    ensures forall x :: x in t.served && x < P.N() && P.types[x] == 3 ==>
      (Among(t.arr1, t.cnt1, x) <==> Among(t.arr2, t.cnt2, x))
  {
    InitInv(P);
    RunKeepsInv(P, Init(P), steps, t);
    hide Init, Runs;
    SeatsWhenFree(P, t);
    BookedOnes(P, BooksOf(t));
  }

  lemma SeatsWhenFree(P: Params, s: State)
    requires Roles(P, s) && Accounts(P, s)
    ensures (forall i :: 0 <= i < |s.procs| ==> !Inside(P, F1, s.procs[i])) ==> s.left1 + s.cnt1 == P.seats1
    ensures (forall i :: 0 <= i < |s.procs| ==> !Inside(P, F2, s.procs[i])) ==> s.left2 + s.cnt2 == P.seats2
  {
    SeatsWhenFree1(P, s);
    SeatsWhenFree2(P, s);
    hide Roles, Accounts, Inside;
  }

  lemma SeatsWhenFree1(P: Params, s: State)
    requires Roles(P, s) && Accounts(P, s)
    ensures (forall i :: 0 <= i < |s.procs| ==> !Inside(P, F1, s.procs[i])) ==> s.left1 + s.cnt1 == P.seats1
  {
    hide Weight, Inside, Sum, ProcOk, IsCustomer, IsMain;
    assert Balanced(P, s, Seats1);
    if forall i :: 0 <= i < |s.procs| ==> !Inside(P, F1, s.procs[i]) {
      forall i | 0 <= i < |s.procs| ensures Weight(P, Seats1, s.procs[i]) == 0 { SeatWeight(P, s.procs[i]); }
      SumZero(s.procs, p => Weight(P, Seats1, p));
    }
  }

  lemma SeatsWhenFree2(P: Params, s: State)
    requires Roles(P, s) && Accounts(P, s)
    ensures (forall i :: 0 <= i < |s.procs| ==> !Inside(P, F2, s.procs[i])) ==> s.left2 + s.cnt2 == P.seats2
  {
    hide Weight, Inside, Sum, ProcOk, IsCustomer, IsMain;
    assert Balanced(P, s, Seats2);
    if forall i :: 0 <= i < |s.procs| ==> !Inside(P, F2, s.procs[i]) {
      forall i | 0 <= i < |s.procs| ensures Weight(P, Seats2, s.procs[i]) == 0 { SeatWeight(P, s.procs[i]); }
      SumZero(s.procs, p => Weight(P, Seats2, p));
    }
  }

  lemma SeatWeight(P: Params, p: Proc)
    requires ProcOk(P, p)
    ensures !Inside(P, F1, p) ==> Weight(P, Seats1, p) == 0
    ensures !Inside(P, F2, p) ==> Weight(P, Seats2, p) == 0
  {
    hide Pos;
  }

  lemma BookedOnes(P: Params, b: Books)
    requires Kept(P, b)
    ensures b.left1 >= 0 && b.left2 >= 0 && b.cnt1 <= |b.arr1| == P.seats1 && b.cnt2 <= |b.arr2| == P.seats2
    ensures forall j, k :: 0 <= j < k < b.cnt1 ==> b.arr1[j] != b.arr1[k]
    ensures forall j, k :: 0 <= j < k < b.cnt2 ==> b.arr2[j] != b.arr2[k]
    ensures forall j :: 0 <= j < b.cnt1 ==> b.arr1[j] < P.N() && P.types[b.arr1[j]] != 2
    ensures forall j :: 0 <= j < b.cnt2 ==> b.arr2[j] < P.N() && P.types[b.arr2[j]] != 1
    ensures b.qout <= b.qin <= P.N() == |b.queue|
    ensures forall x :: x in b.served && x < P.N() && P.types[x] == 3 ==> (Among(b.arr1, b.cnt1, x) <==> Among(b.arr2, b.cnt2, x))
  {
    IdsFit(P, b);
    assert b.qout <= b.qin <= P.N() == |b.queue|;
    assert forall x: nat :: Among(b.queue, b.qout, x) ==> x < P.N();
    hide Ids, Midway, Line, Desks;
    forall j | 0 <= j < b.cnt1 ensures b.arr1[j] < P.N() && P.types[b.arr1[j]] != 2 { assert On1(b, b.arr1[j]); }
    forall j | 0 <= j < b.cnt2 ensures b.arr2[j] < P.N() && P.types[b.arr2[j]] != 1 { assert On2(b, b.arr2[j]); }
    forall x | x in b.served && x < P.N() && P.types[x] == 3 ensures Among(b.arr1, b.cnt1, x) <==> Among(b.arr2, b.cnt2, x) {
      assert Outcome(P, b, x);
    }
  }
}
