/**
 * The data part of the protocol's invariant: who has which id, what is in the queue, what each
 * clerk is doing for whom, and what the booking arrays say. Program counters enter only as Faces.
 */
module AirBooks {
  import opened Sequences
  import opened AirModel

  /** What a process's place in its program means for the shared data. */
  datatype Face =
    | NoId | Writing(id: nat) | Named(id: nat) | Putting(id: nat) | InLine(id: nat)
    | Idle | Got(id: nat) | Pending(id: nat)
    | Dec1(id: nat) | Arr1(id: nat) | Cnt1(id: nat) | Dec2(id: nat) | Arr2(id: nat) | Cnt2(id: nat) | Settled(id: nat)
    | Main {

    predicate HasId() { Named? || Putting? || InLine? }

    predicate Held() { Pending? || Dec1? || Arr1? || Cnt1? || Dec2? || Arr2? || Cnt2? || Settled? }
  }

  datatype Books = Books(
    faces: seq<Face>, ctr: nat, queue: seq<nat>, qin: nat, qout: nat, left1: int, left2: int,
    cnt1: nat, cnt2: nat, arr1: seq<nat>, arr2: seq<nat>, booked: set<nat>, served: set<nat>, who: seq<nat>)

  /** Ids are handed out once each, in order. */
  ghost predicate Ids(P: Params, b: Books) {
    && |b.faces| == P.N() + P.clerks + 1
    && |b.who| == b.ctr
    && (forall x :: 0 <= x < b.ctr ==> b.who[x] < P.N() && b.faces[b.who[x]].HasId() && b.faces[b.who[x]].id == x)
    && (forall i :: 0 <= i < |b.faces| && b.faces[i].HasId() ==>
          i < P.N() && b.faces[i].id < b.ctr && b.who[b.faces[i].id] == i)
    && (forall i :: 0 <= i < |b.faces| && b.faces[i].Writing? ==> i < P.N() && b.faces[i].id == b.ctr)
  }

  /** The queue holds, once each, the ids of the customers in line. */
  ghost predicate Line(P: Params, b: Books) {
    && |b.queue| == P.N() && b.qin <= P.N()
    && (forall j :: 0 <= j < b.qin ==> b.queue[j] < b.ctr && b.ctr <= |b.who| && b.who[b.queue[j]] < |b.faces|
                                        && b.faces[b.who[b.queue[j]]].InLine?)
    && (forall j, k :: 0 <= j < k < b.qin ==> b.queue[j] != b.queue[k])
    && (forall i :: 0 <= i < |b.faces| && b.faces[i].InLine? ==> Among(b.queue, b.qin, b.faces[i].id))
    && (forall i :: 0 <= i < |b.faces| && b.faces[i].Putting? ==> b.qin < P.N() && b.queue[b.qin] == b.faces[i].id)
  }

  /** Each dequeued id is with one clerk at most, and served ids with none. */
  ghost predicate Desks(P: Params, b: Books) {
    && b.qout <= b.qin <= |b.queue|
    && (forall i :: 0 <= i < |b.faces| && b.faces[i].Got? ==> b.qout < b.qin && b.faces[i].id == b.queue[b.qout])
    && (forall i :: 0 <= i < |b.faces| && b.faces[i].Held() ==>
          Among(b.queue, b.qout, b.faces[i].id) && b.faces[i].id !in b.served)
    && (forall i, j :: 0 <= i < j < |b.faces| && b.faces[i].Held() && b.faces[j].Held() ==> b.faces[i].id != b.faces[j].id)
    && (forall x :: x in b.served ==> Among(b.queue, b.qout, x))
    && (forall x :: x in b.booked ==> Among(b.queue, b.qout, x))
  }

  /** x is one of the first n entries of s. */
  ghost predicate Among(s: seq<nat>, n: nat, x: nat) { exists j :: 0 <= j < n && j < |s| && s[j] == x }

  lemma AmongSame(s: seq<nat>, t: seq<nat>, n: nat)
    requires n <= |s| && n <= |t| && forall j :: 0 <= j < n ==> s[j] == t[j]
    ensures forall x :: Among(s, n, x) <==> Among(t, n, x)
  {
  }

  lemma AmongGrows(s: seq<nat>, m: nat, n: nat)
    requires m <= n
    ensures forall x :: Among(s, m, x) ==> Among(s, n, x)
  {
  }

  lemma AmongMore(s: seq<nat>, n: nat)
    requires n < |s|
    ensures forall x :: Among(s, n + 1, x) <==> Among(s, n, x) || x == s[n]
  {
    assert forall x | Among(s, n, x) :: Among(s, n + 1, x);
    assert Among(s, n + 1, s[n]);
  }

  ghost predicate On1(b: Books, x: nat) { Among(b.arr1, b.cnt1, x) }

  ghost predicate On2(b: Books, x: nat) { Among(b.arr2, b.cnt2, x) }

  /** How a finished request ended: booked on all the flights it named, or on none and one is sold out. */
  ghost predicate Outcome(P: Params, b: Books, x: nat) {
    var t := P.Type(x);
    && (t != 2 ==> (On1(b, x) <==> x in b.booked))
    && (t != 1 ==> (On2(b, x) <==> x in b.booked))
    && (t == 2 ==> !On1(b, x)) && (t == 1 ==> !On2(b, x))
    && (x !in b.booked ==> (t != 2 && b.left1 == 0) || (t != 1 && b.left2 == 0))
  }

  /** What a clerk in the middle of a booking has done so far. */
  ghost predicate Midway(P: Params, b: Books, f: Face) {
    match f
    case Pending(x) => !On1(b, x) && !On2(b, x) && x !in b.booked
    case Dec1(x) => !On1(b, x) && !On2(b, x) && x !in b.booked && P.Type(x) != 2 && b.left1 > 0 && (P.Type(x) == 3 ==> b.left2 > 0)
    case Arr1(x) => !On1(b, x) && !On2(b, x) && x in b.booked && P.Type(x) != 2 && b.cnt1 < |b.arr1| && (P.Type(x) == 3 ==> b.left2 > 0)
    case Cnt1(x) => !On1(b, x) && !On2(b, x) && x in b.booked && P.Type(x) != 2 && b.cnt1 < |b.arr1| && b.arr1[b.cnt1] == x
                    && (P.Type(x) == 3 ==> b.left2 > 0)
    case Dec2(x) => !On2(b, x) && P.Type(x) != 1 && b.left2 > 0
                    && (P.Type(x) == 3 <==> On1(b, x)) && (P.Type(x) == 3 <==> x in b.booked)
    case Arr2(x) => !On2(b, x) && P.Type(x) != 1 && x in b.booked && b.cnt2 < |b.arr2| && (P.Type(x) == 3 <==> On1(b, x))
    case Cnt2(x) => !On2(b, x) && P.Type(x) != 1 && x in b.booked && b.cnt2 < |b.arr2| && b.arr2[b.cnt2] == x
                    && (P.Type(x) == 3 <==> On1(b, x))
    case Settled(x) => Outcome(P, b, x)
    case _ => true
  }

  ghost predicate Flights(P: Params, b: Books) {
    && |b.arr1| == P.seats1 && |b.arr2| == P.seats2 && b.cnt1 <= P.seats1 && b.cnt2 <= P.seats2
    && b.left1 >= 0 && b.left2 >= 0
    && (forall j, k :: 0 <= j < k < b.cnt1 ==> b.arr1[j] != b.arr1[k])
    && (forall j, k :: 0 <= j < k < b.cnt2 ==> b.arr2[j] != b.arr2[k])
    && (forall x :: On1(b, x) ==> P.Type(x) != 2 && Among(b.queue, b.qout, x))
    && (forall x :: On2(b, x) ==> P.Type(x) != 1 && Among(b.queue, b.qout, x))
    && (forall i :: 0 <= i < |b.faces| ==> Midway(P, b, b.faces[i]))
    && (forall x :: x in b.served ==> Outcome(P, b, x))
  }

  ghost predicate Kept(P: Params, b: Books) { Ids(P, b) && Line(P, b) && Desks(P, b) && Flights(P, b) }

  /** No other process than i shows the given kind of face. */
  ghost predicate Alone(b: Books, i: nat, kind: Face -> bool) {
    forall j :: 0 <= j < |b.faces| && j != i ==> !kind(b.faces[j])
  }

  function With(b: Books, i: nat, f: Face): Books
    requires i < |b.faces|
  {
    b.(faces := b.faces[i := f])
  }

  // ----- what each part of the invariant looks at -----

  lemma SameIds(P: Params, b: Books, b': Books)
    requires Ids(P, b) && b'.ctr == b.ctr && b'.who == b.who && |b'.faces| == |b.faces|
    requires forall j :: 0 <= j < |b.faces| ==>
      && (b'.faces[j].HasId() <==> b.faces[j].HasId()) && (b.faces[j].HasId() ==> b'.faces[j].id == b.faces[j].id)
      && (b'.faces[j].Writing? ==> b.faces[j].Writing? && b'.faces[j].id == b.faces[j].id)
    ensures Ids(P, b')
  {
  }

  lemma SameLine(P: Params, b: Books, b': Books)
    requires Line(P, b) && b'.ctr == b.ctr && b'.who == b.who && |b'.faces| == |b.faces|
    requires b'.queue == b.queue && b'.qin == b.qin
    requires forall j :: 0 <= j < |b.faces| ==>
      && (b'.faces[j].InLine? <==> b.faces[j].InLine?) && (b.faces[j].InLine? ==> b'.faces[j].id == b.faces[j].id)
      && (b'.faces[j].Putting? ==> b.faces[j].Putting? && b'.faces[j].id == b.faces[j].id)
    ensures Line(P, b')
  {
    hide Among;
    forall j | 0 <= j < b'.qin
      ensures b'.queue[j] < b'.ctr && b'.ctr <= |b'.who| && b'.who[b'.queue[j]] < |b'.faces| && b'.faces[b'.who[b'.queue[j]]].InLine?
    {
      assert b.queue[j] < b.ctr && b.faces[b.who[b.queue[j]]].InLine?;
    }
    forall i | 0 <= i < |b'.faces| && b'.faces[i].InLine? ensures Among(b'.queue, b'.qin, b'.faces[i].id) {
      assert b.faces[i].InLine?;
    }
  }

  lemma SameDesks(P: Params, b: Books, b': Books)
    requires Desks(P, b) && b'.qout == b.qout && b.qin <= b'.qin <= |b'.queue| && |b'.faces| == |b.faces|
    requires b.qin <= |b.queue| && (forall j :: 0 <= j < b.qin ==> b'.queue[j] == b.queue[j]) && b'.served == b.served
    requires forall x :: x in b'.booked ==> x in b.booked || Among(b.queue, b.qout, x)
    requires forall j :: 0 <= j < |b.faces| ==>
      && (b'.faces[j].Got? ==> b.faces[j] == b'.faces[j])
      && (b'.faces[j].Held() ==> b.faces[j].Held() && b'.faces[j].id == b.faces[j].id)
    ensures Desks(P, b')
  {
    AmongSame(b.queue, b'.queue, b.qout);
    hide Among;
  }

  /** Flights does not look at ids, queue positions or customers' faces. */
  lemma SameFlights(P: Params, b: Books, b': Books)
    requires Flights(P, b) && b'.arr1 == b.arr1 && b'.arr2 == b.arr2 && b'.cnt1 == b.cnt1 && b'.cnt2 == b.cnt2
    requires b'.left1 == b.left1 && b'.left2 == b.left2 && b'.booked == b.booked && b'.served == b.served
    requires b.qout <= b'.qout <= |b'.queue| && b.qout <= |b.queue| && (forall j :: 0 <= j < b.qout ==> b'.queue[j] == b.queue[j])
    requires |b'.faces| == |b.faces|
    requires forall j :: 0 <= j < |b.faces| ==> b'.faces[j] == b.faces[j] || Midway(P, b', b'.faces[j])
    ensures Flights(P, b')
  {
    assert forall x :: On1(b', x) <==> On1(b, x);
    assert forall x :: On2(b', x) <==> On2(b, x);
    AmongSame(b.queue, b'.queue, b.qout);
    AmongGrows(b'.queue, b.qout, b'.qout);
    hide Among;
    forall j | 0 <= j < |b.faces| ensures Midway(P, b', b'.faces[j]) {
      if b'.faces[j] == b.faces[j] { assert Midway(P, b, b.faces[j]); }
    }
    forall x | x in b'.served ensures Outcome(P, b', x) { assert Outcome(P, b, x); }
  }

  // ----- customers -----

  lemma ReadKeeps(P: Params, b: Books, i: nat)
    requires Kept(P, b) && i < P.N() && i < |b.faces| && b.faces[i].NoId?
    ensures Kept(P, With(b, i, Writing(b.ctr)))
  {
    hide Ids, Line, Desks, Flights;
    var b' := With(b, i, Writing(b.ctr));
    ReadIds(P, b, i);
    SameLine(P, b, b');
    SameDesksHere(P, b, b');
    SameFlightsHere(P, b, b');
  }

  lemma ReadIds(P: Params, b: Books, i: nat)
    requires Ids(P, b) && i < P.N() && i < |b.faces| && b.faces[i].NoId?
    ensures Ids(P, With(b, i, Writing(b.ctr)))
  {
  }

  lemma SameDesksHere(P: Params, b: Books, b': Books)
    requires Desks(P, b) && b'.qout == b.qout && b'.qin == b.qin && b'.queue == b.queue && |b'.faces| == |b.faces|
    requires b'.served == b.served && b'.booked == b.booked
    requires forall j :: 0 <= j < |b.faces| ==>
      && (b'.faces[j].Got? ==> b.faces[j] == b'.faces[j])
      && (b'.faces[j].Held() ==> b.faces[j].Held() && b'.faces[j].id == b.faces[j].id)
    ensures Desks(P, b')
  {
  }

  lemma SameFlightsHere(P: Params, b: Books, b': Books)
    requires Flights(P, b) && b'.arr1 == b.arr1 && b'.arr2 == b.arr2 && b'.cnt1 == b.cnt1 && b'.cnt2 == b.cnt2
    requires b'.left1 == b.left1 && b'.left2 == b.left2 && b'.booked == b.booked && b'.served == b.served
    requires b'.qout == b.qout && b'.queue == b.queue && |b'.faces| == |b.faces|
    requires forall j :: 0 <= j < |b.faces| ==> b'.faces[j] == b.faces[j] || !(b'.faces[j].Held())
    ensures Flights(P, b')
  {
    assert forall x :: On1(b', x) <==> On1(b, x);
    assert forall x :: On2(b', x) <==> On2(b, x);
    forall j | 0 <= j < |b.faces| ensures Midway(P, b', b'.faces[j]) {
      assert Midway(P, b, b.faces[j]);
    }
    forall x | x in b'.served ensures Outcome(P, b', x) { assert Outcome(P, b, x); }
  }

  lemma WriteKeeps(P: Params, b: Books, i: nat)
    requires Kept(P, b) && i < |b.faces| && b.faces[i].Writing? && Alone(b, i, (f: Face) => f.Writing?)
    ensures Kept(P, With(b, i, Named(b.ctr)).(ctr := b.ctr + 1, who := b.who + [i]))
  {
    var b' := With(b, i, Named(b.ctr)).(ctr := b.ctr + 1, who := b.who + [i]);
    WriteIds(P, b, i);
    WriteLine(P, b, i);
    hide Ids, Line, Desks, Flights, Alone;
    SameDesksHere(P, b, b');
    SameFlightsHere(P, b, b');
  }

  lemma WriteIds(P: Params, b: Books, i: nat)
    requires Ids(P, b) && i < |b.faces| && b.faces[i].Writing? && Alone(b, i, (f: Face) => f.Writing?)
    ensures Ids(P, With(b, i, Named(b.ctr)).(ctr := b.ctr + 1, who := b.who + [i]))
  {
  }

  lemma WriteLine(P: Params, b: Books, i: nat)
    requires Ids(P, b) && Line(P, b) && i < |b.faces| && b.faces[i].Writing?
    ensures Line(P, With(b, i, Named(b.ctr)).(ctr := b.ctr + 1, who := b.who + [i]))
  {
  }

  /** A customer with its id outside the queue finds room in the queue. */
  lemma RoomInLine(P: Params, b: Books, i: nat)
    requires Ids(P, b) && Line(P, b) && i < |b.faces| && b.faces[i].Named?
    ensures b.qin < P.N() && !Among(b.queue, b.qin, b.faces[i].id)
  {
    var x := b.faces[i].id;
    assert b.who[x] == i && !b.faces[i].InLine?;
    assert !Among(b.queue, b.qin, x);
    IdsFit(P, b);
    var all := Below(P.N());
    var line := b.queue[..b.qin] + [x];
    assert Distinct(line);
    assert forall y :: y in line ==> y in all by {
      forall y | y in line ensures y in all { if y != x { var j :| 0 <= j < b.qin && b.queue[j] == y; } }
    }
    DistinctSize(line, all);
  }

  ghost function Below(n: nat): (r: set<nat>)
    ensures |r| == n && forall x :: x in r <==> 0 <= x < n
  {
    if n == 0 then {} else Below(n - 1) + {n - 1}
  }

  /** No more ids than customers. */
  lemma IdsFit(P: Params, b: Books)
    requires Ids(P, b)
    ensures b.ctr <= P.N()
  {
    assert Distinct(b.who);
    assert forall y :: y in b.who ==> y in Below(P.N());
    DistinctSize(b.who, Below(P.N()));
  }

  lemma PutKeeps(P: Params, b: Books, i: nat)
    requires Kept(P, b) && i < |b.faces| && b.faces[i].Named? && Alone(b, i, (f: Face) => f.Putting?)
    ensures b.qin < |b.queue|
    ensures Kept(P, With(b, i, Putting(b.faces[i].id)).(queue := b.queue[b.qin := b.faces[i].id]))
  {
    assert b.qout <= b.qin && |b.queue| == P.N();
    hide Ids, Line, Desks, Flights, Alone;
    RoomInLine(P, b, i);
    var b' := With(b, i, Putting(b.faces[i].id)).(queue := b.queue[b.qin := b.faces[i].id]);
    assert forall j :: 0 <= j < b.qin ==> b'.queue[j] == b.queue[j];
    PutLine(P, b, i);
    SameIds(P, b, b');
    SameDesks(P, b, b');
    SameFlights(P, b, b');
  }

  lemma PutLine(P: Params, b: Books, i: nat)
    requires Line(P, b) && i < |b.faces| && b.faces[i].Named? && Alone(b, i, (f: Face) => f.Putting?) && b.qin < P.N()
    ensures Line(P, With(b, i, Putting(b.faces[i].id)).(queue := b.queue[b.qin := b.faces[i].id]))
  {
    hide Among;
    var b' := With(b, i, Putting(b.faces[i].id)).(queue := b.queue[b.qin := b.faces[i].id]);
    AmongSame(b.queue, b'.queue, b.qin);
    assert forall j :: 0 <= j < b.qin ==> b'.queue[j] == b.queue[j];
    forall k | 0 <= k < |b'.faces|
      ensures b'.faces[k].InLine? ==> Among(b'.queue, b'.qin, b'.faces[k].id)
      ensures b'.faces[k].Putting? ==> k == i
    {
      if k != i { assert b'.faces[k] == b.faces[k]; }
    }
  }

  lemma IncKeeps(P: Params, b: Books, i: nat)
    requires Kept(P, b) && i < |b.faces| && b.faces[i].Putting? && Alone(b, i, (f: Face) => f.Putting?)
    ensures Kept(P, With(b, i, InLine(b.faces[i].id)).(qin := b.qin + 1))
  {
    var b' := With(b, i, InLine(b.faces[i].id)).(qin := b.qin + 1);
    assert b.qout <= b.qin;
    hide Ids, Line, Desks, Flights, Alone;
    IncLine(P, b, i);
    SameIds(P, b, b');
    SameDesks(P, b, b');
    SameFlightsHere(P, b, b');
  }

  lemma IncLine(P: Params, b: Books, i: nat)
    requires Ids(P, b) && Line(P, b) && i < |b.faces| && b.faces[i].Putting? && Alone(b, i, (f: Face) => f.Putting?)
    ensures b.qin < |b.queue|
    ensures Line(P, With(b, i, InLine(b.faces[i].id)).(qin := b.qin + 1))
  {
    var x := b.faces[i].id;
    var b' := With(b, i, InLine(x)).(qin := b.qin + 1);
    assert b.who[x] == i && !b.faces[i].InLine?;
    AmongMore(b.queue, b.qin);
    hide Among;
  }

  // ----- clerks: the queue -----

  lemma GetKeeps(P: Params, b: Books, i: nat)
    requires Kept(P, b) && i < |b.faces| && b.faces[i].Idle? && b.qout < b.qin
    ensures b.qout < |b.queue| && Kept(P, With(b, i, Got(b.queue[b.qout])))
  {
    assert b.qout < |b.queue|;
    var b' := With(b, i, Got(b.queue[b.qout]));
    GetDesks(P, b, i);
    hide Ids, Line, Desks, Flights;
    SameIds(P, b, b');
    SameLine(P, b, b');
    SameFlightsHere(P, b, b');
  }

  lemma GetDesks(P: Params, b: Books, i: nat)
    requires Desks(P, b) && i < |b.faces| && b.faces[i].Idle? && b.qout < b.qin
    ensures Desks(P, With(b, i, Got(b.queue[b.qout])))
  {
  }

  lemma OutKeeps(P: Params, b: Books, i: nat)
    requires Kept(P, b) && i < |b.faces| && b.faces[i].Got? && Alone(b, i, (f: Face) => f.Got?)
    ensures Kept(P, With(b, i, Pending(b.faces[i].id)).(qout := b.qout + 1))
  {
    var x := b.faces[i].id;
    var b' := With(b, i, Pending(x)).(qout := b.qout + 1);
    OutDesks(P, b, i);
    OutMidway(P, b, x);
    assert Midway(P, b', b'.faces[i]);
    assert b.qout <= |b.queue|;
    hide Ids, Line, Desks, Flights, Alone, Midway;
    SameIds(P, b, b');
    SameLine(P, b, b');
    SameFlights(P, b, b');
  }

  lemma OutMidway(P: Params, b: Books, x: nat)
    requires Desks(P, b) && Flights(P, b) && b.qout <= |b.queue| && !Among(b.queue, b.qout, x)
    ensures !On1(b, x) && !On2(b, x) && x !in b.booked
  {
  }

  lemma OutDesks(P: Params, b: Books, i: nat)
    requires Line(P, b) && Desks(P, b) && i < |b.faces| && b.faces[i].Got? && Alone(b, i, (f: Face) => f.Got?)
    ensures b.qout < |b.queue| && !Among(b.queue, b.qout, b.faces[i].id)
    ensures Desks(P, With(b, i, Pending(b.faces[i].id)).(qout := b.qout + 1))
  {
    hide Line, Alone, Among, Desks;
    OutQueue(P, b, i);
    OutGot(P, b, i);
    OutHeld(P, b, i);
    OutPast(P, b, i);
    DesksFrom(P, With(b, i, Pending(b.faces[i].id)).(qout := b.qout + 1));
  }

  /** The clauses of Desks in three groups. */
  ghost predicate GotRight(b: Books) {
    forall i :: 0 <= i < |b.faces| && b.faces[i].Got? ==> b.qout < b.qin && b.qout < |b.queue| && b.faces[i].id == b.queue[b.qout]
  }

  ghost predicate HeldRight(b: Books) {
    && (forall i :: 0 <= i < |b.faces| && b.faces[i].Held() ==>
          Among(b.queue, b.qout, b.faces[i].id) && b.faces[i].id !in b.served)
    && (forall i, j :: 0 <= i < j < |b.faces| && b.faces[i].Held() && b.faces[j].Held() ==> b.faces[i].id != b.faces[j].id)
  }

  ghost predicate PastRight(b: Books) {
    && b.qout <= b.qin <= |b.queue|
    && (forall x :: x in b.served ==> Among(b.queue, b.qout, x))
    && (forall x :: x in b.booked ==> Among(b.queue, b.qout, x))
  }

  lemma DesksFrom(P: Params, b: Books)
    ensures Desks(P, b) <==> GotRight(b) && HeldRight(b) && PastRight(b)
  {
    hide Among;
  }

  lemma OutGot(P: Params, b: Books, i: nat)
    requires i < |b.faces| && b.faces[i].Got? && Alone(b, i, (f: Face) => f.Got?)
    ensures GotRight(With(b, i, Pending(b.faces[i].id)).(qout := b.qout + 1))
  {
  }

  lemma OutHeld(P: Params, b: Books, i: nat)
    requires Desks(P, b) && i < |b.faces| && b.faces[i].Got? && !Among(b.queue, b.qout, b.faces[i].id)
    requires forall x :: Among(b.queue, b.qout + 1, x) <==> Among(b.queue, b.qout, x) || x == b.faces[i].id
    ensures HeldRight(With(b, i, Pending(b.faces[i].id)).(qout := b.qout + 1))
  {
    hide Among;
    var x := b.faces[i].id;
    var b' := With(b, i, Pending(x)).(qout := b.qout + 1);
    forall j | 0 <= j < |b'.faces| && b'.faces[j].Held()
      ensures Among(b'.queue, b'.qout, b'.faces[j].id) && b'.faces[j].id !in b'.served
      ensures j != i ==> b'.faces[j].id != x
    {
    }
  }

  lemma OutPast(P: Params, b: Books, i: nat)
    requires Desks(P, b) && i < |b.faces| && b.faces[i].Got?
    requires forall x :: Among(b.queue, b.qout + 1, x) <==> Among(b.queue, b.qout, x) || x == b.faces[i].id
    ensures PastRight(With(b, i, Pending(b.faces[i].id)).(qout := b.qout + 1))
  {
    hide Among;
  }

  lemma OutQueue(P: Params, b: Books, i: nat)
    requires Line(P, b) && Desks(P, b) && i < |b.faces| && b.faces[i].Got?
    ensures b.qout < |b.queue| && !Among(b.queue, b.qout, b.faces[i].id)
    ensures forall x :: Among(b.queue, b.qout + 1, x) <==> Among(b.queue, b.qout, x) || x == b.faces[i].id
  {
    AmongMore(b.queue, b.qout);
  }

  // ----- clerks: the bookings -----

  /** The clerk is past the test and not yet done with flight 1. */
  predicate Uses1(f: Face) { f.Dec1? || f.Arr1? || f.Cnt1? }

  /** The clerk is past the test and not yet done with flight 2. */
  predicate Uses2(P: Params, f: Face) {
    f.Dec2? || f.Arr2? || f.Cnt2? || (Uses1(f) && P.Type(f.id) == 3)
  }

  /** From b to b' only customer y's booking changed, and no sold out flight came back. */
  ghost predicate OnlyFor(b: Books, b': Books, y: nat) {
    && (forall x :: x != y ==> (On1(b', x) <==> On1(b, x)))
    && (forall x :: x != y ==> (On2(b', x) <==> On2(b, x)))
    && (forall x :: x != y ==> (x in b'.booked <==> x in b.booked))
    && (b.left1 == 0 ==> b'.left1 == 0) && (b.left2 == 0 ==> b'.left2 == 0)
    && |b'.arr1| == |b.arr1| && |b'.arr2| == |b.arr2|
  }

  predicate Same1(b: Books, b': Books) { b'.left1 == b.left1 && b'.cnt1 == b.cnt1 && b'.arr1 == b.arr1 }

  predicate Same2(b: Books, b': Books) { b'.left2 == b.left2 && b'.cnt2 == b.cnt2 && b'.arr2 == b.arr2 }

  lemma OthersMidway(P: Params, b: Books, b': Books, y: nat, f: Face)
    requires Midway(P, b, f) && OnlyFor(b, b', y) && (f.Held() ==> f.id != y)
    requires Same1(b, b') || !Uses1(f)
    requires Same2(b, b') || !Uses2(P, f)
    ensures Midway(P, b', f)
  {
    hide On1, On2;
  }

  /** The booking steps: only process i moves, and its customer is y. */
  ghost predicate Booking(P: Params, b: Books, b': Books, i: nat) {
    && i < |b.faces| == |b'.faces| && b.faces[i].Held() && b'.faces == b.faces[i := b'.faces[i]] && b'.faces[i].Held()
    && b'.faces[i].id == b.faces[i].id
    && OnlyFor(b, b', b.faces[i].id)
    && b'.ctr == b.ctr && b'.who == b.who && b'.queue == b.queue && b'.qin == b.qin && b'.qout == b.qout
    && b'.served == b.served
    && (Same1(b, b') || Alone(b, i, (f: Face) => Uses1(f)))
    && (Same2(b, b') || Alone(b, i, (f: Face) => Uses2(P, f)))
  }

  /** The flight's own numbers stay sound. */
  ghost predicate Sound(P: Params, b: Books) {
    && |b.arr1| == P.seats1 && |b.arr2| == P.seats2 && b.cnt1 <= P.seats1 && b.cnt2 <= P.seats2
    && b.left1 >= 0 && b.left2 >= 0
    && (forall j, k :: 0 <= j < k < b.cnt1 ==> b.arr1[j] != b.arr1[k])
    && (forall j, k :: 0 <= j < k < b.cnt2 ==> b.arr2[j] != b.arr2[k])
  }

  lemma BookingKeeps(P: Params, b: Books, b': Books, i: nat)
    requires Kept(P, b) && |b'.faces| == |b.faces| && i < |b.faces|
    requires Booking(P, b, b', i) && Sound(P, b') && Midway(P, b', b'.faces[i])
    requires On1(b', b.faces[i].id) ==> P.Type(b.faces[i].id) != 2
    requires On2(b', b.faces[i].id) ==> P.Type(b.faces[i].id) != 1
    ensures Kept(P, b')
  {
    BookingFlights(P, b, b', i);
    BookingDesks(P, b, b', i);
    hide Ids, Line, Desks, Flights, Alone, Midway, OnlyFor, Sound, On1, On2;
    SameIds(P, b, b');
    SameLine(P, b, b');
  }

  lemma BookingDesks(P: Params, b: Books, b': Books, i: nat)
    requires Desks(P, b) && |b'.faces| == |b.faces| && i < |b.faces| && Booking(P, b, b', i)
    ensures Desks(P, b')
  {
    var y := b.faces[i].id;
    assert Among(b.queue, b.qout, y);
    assert forall x :: x in b'.booked ==> x in b.booked || x == y;
    hide Alone, On1, On2, Same1, Same2, OnlyFor;
    assert forall x :: x in b.booked ==> Among(b.queue, b.qout, x);
    SameDesks(P, b, b');
  }

  lemma BookingFlights(P: Params, b: Books, b': Books, i: nat)
    requires Desks(P, b) && Flights(P, b) && |b'.faces| == |b.faces| && i < |b.faces|
    requires Booking(P, b, b', i) && Sound(P, b') && Midway(P, b', b'.faces[i])
    requires On1(b', b.faces[i].id) ==> P.Type(b.faces[i].id) != 2
    requires On2(b', b.faces[i].id) ==> P.Type(b.faces[i].id) != 1
    ensures Flights(P, b')
  {
    BookingFaces(P, b, b', i);
    BookingServed(P, b, b', i);
    BookingLists(P, b, b', i);
    hide Desks, Midway, On1, On2, Booking, Outcome;
  }

  lemma BookingFaces(P: Params, b: Books, b': Books, i: nat)
    requires Desks(P, b) && Flights(P, b) && |b'.faces| == |b.faces| && i < |b.faces|
    requires Booking(P, b, b', i) && Midway(P, b', b'.faces[i])
    ensures forall j :: 0 <= j < |b'.faces| ==> Midway(P, b', b'.faces[j])
  {
    var y := b.faces[i].id;
    hide Midway, OnlyFor, Same1, Same2, On1, On2, Uses1, Uses2, Outcome;
    forall j | 0 <= j < |b'.faces| ensures Midway(P, b', b'.faces[j]) {
      if j != i {
        assert b'.faces[j] == b.faces[j] && Midway(P, b, b.faces[j]);
        assert b.faces[j].Held() ==> b.faces[j].id != y;
        OthersMidway(P, b, b', y, b.faces[j]);
      }
    }
  }

  lemma BookingServed(P: Params, b: Books, b': Books, i: nat)
    requires Desks(P, b) && Flights(P, b) && |b'.faces| == |b.faces| && i < |b.faces| && Booking(P, b, b', i)
    ensures forall x :: x in b'.served ==> Outcome(P, b', x)
  {
    var y := b.faces[i].id;
    hide Midway, Same1, Same2, On1, On2, Uses1, Uses2;
    assert y !in b.served;
    forall x | x in b'.served ensures Outcome(P, b', x) {
      assert x != y && Outcome(P, b, x);
    }
  }

  lemma BookingLists(P: Params, b: Books, b': Books, i: nat)
    requires Desks(P, b) && Flights(P, b) && |b'.faces| == |b.faces| && i < |b.faces| && Booking(P, b, b', i)
    requires On1(b', b.faces[i].id) ==> P.Type(b.faces[i].id) != 2
    requires On2(b', b.faces[i].id) ==> P.Type(b.faces[i].id) != 1
    ensures forall x :: On1(b', x) ==> P.Type(x) != 2 && Among(b.queue, b.qout, x)
    ensures forall x :: On2(b', x) ==> P.Type(x) != 1 && Among(b.queue, b.qout, x)
  {
    var y := b.faces[i].id;
    hide Midway, Same1, Same2, On1, On2, Uses1, Uses2, Outcome, Alone;
    assert Among(b.queue, b.qout, y);
  }

  /** The test under the locks. */
  function DecidedFace(P: Params, b: Books, x: nat): Face {
    var t := P.Type(x);
    if t == 1 then if b.left1 > 0 then Dec1(x) else Settled(x)
    else if t == 2 then if b.left2 > 0 then Dec2(x) else Settled(x)
    else if b.left1 > 0 && b.left2 > 0 then Dec1(x) else Settled(x)
  }

  lemma TestKeeps(P: Params, b: Books, i: nat)
    requires Kept(P, b) && P.Valid() && i < |b.faces| && b.faces[i].Pending?
    ensures Kept(P, With(b, i, DecidedFace(P, b, b.faces[i].id)))
  {
    var x := b.faces[i].id;
    var b' := With(b, i, DecidedFace(P, b, x));
    SoundNow(P, b);
    assert Midway(P, b, b.faces[i]);
    assert 1 <= P.Type(x) <= 3;
    assert b.left1 >= 0 && b.left2 >= 0;
    hide Ids, Line, Desks, Flights, Alone, Sound;
    DecidedMidway(P, b, b', x);
    BookingKeeps(P, b, b', i);
  }

  lemma DecidedMidway(P: Params, b: Books, b': Books, x: nat)
    requires b' == b.(faces := b'.faces) && Midway(P, b, Pending(x)) && b.left1 >= 0 && b.left2 >= 0 && 1 <= P.Type(x) <= 3
    ensures Midway(P, b', DecidedFace(P, b, x))
  {
  }

  lemma SoundNow(P: Params, b: Books)
    requires Flights(P, b)
    ensures Sound(P, b)
  {
  }

  lemma Dec1Keeps(P: Params, b: Books, i: nat)
    requires Kept(P, b) && i < |b.faces| && b.faces[i].Dec1? && Alone(b, i, (f: Face) => Uses1(f))
    requires b.left1 > 0 ==> b.cnt1 < P.seats1
    ensures Kept(P, With(b, i, Arr1(b.faces[i].id)).(left1 := b.left1 - 1, booked := b.booked + {b.faces[i].id}))
  {
    var x := b.faces[i].id;
    var b' := With(b, i, Arr1(x)).(left1 := b.left1 - 1, booked := b.booked + {x});
    assert Midway(P, b, b.faces[i]);
    SoundNow(P, b);
    hide Ids, Line, Desks, Flights, Alone;
    BookingKeeps(P, b, b', i);
  }

  lemma Arr1Keeps(P: Params, b: Books, i: nat)
    requires Kept(P, b) && i < |b.faces| && b.faces[i].Arr1? && Alone(b, i, (f: Face) => Uses1(f))
    ensures b.cnt1 < |b.arr1|
    ensures Kept(P, With(b, i, Cnt1(b.faces[i].id)).(arr1 := b.arr1[b.cnt1 := b.faces[i].id]))
  {
    var x := b.faces[i].id;
    assert Midway(P, b, b.faces[i]);
    var b' := With(b, i, Cnt1(x)).(arr1 := b.arr1[b.cnt1 := x]);
    SoundNow(P, b);
    hide Ids, Line, Desks, Flights, Alone;
    AmongSame(b.arr1, b'.arr1, b.cnt1);
    hide Among;
    BookingKeeps(P, b, b', i);
  }

  lemma Cnt1Keeps(P: Params, b: Books, i: nat)
    requires Kept(P, b) && P.Valid() && i < |b.faces| && b.faces[i].Cnt1? && Alone(b, i, (f: Face) => Uses1(f))
    ensures var x := b.faces[i].id;
      Kept(P, With(b, i, if P.Type(x) == 3 then Dec2(x) else Settled(x)).(cnt1 := b.cnt1 + 1))
  {
    var x := b.faces[i].id;
    assert Midway(P, b, b.faces[i]);
    var b' := With(b, i, if P.Type(x) == 3 then Dec2(x) else Settled(x)).(cnt1 := b.cnt1 + 1);
    SoundNow(P, b);
    hide Ids, Line, Desks, Flights, Alone;
    AmongMore(b.arr1, b.cnt1);
    assert forall j :: 0 <= j < b.cnt1 ==> b.arr1[j] != x;
    hide Among;
    BookingKeeps(P, b, b', i);
  }

  lemma Dec2Keeps(P: Params, b: Books, i: nat)
    requires Kept(P, b) && i < |b.faces| && b.faces[i].Dec2? && Alone(b, i, (f: Face) => Uses2(P, f))
    requires b.left2 > 0 ==> b.cnt2 < P.seats2
    ensures Kept(P, With(b, i, Arr2(b.faces[i].id)).(left2 := b.left2 - 1, booked := b.booked + {b.faces[i].id}))
  {
    var x := b.faces[i].id;
    var b' := With(b, i, Arr2(x)).(left2 := b.left2 - 1, booked := b.booked + {x});
    assert Midway(P, b, b.faces[i]);
    SoundNow(P, b);
    assert On1(b, x) ==> P.Type(x) != 2;
    hide Ids, Line, Desks, Flights, Alone;
    BookingKeeps(P, b, b', i);
  }

  lemma Arr2Keeps(P: Params, b: Books, i: nat)
    requires Kept(P, b) && i < |b.faces| && b.faces[i].Arr2? && Alone(b, i, (f: Face) => Uses2(P, f))
    ensures b.cnt2 < |b.arr2|
    ensures Kept(P, With(b, i, Cnt2(b.faces[i].id)).(arr2 := b.arr2[b.cnt2 := b.faces[i].id]))
  {
    var x := b.faces[i].id;
    assert Midway(P, b, b.faces[i]);
    var b' := With(b, i, Cnt2(x)).(arr2 := b.arr2[b.cnt2 := x]);
    SoundNow(P, b);
    assert On1(b, x) ==> P.Type(x) != 2;
    hide Ids, Line, Desks, Flights, Alone;
    AmongSame(b.arr2, b'.arr2, b.cnt2);
    hide Among;
    BookingKeeps(P, b, b', i);
  }

  lemma Cnt2Keeps(P: Params, b: Books, i: nat)
    requires Kept(P, b) && P.Valid() && i < |b.faces| && b.faces[i].Cnt2? && Alone(b, i, (f: Face) => Uses2(P, f))
    ensures Kept(P, With(b, i, Settled(b.faces[i].id)).(cnt2 := b.cnt2 + 1))
  {
    var x := b.faces[i].id;
    assert Midway(P, b, b.faces[i]);
    var b' := With(b, i, Settled(x)).(cnt2 := b.cnt2 + 1);
    SoundNow(P, b);
    assert On1(b, x) ==> P.Type(x) != 2;
    hide Ids, Line, Desks, Flights, Alone;
    AmongMore(b.arr2, b.cnt2);
    assert forall j :: 0 <= j < b.cnt2 ==> b.arr2[j] != x;
    hide Among;
    BookingKeeps(P, b, b', i);
  }

  // ----- clerks: the end of a round -----

  lemma ServeKeeps(P: Params, b: Books, i: nat)
    requires Kept(P, b) && i < |b.faces| && b.faces[i].Settled?
    ensures b.faces[i].id !in b.served
    ensures Kept(P, With(b, i, Idle).(served := b.served + {b.faces[i].id}))
  {
    var b' := With(b, i, Idle).(served := b.served + {b.faces[i].id});
    ServeDesks(P, b, i);
    ServeFlights(P, b, i);
    hide Ids, Line, Desks, Flights;
    SameIds(P, b, b');
    SameLine(P, b, b');
  }

  lemma ServeDesks(P: Params, b: Books, i: nat)
    requires Desks(P, b) && i < |b.faces| && b.faces[i].Settled?
    ensures b.faces[i].id !in b.served
    ensures Desks(P, With(b, i, Idle).(served := b.served + {b.faces[i].id}))
  {
    var b' := With(b, i, Idle).(served := b.served + {b.faces[i].id});
    forall j | 0 <= j < |b'.faces| && b'.faces[j].Held()
      ensures Among(b'.queue, b'.qout, b'.faces[j].id) && b'.faces[j].id !in b'.served
    {
      assert j != i && b'.faces[j] == b.faces[j];
    }
  }

  lemma ServeFlights(P: Params, b: Books, i: nat)
    requires Flights(P, b) && i < |b.faces| && b.faces[i].Settled?
    ensures Flights(P, With(b, i, Idle).(served := b.served + {b.faces[i].id}))
  {
    var b' := With(b, i, Idle).(served := b.served + {b.faces[i].id});
    assert forall x :: On1(b', x) <==> On1(b, x);
    assert forall x :: On2(b', x) <==> On2(b, x);
    assert Midway(P, b, b.faces[i]);
    assert forall x :: x in b'.served ==> Outcome(P, b, x);
    hide On1, On2;
    forall j | 0 <= j < |b.faces| ensures Midway(P, b', b'.faces[j]) { assert Midway(P, b, b.faces[j]); }
    forall x | x in b'.served ensures Outcome(P, b', x) { assert Outcome(P, b, x); }
  }
}
