/**
 * The semaphores of the air reservation programs by name: the main program creates them in order,
 * and the processes find them by a name, for the finished ones built from a printed id.
 */
module AirNames {
  import opened AirModel
  import opened AirBooks
  import opened AirProtocol
  import Numbers

  function NameOf(x: Sem): string {
    match x
    case F1 => "flight1CS"
    case F2 => "flight2CS"
    case Ctr => "custCounterCS"
    case Queue => "custQueueCS"
    case Clerk => "clerk"
    case Ready => "cust_ready"
    case Term => "custTerminated"
    case Fin(id) => Numbers.Name(id)
  }

  /** What the main program creates for n customers, in its order. */
  function Created(n: nat): (s: seq<Sem>)
    ensures |s| == 7 + n && s[..7] == [F1, F2, Ctr, Queue, Clerk, Ready, Term]
    ensures forall k :: 7 <= k < |s| ==> s[k] == Fin(k - 7)
  {
    [F1, F2, Ctr, Queue, Clerk, Ready, Term] + seq(n, id requires 0 <= id => Fin(id))
  }

  /** The search loop of get_semaphore_object_ID over one owner's semaphores. */
  method GetSemaphoreObjectId(semaphores: seq<Sem>, name: string) returns (i: int)
    ensures -1 <= i < |semaphores| && (i >= 0 ==> NameOf(semaphores[i]) == name)
    ensures forall j :: 0 <= j < (if i >= 0 then i else |semaphores|) ==> NameOf(semaphores[j]) != name
  {
    i := 0;
    while i < |semaphores|
      invariant 0 <= i <= |semaphores| && forall j :: 0 <= j < i ==> NameOf(semaphores[j]) != name
    {
      if NameOf(semaphores[i]) == name { return; }
      i := i + 1;
    }
    i := -1;
  }

  /** The search for x's name among n customers' semaphores ends at x. */
  ghost predicate Found(n: nat, x: Sem) {
    exists i :: 0 <= i < 7 + n && Created(n)[i] == x && NamedFirst(Created(n), i)
  }

  ghost predicate NamedFirst(s: seq<Sem>, i: nat)
    requires i < |s|
  {
    forall j :: 0 <= j < i ==> NameOf(s[j]) != NameOf(s[i])
  }

  /** Every semaphore is found under its name if and only if there are at most 100 customers. */
  lemma FoundIff(n: nat)
    ensures (forall x :: x in Created(n) ==> Found(n, x)) <==> n <= 100
  {
    if n <= 100 {
      forall x | x in Created(n) ensures Found(n, x) { AllFound(n, x); }
    } else {
      SomeLost(n);
    }
  }

  lemma AllFound(n: nat, x: Sem)
    requires n <= 100 && x in Created(n)
    ensures Found(n, x)
  {
    hide NameOf;
    var s := Created(n);
    var i :| 0 <= i < |s| && s[i] == x;
    forall j | 0 <= j < i ensures NameOf(s[j]) != NameOf(s[i]) { Differ(n, j, i); }
    assert NamedFirst(s, i);
  }

  lemma SomeLost(n: nat)
    requires n > 100
    ensures exists x :: x in Created(n) && !Found(n, x)
  {
    hide Numbers.Name;
    var s := Created(n);
    Numbers.NamesDistinctIff(101);
    var i: nat, j: nat :| i < j < 101 && Numbers.Name(i) == Numbers.Name(j);
    assert s[7 + j] == Fin(j) && s[7 + i] == Fin(i);
    assert forall k :: 0 <= k < 7 ==> s[k] == s[..7][k];
    forall k | 0 <= k < 7 + n && s[k] == Fin(j) ensures !NamedFirst(s, k) {
      assert k == 7 + j && NameOf(s[7 + i]) == NameOf(s[k]);
    }
    assert !Found(n, Fin(j));
  }

  lemma Differ(n: nat, j: nat, i: nat)
    requires n <= 100 && j < i < 7 + n
    ensures NameOf(Created(n)[j]) != NameOf(Created(n)[i])
  {
    var s := Created(n);
    if j >= 7 {
      Numbers.NamesDistinctIff(n);
      assert Numbers.Name(j - 7) != Numbers.Name(i - 7);
    } else if i >= 7 {
      assert s[..7][j] == s[j];
      FinishedApart(s[j], i - 7);
    } else {
      assert s[..7][j] == s[j] && s[..7][i] == s[i];
      assert |NameOf(s[j])| != |NameOf(s[i])| || NameOf(s[j])[4] != NameOf(s[i])[4] || NameOf(s[j])[6] != NameOf(s[i])[6];
    }
  }

  lemma FinishedApart(x: Sem, id: nat)
    requires !x.Fin?
    ensures NameOf(x) != Numbers.Name(id)
  {
    assert Numbers.Name(id)[..13] == "cust_finished";
    assert Numbers.Name(id)[1] == 'u' && Numbers.Name(id)[4] == '_' && Numbers.Name(id)[5] == 'f';
  }

  /**
   * For up to 100 customers, in every reachable state the name a process waits on or signals leads
   * to the very semaphore of the model.
   */
  lemma NamesAreFaithful(P: Params, steps: seq<Choice>, t: State, i: nat)
    requires P.Valid() && Runs(P, Init(P), steps, t) && i < |t.procs| && P.N() <= 100
    ensures var a := ActOf(P, t.procs[i]); (a.Wait? || a.Signal? ==> Found(P.N(), a.x))
  {
    InitInv(P);
    RunKeepsInv(P, Init(P), steps, t);
    FoundIff(P.N());
    var a := ActOf(P, t.procs[i]);
    if a.Wait? || a.Signal? {
      InCreated(P, t, i);
      assert a.x in Created(P.N());
    }
  }

  lemma InCreated(P: Params, s: State, i: nat)
    requires Inv(P, s) && i < |s.procs|
    ensures var a := ActOf(P, s.procs[i]); (a.Wait? || a.Signal? ==> a.x in Created(P.N()))
  {
    var c, a := Created(P.N()), ActOf(P, s.procs[i]);
    if (a.Wait? || a.Signal?) {
      if a.x.Fin? {
        IdInRange(P, s, i);
        assert c[7 + a.x.id] == a.x;
      } else {
        assert a.x in c[..7];
      }
    }
  }

  lemma IdInRange(P: Params, s: State, i: nat)
    requires Inv(P, s) && i < |s.procs| && s.procs[i].pc in {CWaitFin, KSigFin}
    ensures s.procs[i].id < P.N()
  {
    var b := BooksOf(s);
    IdsFit(P, b);
    assert b.faces[i] == FaceOf(s.procs[i]);
    assert b.faces[i].HasId() || b.faces[i].Held();
  }
}
