/**
 * The intrusive doubly linked lists of inc/queue.h: each macro as a method on the links, proved to
 * do to one sequence what its name says.
 */
module IntrusiveList {
  import opened Sequences

  /** An element carries its own links (prev_next_info). */
  class Node {
    const id: nat
    var next: Node?
    var prev: Node?

    constructor (id: nat)
      ensures this.id == id && next == null && prev == null
    {
      this.id := id;
      next, prev := null, null;
    }
  }

  ghost function Ones(e: Node?): set<Node> { if e == null then {} else {e} }

  function HeadOr(s: seq<Node>, n: Node?): Node? { if s == [] then n else s[0] }

  function EndOr(s: seq<Node>, p: Node?): Node? { if s == [] then p else s[|s| - 1] }

  /** The elements of s follow each other both ways, between p and n. */
  ghost predicate Chain(s: seq<Node>, p: Node?, n: Node?)
    reads s
  {
    s == [] || (s[0].prev == p && s[0].next == HeadOr(s[1..], n) && Chain(s[1..], s[0], n))
  }

  lemma {:induction false} ChainSplit(a: seq<Node>, b: seq<Node>, p: Node?, n: Node?)
    ensures Chain(a + b, p, n) <==> Chain(a, p, HeadOr(b, n)) && Chain(b, EndOr(a, p), n)
  {
    if a == [] {
      assert a + b == b;
    } else {
      assert (a + b)[1..] == a[1..] + b && (a + b)[0] == a[0];
      ChainSplit(a[1..], b, a[0], n);
      assert EndOr(a[1..], a[0]) == EndOr(a, p);
    }
  }

  lemma ChainOne(x: Node, p: Node?, n: Node?)
    ensures Chain([x], p, n) <==> x.next == n && x.prev == p
  {
    assert [x][1..] == [];
  }

  lemma DistinctParts<T>(a: seq<T>, b: seq<T>)
    ensures Distinct(a + b) <==> Distinct(a) && Distinct(b) && forall x :: x in a ==> x !in b
  {
    DistinctPartsOf(a, b);
    if Distinct(a) && Distinct(b) && (forall x :: x in a ==> x !in b) {
      forall i, j | 0 <= i < j < |a + b| ensures (a + b)[i] != (a + b)[j] {
        assert i < |a| ==> (a + b)[i] in a;
        assert j >= |a| ==> (a + b)[j] in b;
      }
    }
  }

  lemma DistinctPartsOf<T>(a: seq<T>, b: seq<T>)
    ensures Distinct(a + b) ==> Distinct(a) && Distinct(b) && forall x :: x in a ==> x !in b
  {
    var s := a + b;
    if Distinct(s) {
      forall i, j | 0 <= i < j < |a| ensures a[i] != a[j] { assert s[i] == a[i] && s[j] == a[j]; }
      forall i, j | 0 <= i < j < |b| ensures b[i] != b[j] { assert s[|a| + i] == b[i] && s[|a| + j] == b[j]; }
      forall i, j | 0 <= i < |a| && 0 <= j < |b| ensures a[i] != b[j] { assert s[i] == a[i] && s[|a| + j] == b[j]; }
    }
  }

  function Front(s: seq<Node>): seq<Node> { if s == [] then [] else s[..|s| - 1] }

  function Tail(s: seq<Node>): seq<Node> { if s == [] then [] else s[1..] }

  /** The part before a gap, but for its last element's next link. */
  ghost predicate LeftOf(a: seq<Node>)
    reads a
  {
    a == [] || (Chain(Front(a), null, a[|a| - 1]) && a[|a| - 1].prev == EndOr(Front(a), null))
  }

  /** The part after a gap, but for its first element's prev link. */
  ghost predicate RightOf(b: seq<Node>)
    reads b
  {
    b == [] || (Chain(Tail(b), b[0], null) && b[0].next == HeadOr(Tail(b), null))
  }

  lemma LeftChain(a: seq<Node>, m: Node?)
    ensures Chain(a, null, m) <==> LeftOf(a) && (a != [] ==> a[|a| - 1].next == m)
  {
    if a != [] {
      assert a == Front(a) + [a[|a| - 1]];
      ChainSplit(Front(a), [a[|a| - 1]], null, m);
      ChainOne(a[|a| - 1], EndOr(Front(a), null), m);
    }
  }

  lemma RightChain(b: seq<Node>, q: Node?)
    ensures Chain(b, q, null) <==> RightOf(b) && (b != [] ==> b[0].prev == q)
  {
  }

  /** The neighbours of a gap between a and b are elements of their own. */
  lemma Apart(a: seq<Node>, b: seq<Node>)
    requires Distinct(a + b)
    ensures a != [] ==> a[|a| - 1] !in Front(a) && a[|a| - 1] !in b && a[|a| - 1] in a && a[|a| - 1] in a + b
    ensures b != [] ==> b[0] !in Tail(b) && b[0] !in a && b[0] in b && b[0] in a + b
    ensures forall x :: x in Front(a) ==> x in a && x !in b
    ensures forall x :: x in Tail(b) ==> x in b && x !in a
    ensures forall x :: x in a + b <==> x in a || x in b
  {
    DistinctParts(a, b);
  }

  class List {
    var first: Node?
    var last: Node?
    /** The place LIST_FOREACH keeps the next element in, while the body runs. */
    var saved: Node?
    var size: int
    /** The elements in order: what the links, ends and size all describe. */
    ghost var nodes: seq<Node>

    ghost predicate Valid()
      reads this, nodes
    {
      && size == |nodes| && Distinct(nodes)
      && first == HeadOr(nodes, null) && last == EndOr(nodes, null)
      && Chain(nodes, null, null)
    }

    /** LIST_INIT */
    constructor ()
      ensures Valid() && nodes == []
    {
      first, last, saved, size := null, null, null, 0;
      nodes := [];
    }

    /** Opening the list between a and b. */
    lemma Opened(a: seq<Node>, b: seq<Node>)
      requires Valid() && nodes == a + b
      ensures LeftOf(a) && (a != [] ==> a[|a| - 1].next == HeadOr(b, null))
      ensures RightOf(b) && (b != [] ==> b[0].prev == EndOr(a, null))
    {
      ChainSplit(a, b, null, null);
      LeftChain(a, HeadOr(b, null));
      RightChain(b, EndOr(a, null));
    }

    /** LIST_INSERT_HEAD */
    method InsertHead(elm: Node)
      requires Valid() && elm !in nodes
      modifies this, nodes, elm
      ensures Valid() && nodes == [elm] + old(nodes) && saved == old(saved)
    {
      hide Chain, Distinct;
      ghost var b := nodes;
      assert [] + b == b && [] + [elm] + b == [elm] + b;
      Opened([], b);
      Apart([], b);
      elm.next := first;
      if elm.next != null {
        first.prev := elm;
      } else {
        last := elm;
      }
      first := elm;
      elm.prev := null;
      size := size + 1;
      nodes := [elm] + nodes;
      Inserted([], elm, b);
    }

    /** LIST_INSERT_TAIL */
    method InsertTail(elm: Node)
      requires Valid() && elm !in nodes
      modifies this, nodes, elm
      ensures Valid() && nodes == old(nodes) + [elm] && saved == old(saved)
    {
      hide Chain, Distinct;
      ghost var a := nodes;
      assert a + [] == a && a + [elm] + [] == a + [elm];
      Opened(a, []);
      Apart(a, []);
      elm.prev := last;
      if elm.prev != null {
        last.next := elm;
      } else {
        first := elm;
      }
      last := elm;
      elm.next := null;
      size := size + 1;
      nodes := nodes + [elm];
      Inserted(a, elm, []);
    }

    /** LIST_INSERT_AFTER: listelm ends the part a. */
    method InsertAfter(listelm: Node, elm: Node, ghost a: seq<Node>, ghost b: seq<Node>)
      requires Valid() && elm !in nodes && nodes == a + b && a != [] && a[|a| - 1] == listelm
      modifies this, nodes, elm
      ensures Valid() && nodes == a + [elm] + b && saved == old(saved)
    {
      hide Chain, Distinct;
      Opened(a, b);
      Apart(a, b);
      elm.next := listelm.next;
      if elm.next != null {
        listelm.next.prev := elm;
      }
      listelm.next := elm;
      elm.prev := listelm;
      if elm.next == null {
        last := elm;
      }
      size := size + 1;
      nodes := a + [elm] + b;
      Inserted(a, elm, b);
    }

    /** LIST_INSERT_BEFORE: listelm starts the part b. */
    method InsertBefore(listelm: Node, elm: Node, ghost a: seq<Node>, ghost b: seq<Node>)
      requires Valid() && elm !in nodes && nodes == a + b && b != [] && b[0] == listelm
      modifies this, nodes, elm
      ensures Valid() && nodes == a + [elm] + b && saved == old(saved)
    {
      hide Chain, Distinct;
      Opened(a, b);
      Apart(a, b);
      elm.prev := listelm.prev;
      elm.next := listelm;
      if listelm.prev != null {
        listelm.prev.next := elm;
      } else {
        first := elm;
      }
      listelm.prev := elm;
      size := size + 1;
      nodes := a + [elm] + b;
      Inserted(a, elm, b);
    }

    /** LIST_REMOVE of the element between the parts a and b. */
    method Remove(elm: Node, ghost a: seq<Node>, ghost b: seq<Node>)
      requires Valid() && nodes == a + [elm] + b
      modifies this, nodes
      ensures Valid() && nodes == a + b && saved == old(saved)
      ensures elm.next == null && elm.prev == null && elm !in nodes
    {
      hide Chain, Distinct, HeadOr, EndOr;
      AroundDistinct(a, elm, b);
      EndsAround(a, elm, b);
      Around(a, elm, b);
      BypassNext(elm, b);
      BypassPrev(elm, a);
      elm.next := null;
      elm.prev := null;
      size := size - 1;
      nodes := a + b;
      ChainSplit(a, b, null, null);
      EndsOfJoin(a, b);
    }

    /** What follows elm is linked back to what precedes it. */
    method BypassNext(elm: Node, ghost b: seq<Node>)
      requires Chain(b, elm, null) && Distinct(b) && elm.next == HeadOr(b, null) && elm !in b
      modifies this`last, Ones(elm.next)`prev
      ensures Chain(b, elm.prev, null) && last == if elm.next == null then elm.prev else old(last)
    {
      hide Chain, Distinct;
      RightChain(b, elm);
      assert [] + b == b;
      Apart([], b);
      if elm.next != null {
        elm.next.prev := elm.prev;
      } else {
        last := elm.prev;
      }
      RightChain(b, elm.prev);
    }

    /** What precedes elm is linked on to what follows it. */
    method BypassPrev(elm: Node, ghost a: seq<Node>)
      requires Chain(a, null, elm) && Distinct(a) && elm.prev == EndOr(a, null) && elm !in a
      modifies this`first, Ones(elm.prev)`next
      ensures Chain(a, null, elm.next) && first == if elm.prev == null then elm.next else old(first)
    {
      hide Chain, Distinct;
      LeftChain(a, elm);
      assert a + [] == a;
      Apart(a, []);
      if elm.prev != null {
        elm.prev.next := elm.next;
      } else {
        first := elm.next;
      }
      LeftChain(a, elm.next);
    }

    /** dequeue of kern/sched.c: the last element, if any. */
    method Dequeue() returns (elm: Node?)
      requires Valid()
      modifies this, nodes
      ensures Valid() && elm == EndOr(old(nodes), null) && nodes == Front(old(nodes))
    {
      elm := last;
      if elm != null {
        ghost var a := Front(nodes);
        assert nodes == a + [elm] + [] && a + [] == a;
        Remove(elm, a, []);
      }
    }

    lemma NextAt(k: nat)
      requires Valid()
      ensures k < |nodes| ==> nodes[k].next == At(nodes, k + 1)
    {
      if k < |nodes| { ChainNext(nodes, null, k); }
    }

    /** find_env_in_queue: LIST_FOREACH with a body that leaves the list alone. */
    method Find(id: nat) returns (elm: Node?, ghost k: nat)
      requires Valid()
      modifies this`saved
      ensures Valid() && k <= |nodes| && (forall i :: 0 <= i < k ==> nodes[i].id != id)
      ensures elm == At(nodes, k) && (elm != null ==> elm.id == id)
    {
      hide Chain, Distinct;
      k := 0;
      elm := first;
      NextAt(k);
      saved := if elm == null then null else elm.next;
      while saved != null || elm != null
        invariant Valid() && k <= |nodes| && elm == At(nodes, k) && saved == At(nodes, k + 1)
        invariant forall i :: 0 <= i < k ==> nodes[i].id != id
        decreases |nodes| - k
      {
        if elm.id == id { return; }
        elm := saved;
        k := k + 1;
        NextAt(k);
        saved := if elm == null then null else elm.next;
      }
    }
  }

  /** What the links around elm are. */
  lemma Around(a: seq<Node>, elm: Node, b: seq<Node>)
    requires Chain(a + [elm] + b, null, null)
    ensures Chain(a, null, elm) && Chain(b, elm, null)
    ensures elm.prev == EndOr(a, null) && elm.next == HeadOr(b, null)
  {
    hide Chain;
    ChainSplit(a + [elm], b, null, null);
    ChainSplit(a, [elm], null, HeadOr(b, null));
    ChainOne(elm, EndOr(a, null), HeadOr(b, null));
  }

  lemma AroundDistinct<T>(a: seq<T>, elm: T, b: seq<T>)
    requires Distinct(a + [elm] + b)
    ensures Distinct(a) && Distinct(b) && Distinct(a + b) && elm !in a && elm !in b
    ensures forall x :: x in a ==> x !in b
    ensures forall x :: x in a + [elm] + b <==> x in a || x == elm || x in b
    ensures forall x :: x in a + b <==> x in a || x in b
  {
    hide Distinct;
    DistinctParts(a + [elm], b);
    DistinctParts(a, [elm]);
    DistinctParts(a, b);
    assert elm in a + [elm];
  }

  lemma EndsAround(a: seq<Node>, elm: Node, b: seq<Node>)
    ensures HeadOr(a + [elm] + b, null) == HeadOr(a, elm) && EndOr(a + [elm] + b, null) == EndOr(b, elm)
    ensures EndOr(a, null) == null <==> a == []
    ensures HeadOr(b, null) == null <==> b == []
    ensures a != [] ==> EndOr(a, null) in a
    ensures b != [] ==> HeadOr(b, null) in b
  {
  }

  lemma EndsOfJoin(a: seq<Node>, b: seq<Node>)
    ensures HeadOr(a + b, null) == HeadOr(a, HeadOr(b, null)) && EndOr(a + b, null) == EndOr(b, EndOr(a, null))
    ensures forall x :: a != [] ==> HeadOr(a, x) == HeadOr(a, null)
    ensures forall x :: b != [] ==> EndOr(b, x) == EndOr(b, null)
    ensures forall x :: a == [] ==> HeadOr(a, x) == x
    ensures forall x :: b == [] ==> EndOr(b, x) == x
  {
  }

  lemma Inserted(a: seq<Node>, elm: Node, b: seq<Node>)
    requires LeftOf(a) && (a != [] ==> a[|a| - 1].next == elm)
    requires RightOf(b) && (b != [] ==> b[0].prev == elm)
    requires elm.prev == EndOr(a, null) && elm.next == HeadOr(b, null)
    requires Distinct(a + b) && elm !in a && elm !in b
    ensures Chain(a + [elm] + b, null, null) && Distinct(a + [elm] + b)
  {
    LeftChain(a, elm);
    RightChain(b, elm);
    ChainOne(elm, EndOr(a, null), HeadOr(b, null));
    ChainSplit(a, [elm], null, HeadOr(b, null));
    ChainSplit(a + [elm], b, null, null);
    DistinctParts(a, b);
    DistinctParts(a, [elm]);
    DistinctParts(a + [elm], b);
    DistinctOne(elm);
    hide Chain, Distinct;
  }

  lemma DistinctOne<T>(x: T)
    ensures Distinct([x])
  {
  }

  function At(s: seq<Node>, i: nat): Node? { if i < |s| then s[i] else null }

  lemma {:induction false} ChainNext(s: seq<Node>, p: Node?, i: nat)
    requires Chain(s, p, null) && i < |s|
    ensures s[i].next == At(s, i + 1)
  {
    if i > 0 { ChainNext(s[1..], s[0], i - 1); }
  }

  ghost predicate Disjoint(a: seq<Node>, b: seq<Node>) {
    forall i, j :: 0 <= i < |a| && 0 <= j < |b| ==> a[i] != b[j]
  }

  /** The body of such a loop: the first element of src goes to the head of dst. */
  method MoveFirst(src: List, dst: List, elm: Node)
    requires src != dst && src.Valid() && dst.Valid() && Disjoint(src.nodes, dst.nodes)
    requires src.nodes != [] && elm == src.nodes[0]
    modifies src, dst, src.nodes, dst.nodes
    ensures src.Valid() && dst.Valid() && src.saved == old(src.saved)
    ensures src.nodes == Tail(old(src.nodes)) && dst.nodes == [elm] + old(dst.nodes)
    ensures Disjoint(src.nodes, dst.nodes)
  {
    hide Chain, Distinct;
    ghost var b := Tail(src.nodes);
    FirstApart(src.nodes);
    src.Remove(elm, [], b);
    dst.InsertHead(elm);
  }

  lemma FirstApart(s: seq<Node>)
    requires Distinct(s) && s != []
    ensures s == [] + [s[0]] + Tail(s) && [] + Tail(s) == Tail(s) && s[0] !in Tail(s) && s[0] in s
    ensures forall x :: x in Tail(s) ==> x in s
  {
  }

  /**
   * LIST_FOREACH with a body that removes the current element and links it into another list, as
   * sched_run_all and sched_exit_all_ready_envs do: it meets each original element once, in order.
   */
  method MoveAll(src: List, dst: List) returns (ghost visited: seq<Node>)
    requires src != dst && src.Valid() && dst.Valid() && Disjoint(src.nodes, dst.nodes)
    modifies src, dst, src.nodes, dst.nodes
    ensures src.Valid() && dst.Valid() && src.nodes == [] && visited == old(src.nodes)
    ensures dst.nodes == Reverse(old(src.nodes)) + old(dst.nodes)
  {
    hide Chain, Distinct, Reverse, Disjoint, Tail, HeadOr, Moved;
    ghost var all, was := src.nodes, dst.nodes;
    visited := [];
    MoveStart(all, was);
    var elm := LoopStart(src);
    while src.saved != null || elm != null
      invariant src.Valid() && dst.Valid() && Disjoint(src.nodes, dst.nodes)
      invariant elm == HeadOr(src.nodes, null) && src.saved == HeadOr(Tail(src.nodes), null)
      invariant Moved(all, was, visited, src.nodes, dst.nodes)
      invariant Within(src.nodes, all + was) && Within(dst.nodes, all + was)
      decreases |src.nodes|
    {
      NotYet(src.nodes);
      MoveStep(all, was, visited, src.nodes, dst.nodes);
      MoveFirst(src, dst, elm);
      visited := visited + [elm];
      elm := LoopNext(src);
    }
    NotYet(src.nodes);
    MoveEnd(all, was, visited, src.nodes, dst.nodes);
  }

  /** Of all, visited are moved to was, leaving s and t. */
  ghost predicate Moved(all: seq<Node>, was: seq<Node>, visited: seq<Node>, s: seq<Node>, t: seq<Node>) {
    all == visited + s && t == Reverse(visited) + was
  }

  /** The start of LIST_FOREACH, its condition included. */
  method LoopStart(l: List) returns (elm: Node?)
    requires l.Valid()
    modifies l`saved
    ensures l.Valid() && elm == HeadOr(l.nodes, null) && l.saved == HeadOr(Tail(l.nodes), null)
  {
    NextIs(l);
    elm := l.first;
    l.saved := if elm == null then null else elm.next;
  }

  /** The step of LIST_FOREACH after a body that removed the element, and its condition. */
  method LoopNext(l: List) returns (elm: Node?)
    requires l.Valid() && l.saved == HeadOr(l.nodes, null)
    modifies l`saved
    ensures l.Valid() && elm == HeadOr(l.nodes, null) && l.saved == HeadOr(Tail(l.nodes), null)
  {
    NextIs(l);
    elm := l.saved;
    l.saved := if elm == null then null else elm.next;
  }

  /** The loop goes on exactly while elements are left. */
  lemma NotYet(s: seq<Node>)
    ensures HeadOr(s, null) != null || HeadOr(Tail(s), null) != null <==> s != []
    ensures s != [] ==> HeadOr(s, null) == s[0]
  {
  }

  lemma NextIs(l: List)
    requires l.Valid()
    ensures HeadOr(Tail(l.nodes), null) == if l.nodes == [] then null else l.nodes[0].next
  {
  }

  lemma MoveStart(all: seq<Node>, was: seq<Node>)
    ensures Moved(all, was, [], all, was) && Within(all, all + was) && Within(was, all + was)
  {
    forall i | 0 <= i < |all| ensures all[i] in all + was { assert (all + was)[i] == all[i]; }
    forall i | 0 <= i < |was| ensures was[i] in all + was { assert (all + was)[|all| + i] == was[i]; }
  }

  ghost predicate Within(s: seq<Node>, u: seq<Node>) { forall i :: 0 <= i < |s| ==> s[i] in u }

  lemma MoveStep(all: seq<Node>, was: seq<Node>, visited: seq<Node>, s: seq<Node>, t: seq<Node>)
    requires Moved(all, was, visited, s, t) && s != [] && Within(s, all + was) && Within(t, all + was)
    ensures Moved(all, was, visited + [s[0]], Tail(s), [s[0]] + t) && |Tail(s)| == |s| - 1
    ensures Within(Tail(s), all + was) && Within([s[0]] + t, all + was)
  {
    hide Reverse;
    ReverseMore(visited, s[0]);
  }

  lemma MoveEnd(all: seq<Node>, was: seq<Node>, visited: seq<Node>, s: seq<Node>, t: seq<Node>)
    requires Moved(all, was, visited, s, t) && s == []
    ensures visited == all && t == Reverse(all) + was
  {
    hide Reverse;
    assert visited + s == visited;
  }
}
