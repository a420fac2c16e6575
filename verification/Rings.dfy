/** Circular doubly linked rings whose links are pool indices.

    The source repeats one piece of pointer surgery for price levels and for the
    orders of a level. Here it is written once, over the objects of a pool, for a
    ring described by the sequence of its nodes read from the head. */
module Rings {

  const NULL := -1

  datatype Node<P> = Node(data: P, prev: int, next: int)

  function Succ(k: nat, n: nat): nat {
    if k + 1 == n then 0 else k + 1
  }

  function Pred(k: nat, n: nat): int {
    if k == 0 then n - 1 else k - 1
  }

  ghost predicate Linked<P>(nodes: seq<Node<P>>, ring: seq<nat>, k: nat)
    requires k < |ring|
  {
    && ring[k] < |nodes|
    && InBounds(nodes, nodes[ring[k]].prev) && InBounds(nodes, nodes[ring[k]].next)
    && nodes[ring[k]].next == ring[Succ(k, |ring|)]
    && nodes[ring[k]].prev == ring[Pred(k, |ring|)]
  }

  /** The nodes of `ring`, in that order, form one circular doubly linked list. */
  ghost predicate IsRing<P>(nodes: seq<Node<P>>, ring: seq<nat>) {
    && Distinct(ring)
    && (forall k :: 0 <= k < |ring| ==> Linked(nodes, ring, k))
  }

  ghost predicate Distinct<T>(s: seq<T>) {
    forall j, k :: 0 <= j < k < |s| ==> s[j] != s[k]
  }

  function InsertAt<T>(s: seq<T>, k: nat, x: T): (r: seq<T>)
    requires k <= |s|
  {
    s[..k] + [x] + s[k..]
  }

  function RemoveAt<T>(s: seq<T>, k: nat): (r: seq<T>)
    requires k < |s|
  {
    s[..k] + s[k + 1..]
  }

  predicate InBounds<P>(nodes: seq<Node<P>>, i: int) {
    0 <= i < |nodes|
  }

  /** Link `x` between `t` and the node before it. */
  function LinkBefore<P>(nodes: seq<Node<P>>, t: nat, x: nat): (r: seq<Node<P>>)
    requires t < |nodes| && x < |nodes| && InBounds(nodes, nodes[t].prev)
    ensures |r| == |nodes|
  {
    var p := nodes[t].prev;
    var a := nodes[x := nodes[x].(prev := p, next := t)];
    var b := a[p := a[p].(next := x)];
    b[t := b[t].(prev := x)]
  }

  /** Take `x` out of its ring and clear its links. */
  function Unlink<P>(nodes: seq<Node<P>>, x: nat): (r: seq<Node<P>>)
    requires x < |nodes| && InBounds(nodes, nodes[x].prev) && InBounds(nodes, nodes[x].next)
    ensures |r| == |nodes|
  {
    var a := nodes[nodes[x].prev := nodes[nodes[x].prev].(next := nodes[x].next)];
    var b := a[a[x].next := a[a[x].next].(prev := a[x].prev)];
    b[x := b[x].(prev := NULL, next := NULL)]
  }

  lemma {:induction false} Neighbours<P>(nodes: seq<Node<P>>, ring: seq<nat>, k: nat)
    requires IsRing(nodes, ring) && k < |ring|
    ensures ring[k] < |nodes| && nodes[ring[k]].prev in ring && nodes[ring[k]].next in ring
    ensures nodes[ring[k]].prev == ring[Pred(k, |ring|)] && nodes[ring[k]].next == ring[Succ(k, |ring|)]
  {
    assert Linked(nodes, ring, k);
  }

  lemma {:induction false} RotatedRing<P>(nodes: seq<Node<P>>, ring: seq<nat>)
    requires IsRing(nodes, ring) && ring != []
    ensures IsRing(nodes, ring[1..] + [ring[0]])
  {
    var r := ring[1..] + [ring[0]];
    forall k | 0 <= k < |r| ensures Linked(nodes, r, k) {
      assert Linked(nodes, ring, Succ(k, |r|));
    }
  }

  /** What stands at and around each position after an insertion. */
  lemma {:induction false} AroundInserted(ring: seq<nat>, k: nat, x: nat, j: nat)
    requires k < |ring| && j <= |ring|
    ensures var n, s := |ring|, InsertAt(ring, k, x); var i := if j < k then j else j - 1;
      && s[j] == (if j == k then x else ring[i])
      && s[Succ(j, n + 1)] == (if j == k then ring[k] else if i == Pred(k, n) then x else ring[Succ(i, n)])
      && s[Pred(j, n + 1)] == (if j == k then ring[Pred(k, n)] else if i == k then x else ring[Pred(i, n)])
  {
  }

  lemma {:induction false} LinksBefore<P>(nodes: seq<Node<P>>, t: nat, x: nat, i: nat)
    requires t < |nodes| && x < |nodes| && i < |nodes| && InBounds(nodes, nodes[t].prev) && x != t && x != nodes[t].prev
    ensures var r, p := LinkBefore(nodes, t, x), nodes[t].prev;
      if i == x then r[i].next == t && r[i].prev == p
      else r[i].next == (if i == p then x else nodes[i].next) && r[i].prev == (if i == t then x else nodes[i].prev)
  {
  }

  lemma {:induction false} LinkedAfterInsert<P>(nodes: seq<Node<P>>, ring: seq<nat>, k: nat, x: nat, j: nat)
    requires IsRing(nodes, ring) && k < |ring| && x < |nodes| && x !in ring && j <= |ring|
    ensures Linked(nodes, ring, k)
    ensures Linked(LinkBefore(nodes, ring[k], x), InsertAt(ring, k, x), j)
  {
    hide LinkBefore, InsertAt;
    var n := |ring|;
    assert Linked(nodes, ring, k) && Linked(nodes, ring, Pred(k, n));
    AroundInserted(ring, k, x, j);
    LengthInserted(ring, k, x);
    if j == k {
      LinksBefore(nodes, ring[k], x, x);
    } else {
      var i := if j < k then j else j - 1;
      assert Linked(nodes, ring, i) && Linked(nodes, ring, Succ(i, n)) && Linked(nodes, ring, Pred(i, n));
      LinksBefore(nodes, ring[k], x, ring[i]);
    }
  }

  lemma {:induction false} LengthInserted(ring: seq<nat>, k: nat, x: nat)
    requires k <= |ring|
    ensures |InsertAt(ring, k, x)| == |ring| + 1
  {
  }

  /** Linking before the node at position k puts the new node at position k; before
      the head (k = 0) that is also the place after the last node. */
  lemma {:induction false} LinkedBefore<P>(nodes: seq<Node<P>>, ring: seq<nat>, k: nat, x: nat)
    requires IsRing(nodes, ring) && k < |ring| && x < |nodes| && x !in ring
    ensures Linked(nodes, ring, k)
    ensures IsRing(LinkBefore(nodes, ring[k], x), InsertAt(ring, k, x))
    ensures k == 0 ==> IsRing(LinkBefore(nodes, ring[k], x), ring + [x])
    ensures Relinked(nodes, LinkBefore(nodes, ring[k], x), ring + [x])
  {
    assert Linked(nodes, ring, k) && Linked(nodes, ring, Pred(k, |ring|));
    var r, s := LinkBefore(nodes, ring[k], x), InsertAt(ring, k, x);
    forall j | 0 <= j < |s|
      ensures Linked(r, s, j)
    {
      LinkedAfterInsert(nodes, ring, k, x, j);
    }
    if k == 0 {
      RotatedRing(r, s);
      assert s[1..] + [s[0]] == ring + [x];
    }
  }

  lemma {:induction false} LinkedAfterUnlink<P>(nodes: seq<Node<P>>, ring: seq<nat>, k: nat, j: nat)
    requires IsRing(nodes, ring) && k < |ring| && j < |ring| - 1
    ensures Linked(nodes, ring, k)
    ensures Linked(Unlink(nodes, ring[k]), RemoveAt(ring, k), j)
  {
    var n, s := |ring|, RemoveAt(ring, k);
    var i := if j < k then j else j + 1;
    var x, p, q := ring[k], ring[Pred(k, n)], ring[Succ(k, n)];
    assert Linked(nodes, ring, k) && Linked(nodes, ring, Pred(k, n)) && Linked(nodes, ring, Succ(k, n));
    assert Linked(nodes, ring, i) && s[j] == ring[i] != x;
    assert i != Pred(k, n) ==> ring[i] != p;
    assert i != Succ(k, n) ==> ring[i] != q;
    assert s[Succ(j, n - 1)] == if i == Pred(k, n) then q else ring[Succ(i, n)];
    assert s[Pred(j, n - 1)] == if i == Succ(k, n) then p else ring[Pred(i, n)];
  }

  lemma {:induction false} UnlinkedFrom<P>(nodes: seq<Node<P>>, ring: seq<nat>, k: nat)
    requires IsRing(nodes, ring) && k < |ring|
    ensures Linked(nodes, ring, k)
    ensures IsRing(Unlink(nodes, ring[k]), RemoveAt(ring, k))
    ensures Relinked(nodes, Unlink(nodes, ring[k]), ring)
  {
    assert Linked(nodes, ring, k) && Linked(nodes, ring, Pred(k, |ring|)) && Linked(nodes, ring, Succ(k, |ring|));
    var r, s := Unlink(nodes, ring[k]), RemoveAt(ring, k);
    forall j | 0 <= j < |s|
      ensures Linked(r, s, j)
    {
      LinkedAfterUnlink(nodes, ring, k, j);
    }
  }

  predicate SameLinks<P>(a: Node<P>, b: Node<P>) {
    a.prev == b.prev && a.next == b.next
  }

  /** `b` is `a` with other links on some of the nodes `touched`. */
  ghost predicate Relinked<P>(a: seq<Node<P>>, b: seq<Node<P>>, touched: seq<nat>) {
    && |b| == |a|
    && (forall i :: 0 <= i < |a| ==> b[i].data == a[i].data)
    && (forall i :: 0 <= i < |a| && i !in touched ==> SameLinks(a[i], b[i]))
  }

  /** A ring survives any change that keeps the links of its own nodes. */
  lemma {:induction false} RingFrame<P>(nodes: seq<Node<P>>, after: seq<Node<P>>, ring: seq<nat>)
    requires IsRing(nodes, ring) && |nodes| <= |after|
    requires forall x :: x in ring && x < |nodes| ==> SameLinks(nodes[x], after[x])
    ensures IsRing(after, ring)
  {
    forall k | 0 <= k < |ring|
      ensures Linked(after, ring, k)
    {
      assert Linked(nodes, ring, k);
    }
  }
}
