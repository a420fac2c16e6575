/** The pointer surgery itself, write by write, on nodes that live in a pool. */
module RingPools {
  import opened Rings
  import opened MemPools

  ghost predicate LivePointer<P>(pool: MemPool<Node<P>>, i: int)
    reads pool, pool.store
  {
    0 <= i < |pool.items| && i in pool.live
  }

  method SetPrev<P>(pool: MemPool<Node<P>>, i: nat, p: int)
    requires pool.Valid() && i in pool.live
    modifies pool.store, pool`items
    ensures pool.Valid() && i < |old(pool.items)|
    ensures pool.items == old(pool.items)[i := old(pool.items)[i].(prev := p)]
  {
    pool.Put(i, pool.At(i).(prev := p));
  }

  method SetNext<P>(pool: MemPool<Node<P>>, i: nat, p: int)
    requires pool.Valid() && i in pool.live
    modifies pool.store, pool`items
    ensures pool.Valid() && i < |old(pool.items)|
    ensures pool.items == old(pool.items)[i := old(pool.items)[i].(next := p)]
  {
    pool.Put(i, pool.At(i).(next := p));
  }

  /** prev of x, next of x, next of the node before t, prev of t. */
  method LinkIn<P>(pool: MemPool<Node<P>>, t: nat, x: nat)
    requires pool.Valid() && t in pool.live && x in pool.live && LivePointer(pool, pool.items[t].prev)
    requires x != t && pool.items[t].prev != x
    modifies pool.store, pool`items
    ensures pool.Valid() && t < |old(pool.items)| && x < |old(pool.items)|
      && InBounds(old(pool.items), old(pool.items)[t].prev)
    ensures pool.items == LinkBefore(old(pool.items), t, x)
  {
    var p := pool.At(t).prev;
    SetPrev(pool, x, p);
    SetNext(pool, x, t);
    SetNext(pool, p, x);
    SetPrev(pool, t, x);
  }

  /** The same ring in the order in which a queue is written: next of the node before t, prev
      of x, next of x, prev of t. */
  method LinkInQueue<P>(pool: MemPool<Node<P>>, t: nat, x: nat)
    requires pool.Valid() && t in pool.live && x in pool.live && LivePointer(pool, pool.items[t].prev)
    requires x != t && pool.items[t].prev != x
    modifies pool.store, pool`items
    ensures pool.Valid() && t < |old(pool.items)| && x < |old(pool.items)|
      && InBounds(old(pool.items), old(pool.items)[t].prev)
    ensures pool.items == LinkBefore(old(pool.items), t, x)
  {
    SetNext(pool, pool.At(t).prev, x);
    SetPrev(pool, x, pool.At(t).prev);
    SetNext(pool, x, t);
    SetPrev(pool, t, x);
  }

  /** The same ring, written from the node before: t is the last node, b the first. */
  method LinkAfter<P>(pool: MemPool<Node<P>>, t: nat, x: nat, ghost b: nat)
    requires pool.Valid() && t in pool.live && x in pool.live && b in pool.live
    requires x != t && x != b && pool.items[t].next == b && pool.items[b].prev == t
    modifies pool.store, pool`items
    ensures pool.Valid() && b < |old(pool.items)| && x < |old(pool.items)|
      && InBounds(old(pool.items), old(pool.items)[b].prev)
    ensures pool.items == LinkBefore(old(pool.items), b, x)
  {
    SetPrev(pool, x, t);
    SetPrev(pool, pool.At(t).next, x);
    SetNext(pool, x, pool.At(t).next);
    SetNext(pool, t, x);
  }

  method UnlinkFrom<P>(pool: MemPool<Node<P>>, x: nat)
    requires pool.Valid() && x in pool.live
    requires LivePointer(pool, pool.items[x].prev) && LivePointer(pool, pool.items[x].next)
    requires pool.items[x].prev != x
    modifies pool.store, pool`items
    ensures pool.Valid() && x < |old(pool.items)|
    ensures InBounds(old(pool.items), old(pool.items)[x].prev) && InBounds(old(pool.items), old(pool.items)[x].next)
    ensures pool.items == Unlink(old(pool.items), x)
  {
    SetNext(pool, pool.At(x).prev, pool.At(x).next);
    SetPrev(pool, pool.At(x).next, pool.At(x).prev);
    SetPrev(pool, x, NULL);
    SetNext(pool, x, NULL);
  }
}
