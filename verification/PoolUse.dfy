/** The pools hold exactly the nodes of the book: no block is lost and none is used twice. */
module PoolUse {
  import opened Types
  import opened Orders
  import opened Levels
  import opened Rings
  import opened RingRep
  import opened RingOps
  import opened RingEffects
  import opened RingBooks
  import opened Capacity

  ghost function Members(q: seq<nat>): set<nat> {
    set i | i in q
  }

  lemma {:induction false} CountMembers(q: seq<nat>)
    requires Distinct(q)
    ensures |Members(q)| == |q|
  {
    if q != [] {
      CountMembers(q[1..]);
      assert Members(q) == {q[0]} + Members(q[1..]);
      assert q[0] !in Members(q[1..]);
    }
  }

  /** The order nodes in the queues of these levels. */
  ghost function Queued<K>(r: Rep<K>, ring: seq<nat>): set<nat>
    requires forall l :: l in ring ==> l in r.queue
  {
    if ring == [] then {} else Members(r.queue[ring[0]]) + Queued(r, ring[1..])
  }

  lemma {:induction false} InQueued<K>(r: Rep<K>, ring: seq<nat>, i: nat)
    requires forall l :: l in ring ==> l in r.queue
    ensures i in Queued(r, ring) <==> exists l :: l in ring && i in r.queue[l]
  {
    if ring != [] {
      InQueued(r, ring[1..], i);
      assert forall l :: l in ring <==> l == ring[0] || l in ring[1..];
    }
  }

  ghost predicate QueuesApart<K>(r: Rep<K>, ls: set<nat>)
    requires forall l :: l in ls ==> l in r.queue
  {
    && (forall l :: l in ls ==> Distinct(r.queue[l]))
    && forall l, m, i :: l in ls && m in ls && i in r.queue[l] && i in r.queue[m] ==> l == m
  }

  ghost function LevelList<K>(r: Rep<K>, ring: seq<nat>): (ls: seq<Level<K>>)
    requires Readable(r) && forall l :: l in ring ==> l in r.liveLevels
  {
    seq(|ring|, k requires 0 <= k < |ring| => assert ring[k] in ring; LevelOf(r, ring[k]))
  }

  lemma {:induction false} CountQueued<K>(r: Rep<K>, ring: seq<nat>)
    requires Readable(r) && Distinct(ring) && (forall l :: l in ring ==> l in r.liveLevels)
    requires QueuesApart(r, r.liveLevels)
    ensures |Queued(r, ring)| == |Flatten(LevelList(r, ring))|
  {
    if ring != [] {
      var l, rest := ring[0], ring[1..];
      CountQueued(r, rest);
      CountMembers(r.queue[l]);
      assert LevelList(r, ring)[1..] == LevelList(r, rest);
      assert |LevelList(r, ring)[0].orders| == |r.queue[l]|;
      forall i | i in Members(r.queue[l])
        ensures i !in Queued(r, rest)
      {
        InQueued(r, rest, i);
      }
    }
  }

  /** A node stands in the queue of one level only. */
  lemma {:induction false} InvApart<K(!new)>(r: Rep<K>)
    requires Inv(r)
    ensures Bounded(r) && QueuesApart(r, r.liveLevels)
  {
    hide SideOk, OrdersInv, SlotsInv;
    forall l, m, i | l in r.liveLevels && m in r.liveLevels && i in r.queue[l] && i in r.queue[m]
      ensures l == m
    {
      assert LevelNodeOk(r, l) && QueueOk(r, l) && LevelNodeOk(r, m) && QueueOk(r, m);
    }
    forall l | l in r.liveLevels
      ensures Distinct(r.queue[l])
    {
      assert QueueOk(r, l);
    }
  }

  lemma {:induction false} QueuedSomewhere<K(!new)>(r: Rep<K>, i: nat)
    requires Inv(r)
    ensures Readable(r) && (i in r.liveOrders <==> exists l :: l in r.liveLevels && i in r.queue[l])
  {
    InvReadable(r);
    if i in r.liveOrders {
      var l, k, j := OrderPosition(r, i);
    }
    if l :| l in r.liveLevels && i in r.queue[l] {
      QueueFacts(r, l);
    }
  }

  lemma {:induction false} AllQueued<K(!new)>(r: Rep<K>)
    requires Inv(r)
    ensures Readable(r) && (forall l :: l in r.bids || l in r.asks ==> l in r.queue)
    ensures r.liveOrders == Queued(r, r.bids) + Queued(r, r.asks) && Queued(r, r.bids) !! Queued(r, r.asks)
  {
    hide Inv, IsRing;
    QueuedSomewhere(r, 0);
    InvApart(r);
    RingBook<K>.AllInRings(r);
    forall i: nat
      ensures i in r.liveOrders <==> i in Queued(r, r.bids) || i in Queued(r, r.asks)
      ensures !(i in Queued(r, r.bids) && i in Queued(r, r.asks))
    {
      QueuedSomewhere(r, i);
      InQueued(r, r.bids, i);
      InQueued(r, r.asks, i);
    }
  }

  lemma {:induction false} CountLevels<K(!new)>(r: Rep<K>)
    requires Inv(r)
    ensures |r.liveLevels| == |r.bids| + |r.asks|
  {
    hide Inv;
    RingBook<K>.AllInRings(r);
    CountMembers(r.bids);
    CountMembers(r.asks);
    assert r.liveLevels == Members(r.bids) + Members(r.asks);
    assert Members(r.bids) !! Members(r.asks);
  }

  /** One side takes a block for each order and for each price. */
  lemma {:induction false} SideUse<K(!new)>(r: Rep<K>, side: Side)
    requires Inv(r)
    ensures Readable(r) && (forall l :: l in r.Ring(side) ==> l in r.queue)
    ensures |Queued(r, r.Ring(side))| == |Flat(r, side)| && |r.Ring(side)| == |Prices(Flat(r, side))|
  {
    hide Inv, SideOk, Bounded, LevelsOk, Queued, Flatten;
    LevelsOfInv(r, side);
    SideFacts(r, side);
    InvApart(r);
    CountQueued(r, r.Ring(side));
    assert LevelList(r, r.Ring(side)) == SideLevels(r, side);
    LevelsArePrices(side, SideLevels(r, side));
    QueuesOf(r, side);
  }

  lemma {:induction false} QueuesOf<K(!new)>(r: Rep<K>, side: Side)
    requires Inv(r)
    ensures forall l :: l in r.Ring(side) ==> l in r.queue
  {
    SideFacts(r, side);
  }

  /** As many order nodes are in use as the book has orders, and as many level nodes as it has
      prices. */
  lemma {:induction false} PoolsHoldTheBook<K(!new)>(r: Rep<K>)
    requires Inv(r)
    ensures Readable(r)
    ensures |r.liveOrders| == OrderCount(BookOf(r)) && |r.liveLevels| == LevelCount(BookOf(r))
  {
    hide Inv, Readable, Queued, Flat;
    AllQueued(r);
    CountLevels(r);
    SideUse(r, Buy);
    SideUse(r, Sell);
  }

  /** A new order for which the book has room and an index entry of its own is accepted. */
  lemma {:induction false} AcceptsFresh<K(!new)>(b: RingBook<K>, d: Order<K>)
    requires b.Valid() && FreshKey(b.Contents(), d.key) && OwnsSlot(b.Contents(), d.side, d.price)
    requires RoomFor(b.Contents(), d.side, d.price, b.levelPool.store.Length, b.orderPool.store.Length)
    ensures b.Accepts(d)
  {
    hide Inv;
    var r := b.R();
    PoolsHoldTheBook(r);
    RingBook<K>.SlotMeans(r, d.side, d.price);
    RingBook<K>.KeyMeans(r, d.key);
    if r.priceIndex[Slot(d.price)] == NULL {
      FreeSlot(r, d.side, d.price);
    }
  }
}
