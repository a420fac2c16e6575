/** The five changes the source makes to a linked book, each as a relation between the
    representation before (r) and after (s); each keeps the invariant. */
module RingOps {
  import opened Types
  import opened Orders
  import opened Rings
  import opened RingRep

  lemma {:induction false} InRemoveAt<T>(s: seq<T>, j: nat, x: T)
    requires j < |s| && Distinct(s)
    ensures x in RemoveAt(s, j) <==> x in s && x != s[j]
  {
  }

  /** `b` is `a` with node `x` filled in with `d` and nodes of `ring` relinked. */
  ghost predicate Joined<P>(a: seq<Node<P>>, b: seq<Node<P>>, x: nat, d: P, ring: seq<nat>) {
    && |b| == |a| && x < |a| && b[x].data == d
    && (forall i :: 0 <= i < |a| && i != x ==> b[i].data == a[i].data)
    && (forall i :: 0 <= i < |a| && i != x && i !in ring ==> SameLinks(a[i], b[i]))
  }

  /** Filling in a free node and linking it before position k of a ring. */
  lemma {:induction false} JoinRing<P>(a: seq<Node<P>>, n: Node<P>, x: nat, ring: seq<nat>, k: nat)
    requires IsRing(a, ring) && k < |ring| && x < |a| && x !in ring
    ensures Linked(a[x := n], ring, k)
    ensures var b := LinkBefore(a[x := n], ring[k], x);
      && IsRing(b, InsertAt(ring, k, x))
      && (k == 0 ==> IsRing(b, ring + [x]))
      && Joined(a, b, x, n.data, ring)
  {
    RingFrame(a, a[x := n], ring);
    LinkedBefore(a[x := n], ring, k, x);
  }

  /** What a method has to know before it links node `x`, just filled in, into a ring. */
  lemma {:induction false} ReadyToJoin<P>(a: seq<Node<P>>, c: seq<Node<P>>, x: nat, ring: seq<nat>, k: nat,
                                          live: set<nat>)
    requires IsRing(a, ring) && k < |ring| && x < |a| == |c| && x !in live && c == a[x := c[x]]
    requires forall i :: i in ring ==> i in live
    ensures var t := ring[k];
      && t < |c| && t in live && InBounds(c, c[t].prev) && c[t].prev in live
      && c[t].prev == ring[Pred(k, |ring|)] && c[c[t].prev].next == t
      && IsRing(LinkBefore(c, t, x), InsertAt(ring, k, x))
      && (k == 0 ==> IsRing(LinkBefore(c, t, x), ring + [x]))
      && Joined(a, LinkBefore(c, t, x), x, c[x].data, ring)
  {
    Neighbours(a, ring, k);
    Neighbours(a, ring, Pred(k, |ring|));
    JoinRing(a, c[x], x, ring, k);
  }

  ghost predicate SameSide<K>(r: Rep<K>, s: Rep<K>, side: Side) {
    s.Ring(side) == r.Ring(side) && s.Head(side) == r.Head(side)
  }

  ghost predicate SameLevels<K>(r: Rep<K>, s: Rep<K>) {
    && SameSide(r, s, Buy) && SameSide(r, s, Sell)
    && s.liveLevels == r.liveLevels && s.priceIndex == r.priceIndex
  }

  // ----- an order joins the queue of an existing level

  ghost predicate Appended<K>(r: Rep<K>, s: Rep<K>, l: nat, o: nat, d: Order<K>)
    requires Bounded(r)
  {
    && l in r.liveLevels && o !in r.liveOrders && d.key !in r.index
    && d.side == r.levels[l].data.side && d.price == r.levels[l].data.price
    && SameLevels(r, s) && s.levels == r.levels
    && s.queue == r.queue[l := r.queue[l] + [o]]
    && s.liveOrders == r.liveOrders + {o} && s.index == r.index[d.key := o]
    && IsRing(s.orders, r.queue[l] + [o]) && Joined(r.orders, s.orders, o, d, r.queue[l])
  }

  /** Order node `o` is filled in and live, everything else is as in `r`. */
  ghost predicate OrderPrepared<K(!new)>(r: Rep<K>, c: Rep<K>, o: nat, d: Order<K>) {
    && Inv(r) && o < |r.orders| && o !in r.liveOrders && d.key !in r.index
    && c == r.(orders := r.orders[o := Node(d, NULL, NULL)], liveOrders := r.liveOrders + {o})
  }

  lemma {:induction false} ReadyToAppend<K(!new)>(r: Rep<K>, c: Rep<K>, l: nat, o: nat, d: Order<K>)
    requires OrderPrepared(r, c, o, d) && l in r.liveLevels
    ensures l < |c.levels| && l in c.queue && c.queue[l] == r.queue[l] != [] && c.levels[l].data.first == c.queue[l][0]
    ensures var t := c.queue[l][0];
      && t < |c.orders| && t in c.liveOrders && t != o && o < |c.orders| && o in c.liveOrders
      && InBounds(c.orders, c.orders[t].prev) && c.orders[t].prev in c.liveOrders && c.orders[t].prev != o
      && IsRing(LinkBefore(c.orders, t, o), c.queue[l] + [o])
      && Joined(r.orders, LinkBefore(c.orders, t, o), o, d, c.queue[l])
  {
    assert QueueOk(r, l);
    hide LinkBefore, Joined, LevelsInv, SideOk, OrdersInv, SlotsInv;
    ReadyToJoin(r.orders, c.orders, o, r.queue[l], 0, r.liveOrders);
    assert c.orders[r.queue[l][0]].prev in r.liveOrders;
  }

  lemma {:induction false} AppendedFrom<K(!new)>(r: Rep<K>, c: Rep<K>, s: Rep<K>, l: nat, o: nat, d: Order<K>)
    requires OrderPrepared(r, c, o, d) && l in r.liveLevels && l < |r.levels|
    requires d.side == r.levels[l].data.side && d.price == r.levels[l].data.price
    requires l in c.queue && c.queue[l] != [] && c.queue[l][0] < |c.orders|
    requires InBounds(c.orders, c.orders[c.queue[l][0]].prev)
    requires s == c.(orders := LinkBefore(c.orders, c.queue[l][0], o),
                     index := c.index[d.key := o], queue := c.queue[l := c.queue[l] + [o]])
    ensures Bounded(r) && Appended(r, s, l, o, d)
  {
    hide IsRing, Joined, LinkBefore, LevelsInv, SideOk, OrdersInv, SlotsInv;
    ReadyToAppend(r, c, l, o, d);
  }

  lemma {:induction false} AppendedLocal<K(!new)>(r: Rep<K>, s: Rep<K>, l: nat, o: nat, d: Order<K>)
    requires Bounded(r) && Appended(r, s, l, o, d) && LevelNodeOk(r, l) && QueueOk(r, l)
    ensures Bounded(s) && Local(r, s, Spot(Slot(d.price), l, o, d.key))
  {
    hide IsRing;
  }

  lemma {:induction false} AppendedSpot<K(!new)>(r: Rep<K>, s: Rep<K>, l: nat, o: nat, d: Order<K>)
    requires Bounded(r) && Bounded(s) && Appended(r, s, l, o, d) && LevelNodeOk(r, l) && QueueOk(r, l) && OrdersInv(r)
    ensures SpotOk(s, Spot(Slot(d.price), l, o, d.key))
  {
    hide IsRing;
    forall i | i in s.liveOrders && Slot(s.orders[i].data.price) == Slot(d.price)
      ensures OrderNodeOk(s, i)
    {
      assert i != o ==> OrderNodeOk(r, i);
    }
  }

  /** A change that keeps the level rings, and their sides and prices, keeps both sides. */
  ghost predicate SidesKept<K>(r: Rep<K>, s: Rep<K>) {
    && SameLevels(r, s) && |s.levels| == |r.levels|
    && forall l: nat :: l < |r.levels| ==> (
        SameLinks(r.levels[l], s.levels[l]) && s.levels[l].data.(first := 0) == r.levels[l].data.(first := 0))
  }

  lemma {:induction false} KeptSides<K>(r: Rep<K>, s: Rep<K>)
    requires Bounded(r) && Bounded(s) && SideOk(r, Buy) && SideOk(r, Sell) && SidesKept(r, s)
    ensures SideOk(s, Buy) && SideOk(s, Sell)
  {
    hide IsRing, Descends;
    SideFrame(r, s, Buy);
    SideFrame(r, s, Sell);
  }

  lemma {:induction false} AppendedInv<K(!new)>(r: Rep<K>, s: Rep<K>, l: nat, o: nat, d: Order<K>)
    requires Inv(r) && Appended(r, s, l, o, d)
    ensures Inv(s)
  {
    hide IsRing, SpotOk, Local, SlotsInv, SideOk;
    assert LevelNodeOk(r, l) && QueueOk(r, l);
    AppendedLocal(r, s, l, o, d);
    AppendedSpot(r, s, l, o, d);
    KeptSides(r, s);
    InvOfLocal(r, s, Spot(Slot(d.price), l, o, d.key));
  }

  // ----- an order opens a new level

  ghost predicate Opened<K>(r: Rep<K>, s: Rep<K>, l: nat, o: nat, k: nat, d: Order<K>)
    requires Bounded(r)
  {
    var ring := r.Ring(d.side);
    && l !in r.liveLevels && o !in r.liveOrders && d.key !in r.index
    && r.priceIndex[Slot(d.price)] == NULL
    && k <= |ring|
    && (forall j :: 0 <= j < k ==> Better(d.side, r.Price(ring[j]), d.price))
    && (forall j :: k <= j < |ring| ==> Better(d.side, d.price, r.Price(ring[j])))
    && SameSide(r, s, Opposite(d.side))
    && s.Ring(d.side) == InsertAt(ring, k, l) && s.Head(d.side) == s.Ring(d.side)[0]
    && s.queue == r.queue[l := [o]] && s.priceIndex == r.priceIndex[Slot(d.price) := l]
    && s.liveLevels == r.liveLevels + {l} && s.liveOrders == r.liveOrders + {o}
    && s.index == r.index[d.key := o]
    && IsRing(s.levels, s.Ring(d.side)) && Joined(r.levels, s.levels, l, LevelData(d.side, d.price, o), ring)
    && IsRing(s.orders, [o]) && Joined(r.orders, s.orders, o, d, [])
  }

  /** Half way: level node `l` is in its ring at position `k`, no index knows it yet. */
  ghost predicate LevelLinked<K>(r: Rep<K>, m: Rep<K>, l: nat, o: nat, k: nat, side: Side, price: nat) {
    var ring := r.Ring(side);
    && k <= |ring| && m.Ring(side) == InsertAt(ring, k, l) && m.Head(side) == m.Ring(side)[0]
    && (forall j :: 0 <= j < k ==> Better(side, r.Price(ring[j]), price))
    && (forall j :: k <= j < |ring| ==> Better(side, price, r.Price(ring[j])))
    && SameSide(r, m, Opposite(side))
    && IsRing(m.levels, m.Ring(side))
    && Joined(r.levels, m.levels, l, LevelData(side, price, o), ring)
  }

  /** Level node `l` is filled in for order `o`; the rings are still those of `r`. */
  ghost predicate LevelPrepared<K>(r: Rep<K>, c: Rep<K>, l: nat, o: nat, side: Side, price: nat) {
    && Bounded(r) && SideOk(r, side)
    && l < |r.levels| == |c.levels| && l !in r.liveLevels && c.levels[l].data == LevelData(side, price, o)
    && c.levels == r.levels[l := c.levels[l]] && c.liveLevels == r.liveLevels + {l}
    && SameSide(r, c, Buy) && SameSide(r, c, Sell)
  }

  /** What a method has to know before it links the level next to position `k`. */
  lemma {:induction false} ReadyToLink<K>(r: Rep<K>, c: Rep<K>, l: nat, o: nat, k: nat, side: Side, price: nat)
    requires LevelPrepared(r, c, l, o, side, price) && k < |r.Ring(side)|
    ensures var ring := r.Ring(side); var t, h := ring[k], ring[0];
      && c.Head(side) == h && l in c.liveLevels && l < |c.levels|
      && h < |c.levels| && h in c.liveLevels && c.levels[h].data.price == r.Price(h)
      && t < |c.levels| && t in c.liveLevels && t != l
      && InBounds(c.levels, c.levels[t].prev) && c.levels[t].prev in c.liveLevels && c.levels[t].prev != l
      && c.levels[c.levels[t].prev].next == t
  {
    var ring := r.Ring(side);
    ReadyToJoin(r.levels, c.levels, l, ring, k, r.liveLevels);
    assert ring[0] in ring;
    assert c.levels[ring[k]].prev in r.liveLevels;
  }

  lemma {:induction false} JoinedAt<K>(r: Rep<K>, c: Rep<K>, l: nat, o: nat, t: nat, k: nat, side: Side, price: nat)
    requires LevelPrepared(r, c, l, o, side, price)
    requires var ring := r.Ring(side); ring != [] && k <= |ring|
    requires t == r.Ring(side)[if k == |r.Ring(side)| then 0 else k]
    ensures t < |c.levels| && InBounds(c.levels, c.levels[t].prev)
    ensures IsRing(LinkBefore(c.levels, t, l), InsertAt(r.Ring(side), k, l))
    ensures Joined(r.levels, LinkBefore(c.levels, t, l), l, LevelData(side, price, o), r.Ring(side))
  {
    hide Joined, LinkBefore, Bounded;
    var ring := r.Ring(side);
    ReadyToJoin(r.levels, c.levels, l, ring, if k == |ring| then 0 else k, r.liveLevels);
    assert k == |ring| ==> InsertAt(ring, k, l) == ring + [l];
  }

  lemma {:induction false} LevelLinkedFrom<K>(r: Rep<K>, c: Rep<K>, m: Rep<K>, l: nat, o: nat, t: nat, k: nat,
                                              side: Side, price: nat)
    requires LevelPrepared(r, c, l, o, side, price)
    requires var ring := r.Ring(side); ring != [] && k <= |ring|
    requires t == r.Ring(side)[if k == |r.Ring(side)| then 0 else k]
    requires t < |c.levels| && InBounds(c.levels, c.levels[t].prev)
    requires m == c.(levels := LinkBefore(c.levels, t, l))
                   .WithRing(side, if k == 0 then l else r.Ring(side)[0], InsertAt(r.Ring(side), k, l))
    requires forall j :: 0 <= j < k ==> Better(side, r.Price(r.Ring(side)[j]), price)
    requires forall j :: k <= j < |r.Ring(side)| ==> Better(side, price, r.Price(r.Ring(side)[j]))
    ensures LevelLinked(r, m, l, o, k, side, price)
  {
    hide IsRing, Joined, LinkBefore, Bounded;
    var ring := r.Ring(side);
    JoinedAt(r, c, l, o, t, k, side, price);
    assert InsertAt(ring, k, l)[0] == if k == 0 then l else ring[0];
  }

  /** The order is filled in and alone in its queue; nothing else has changed. */
  ghost predicate OrderLinked<K(!new)>(r: Rep<K>, m: Rep<K>, o: nat, d: Order<K>) {
    && Inv(r) && o !in r.liveOrders && d.key !in r.index
    && m == r.(orders := m.orders, liveOrders := r.liveOrders + {o})
    && IsRing(m.orders, [o]) && Joined(r.orders, m.orders, o, d, [])
  }

  ghost predicate OrderAlone<K>(r: Rep<K>, m: Rep<K>, l: nat, o: nat, d: Order<K>) {
    && m.queue == r.queue && m.index == r.index && m.priceIndex == r.priceIndex
    && m.liveLevels == r.liveLevels + {l} && m.liveOrders == r.liveOrders + {o}
    && IsRing(m.orders, [o]) && Joined(r.orders, m.orders, o, d, [])
  }

  lemma {:induction false} OpenedFrom<K>(r: Rep<K>, m: Rep<K>, s: Rep<K>, l: nat, o: nat, k: nat, d: Order<K>)
    requires Bounded(r) && LevelLinked(r, m, l, o, k, d.side, d.price) && OrderAlone(r, m, l, o, d)
    requires l !in r.liveLevels && o !in r.liveOrders && d.key !in r.index && r.priceIndex[Slot(d.price)] == NULL
    requires s == m.(priceIndex := r.priceIndex[Slot(d.price) := l],
                     index := r.index[d.key := o], queue := r.queue[l := [o]])
    ensures Opened(r, s, l, o, k, d)
  {
  }

  lemma {:induction false} OpenedBounded<K>(r: Rep<K>, s: Rep<K>, l: nat, o: nat, k: nat, d: Order<K>)
    requires Bounded(r) && Opened(r, s, l, o, k, d)
    ensures Bounded(s)
    ensures forall m :: m in s.Ring(d.side) <==> m == l || m in r.Ring(d.side)
  {
  }

  lemma {:induction false} InsertedDescends<K>(r: Rep<K>, s: Rep<K>, side: Side, ring: seq<nat>, k: nat, l: nat)
    requires Descends(r, side, ring) && k <= |ring| && forall m :: m in ring ==> s.Price(m) == r.Price(m)
    requires forall j :: 0 <= j < k ==> Better(side, r.Price(ring[j]), s.Price(l))
    requires forall j :: k <= j < |ring| ==> Better(side, s.Price(l), r.Price(ring[j]))
    ensures Descends(s, side, InsertAt(ring, k, l))
  {
  }

  lemma {:induction false} RemovedDescends<K>(r: Rep<K>, s: Rep<K>, side: Side, ring: seq<nat>, k: nat)
    requires Descends(r, side, ring) && k < |ring| && forall m :: m in ring ==> s.Price(m) == r.Price(m)
    ensures Descends(s, side, RemoveAt(ring, k))
  {
  }

  lemma {:induction false} OpenedSide<K>(r: Rep<K>, s: Rep<K>, l: nat, o: nat, k: nat, d: Order<K>)
    requires Bounded(r) && Bounded(s) && Opened(r, s, l, o, k, d) && SideOk(r, d.side)
    requires forall m :: m in s.Ring(d.side) <==> m == l || m in r.Ring(d.side)
    ensures SideOk(s, d.side)
  {
    hide IsRing, Descends, InsertAt;
    assert forall m :: m in r.Ring(d.side) ==> s.Price(m) == r.Price(m);
    InsertedDescends(r, s, d.side, r.Ring(d.side), k, l);
    LengthInserted(r.Ring(d.side), k, l);
  }

  lemma {:induction false} OpenedOther<K>(r: Rep<K>, s: Rep<K>, l: nat, o: nat, k: nat, d: Order<K>)
    requires Bounded(r) && Bounded(s) && Opened(r, s, l, o, k, d)
    requires SideOk(r, d.side) && SideOk(r, Opposite(d.side))
    ensures SideOk(s, Opposite(d.side))
  {
    hide IsRing;
    assert forall m :: m in r.Ring(Opposite(d.side)) ==> m != l && m !in r.Ring(d.side);
    SideFrame(r, s, Opposite(d.side));
  }

  lemma {:induction false} OpenedLocal<K(!new)>(r: Rep<K>, s: Rep<K>, l: nat, o: nat, k: nat, d: Order<K>)
    requires Bounded(r) && Bounded(s) && Opened(r, s, l, o, k, d)
    requires forall m :: m in s.Ring(d.side) <==> m == l || m in r.Ring(d.side)
    requires forall i :: i in r.liveOrders ==> Slot(r.orders[i].data.price) != Slot(d.price)
    ensures Local(r, s, Spot(Slot(d.price), l, o, d.key))
  {
    hide IsRing;
    var at := Spot(Slot(d.price), l, o, d.key);
    assert LocalLevels(r, s, at);
    assert LocalOrders(r, s, at);
  }

  lemma {:induction false} OpenedSpot<K(!new)>(r: Rep<K>, s: Rep<K>, l: nat, o: nat, k: nat, d: Order<K>)
    requires Bounded(r) && Bounded(s) && Opened(r, s, l, o, k, d) && l in s.Ring(d.side)
    requires forall i :: i in r.liveOrders ==> Slot(r.orders[i].data.price) != Slot(d.price)
    ensures SpotOk(s, Spot(Slot(d.price), l, o, d.key))
  {
  }

  lemma {:induction false} EitherSide<K(!new)>(r: Rep<K>, side: Side)
    requires Inv(r)
    ensures Bounded(r) && SideOk(r, side) && SideOk(r, Opposite(side))
  {
  }

  lemma {:induction false} NoOrderInSlot<K(!new)>(r: Rep<K>, slot: nat)
    requires Inv(r) && slot < PRICE_LEVELS && r.priceIndex[slot] == NULL
    ensures forall i :: i in r.liveOrders ==> Slot(r.orders[i].data.price) != slot
  {
  }

  lemma {:induction false} OpenedSides<K(!new)>(r: Rep<K>, s: Rep<K>, l: nat, o: nat, k: nat, d: Order<K>)
    requires Inv(r) && Opened(r, s, l, o, k, d)
    ensures Bounded(s) && SideOk(s, Buy) && SideOk(s, Sell)
    ensures forall m :: m in s.Ring(d.side) <==> m == l || m in r.Ring(d.side)
  {
    EitherSide(r, d.side);
    hide Inv, IsRing, SideOk, Opened;
    OpenedBounded(r, s, l, o, k, d);
    OpenedSide(r, s, l, o, k, d);
    OpenedOther(r, s, l, o, k, d);
  }

  lemma {:induction false} OpenedInv<K(!new)>(r: Rep<K>, s: Rep<K>, l: nat, o: nat, k: nat, d: Order<K>)
    requires Inv(r) && Opened(r, s, l, o, k, d)
    ensures Inv(s)
  {
    hide Inv, IsRing, SideOk, SpotOk, Local, InsertAt;
    EitherSide(r, d.side);
    OpenedSides(r, s, l, o, k, d);
    NoOrderInSlot(r, Slot(d.price));
    OpenedSpot(r, s, l, o, k, d);
    OpenedLocal(r, s, l, o, k, d);
    InvOfLocal(r, s, Spot(Slot(d.price), l, o, d.key));
  }

  // ----- an order leaves a queue that keeps others

  ghost predicate Dropped<K>(r: Rep<K>, s: Rep<K>, l: nat, j: nat)
    requires Bounded(r)
  {
    && l in r.liveLevels && j < |r.queue[l]| && 2 <= |r.queue[l]| && r.queue[l][j] in r.liveOrders
    && var o, q := r.queue[l][j], RemoveAt(r.queue[l], j);
    && SameLevels(r, s)
    && s.levels == r.levels[l := r.levels[l].(data := r.levels[l].data.(first := q[0]))]
    && s.queue == r.queue[l := q]
    && s.liveOrders == r.liveOrders - {o} && s.index == r.index - {r.orders[o].data.key}
    && IsRing(s.orders, q) && Relinked(r.orders, s.orders, r.queue[l])
  }

  /** What a method has to know before it unlinks a node from a ring of several. */
  lemma {:induction false} ReadyToUnlink<P>(a: seq<Node<P>>, ring: seq<nat>, j: nat, live: set<nat>)
    requires IsRing(a, ring) && j < |ring| && forall i :: i in ring ==> i in live
    ensures var x := ring[j];
      && x < |a| && x in live && (a[x].prev == x <==> |ring| == 1) && (a[x].next == x <==> |ring| == 1)
      && InBounds(a, a[x].prev) && InBounds(a, a[x].next) && a[x].prev in live && a[x].next in live
      && a[x].next == ring[Succ(j, |ring|)]
      && IsRing(Unlink(a, x), RemoveAt(ring, j)) && Relinked(a, Unlink(a, x), ring)
  {
    Neighbours(a, ring, j);
    UnlinkedFrom(a, ring, j);
  }

  /** The queue position of live order `i`, and what surrounds it. */
  lemma {:induction false} ReadyToDrop<K(!new)>(r: Rep<K>, i: nat, l: nat, j: nat)
    requires Inv(r) && i in r.liveOrders && l in r.liveLevels && j < |r.queue[l]| && r.queue[l][j] == i
    ensures Bounded(r) && l < |r.levels| && i < |r.orders|
    ensures r.levels[l].data.first in r.liveOrders && (r.levels[l].data.first == i <==> j == 0)
    ensures (r.orders[i].prev == i <==> |r.queue[l]| == 1) && (r.orders[i].next == i <==> |r.queue[l]| == 1)
    ensures InBounds(r.orders, r.orders[i].prev) && r.orders[i].prev in r.liveOrders
    ensures InBounds(r.orders, r.orders[i].next) && r.orders[i].next in r.liveOrders
  {
    assert QueueOk(r, l);
    hide LevelsInv, SideOk, OrdersInv, SlotsInv, Unlink;
    ReadyToUnlink(r.orders, r.queue[l], j, r.liveOrders);
    assert r.queue[l][0] in r.queue[l];
  }

  lemma {:induction false} QueueFacts<K(!new)>(r: Rep<K>, l: nat)
    requires Inv(r) && l in r.liveLevels
    ensures Bounded(r) && r.queue[l] != [] && r.levels[l].data.first == r.queue[l][0]
    ensures IsRing(r.orders, r.queue[l]) && Distinct(r.queue[l])
    ensures forall i :: i in r.queue[l] ==> (
      && i in r.liveOrders
      && r.orders[i].data.side == r.levels[l].data.side && r.orders[i].data.price == r.levels[l].data.price)
  {
    assert QueueOk(r, l);
  }

  lemma {:induction false} DroppedFrom<K(!new)>(r: Rep<K>, s: Rep<K>, i: nat, l: nat, j: nat)
    requires Inv(r) && i in r.liveOrders && l in r.liveLevels && l < |r.levels| && i < |r.orders| && l in r.queue
    requires j < |r.queue[l]| && r.queue[l][j] == i && 2 <= |r.queue[l]|
    requires InBounds(r.orders, r.orders[i].prev) && InBounds(r.orders, r.orders[i].next)
    requires s == r.(orders := Unlink(r.orders, i), liveOrders := r.liveOrders - {i},
                     levels := if j == 0
                       then r.levels[l := r.levels[l].(data := r.levels[l].data.(first := r.orders[i].next))]
                       else r.levels,
                     queue := r.queue[l := RemoveAt(r.queue[l], j)], index := r.index - {r.orders[i].data.key})
    ensures Bounded(r) && Dropped(r, s, l, j)
  {
    hide Inv, Unlink, Relinked, IsRing, Bounded;
    QueueFacts(r, l);
    ReadyToUnlink(r.orders, r.queue[l], j, r.liveOrders);
    assert RemoveAt(r.queue[l], j)[0] == if j == 0 then r.orders[i].next else r.levels[l].data.first;
    assert j > 0
      ==> s.levels == r.levels[l := r.levels[l].(data := r.levels[l].data.(first := r.levels[l].data.first))];
  }

  lemma {:induction false} DroppedLocal<K(!new)>(r: Rep<K>, s: Rep<K>, l: nat, j: nat)
    requires Bounded(r) && Dropped(r, s, l, j) && LevelNodeOk(r, l) && QueueOk(r, l) && OrderNodeOk(r, r.queue[l][j])
    ensures Bounded(s)
    ensures var o := r.queue[l][j]; Local(r, s, Spot(Slot(r.Price(l)), l, o, r.orders[o].data.key))
  {
    hide IsRing;
  }

  lemma {:induction false} DroppedSpot<K(!new)>(r: Rep<K>, s: Rep<K>, l: nat, j: nat)
    requires Bounded(r) && Bounded(s) && Dropped(r, s, l, j) && LevelNodeOk(r, l) && QueueOk(r, l) && OrdersInv(r)
    ensures var o := r.queue[l][j]; SpotOk(s, Spot(Slot(r.Price(l)), l, o, r.orders[o].data.key))
  {
    var o := r.queue[l][j];
    assert OrderNodeOk(r, o);
    forall i
      ensures i in s.queue[l] <==> i in r.queue[l] && i != o
    {
      InRemoveAt(r.queue[l], j, i);
    }
    hide IsRing;
    forall i | i in s.liveOrders && Slot(s.orders[i].data.price) == Slot(r.Price(l))
      ensures OrderNodeOk(s, i)
    {
      assert OrderNodeOk(r, i);
    }
  }

  lemma {:induction false} DroppedSides<K>(r: Rep<K>, s: Rep<K>, l: nat, j: nat)
    requires Bounded(r) && Bounded(s) && SideOk(r, Buy) && SideOk(r, Sell) && Dropped(r, s, l, j)
    ensures SideOk(s, Buy) && SideOk(s, Sell)
  {
    hide IsRing, Relinked, SideOk, RemoveAt;
    KeptSides(r, s);
  }

  lemma {:induction false} DroppedInv<K(!new)>(r: Rep<K>, s: Rep<K>, l: nat, j: nat)
    requires Inv(r) && Dropped(r, s, l, j)
    ensures Inv(s)
  {
    hide IsRing, Relinked, SpotOk, Local, SlotsInv, SideOk, RemoveAt;
    assert LevelNodeOk(r, l) && QueueOk(r, l) && OrderNodeOk(r, r.queue[l][j]);
    DroppedLocal(r, s, l, j);
    DroppedSpot(r, s, l, j);
    DroppedSides(r, s, l, j);
    InvOfLocal(r, s, Spot(Slot(r.Price(l)), l, r.queue[l][j], r.orders[r.queue[l][j]].data.key));
  }

  // ----- the last order of a level leaves, and the level with it

  ghost predicate Closed<K>(r: Rep<K>, s: Rep<K>, l: nat, k: nat)
    requires Bounded(r)
  {
    && l in r.liveLevels && |r.queue[l]| == 1 && r.queue[l][0] in r.liveOrders
    && var o, side := r.queue[l][0], r.levels[l].data.side;
    var ring := r.Ring(side);
    && k < |ring| && ring[k] == l
    && SameSide(r, s, Opposite(side))
    && s.Ring(side) == RemoveAt(ring, k)
    && s.Head(side) == (if s.Ring(side) == [] then NULL else s.Ring(side)[0])
    && s.queue == r.queue - {l} && s.priceIndex == r.priceIndex[Slot(r.Price(l)) := NULL]
    && s.liveLevels == r.liveLevels - {l} && s.liveOrders == r.liveOrders - {o}
    && s.index == r.index - {r.orders[o].data.key}
    && IsRing(s.levels, s.Ring(side)) && Relinked(r.levels, s.levels, ring)
    && s.orders == r.orders
  }

  lemma {:induction false} ReadyToClose<K(!new)>(r: Rep<K>, l: nat, k: nat, side: Side)
    requires Inv(r) && l in r.liveLevels && l < |r.levels| && side == r.levels[l].data.side
    requires k < |r.Ring(side)| && r.Ring(side)[k] == l
    ensures Bounded(r) && r.Head(side) == r.Ring(side)[0]
    ensures l == r.Ring(side)[0] <==> k == 0
    ensures (r.levels[l].prev == l <==> |r.Ring(side)| == 1) && (r.levels[l].next == l <==> |r.Ring(side)| == 1)
    ensures InBounds(r.levels, r.levels[l].prev) && r.levels[l].prev in r.liveLevels
    ensures InBounds(r.levels, r.levels[l].next) && r.levels[l].next in r.liveLevels
  {
    hide LevelsInv, OrdersInv, SlotsInv, Unlink;
    assert SideOk(r, side);
    ReadyToUnlink(r.levels, r.Ring(side), k, r.liveLevels);
  }

  lemma {:induction false} SideFacts<K(!new)>(r: Rep<K>, side: Side)
    requires Inv(r)
    ensures Bounded(r) && IsRing(r.levels, r.Ring(side))
    ensures forall l :: l in r.Ring(side) ==> l in r.liveLevels && r.levels[l].data.side == side
    ensures IsRing(r.levels, [])
    ensures r.Head(side) == if r.Ring(side) == [] then NULL else r.Ring(side)[0]
  {
  }

  lemma {:induction false} ClosedFrom<K(!new)>(r: Rep<K>, s: Rep<K>, i: nat, l: nat, k: nat, side: Side)
    requires Inv(r) && l in r.liveLevels && l < |r.levels| && side == r.levels[l].data.side
    requires l in r.queue && r.queue[l] == [i] && i in r.liveOrders && i < |r.orders| && |r.priceIndex| == PRICE_LEVELS
    requires k < |r.Ring(side)| && r.Ring(side)[k] == l
    requires InBounds(r.levels, r.levels[l].prev) && InBounds(r.levels, r.levels[l].next)
    requires var ring := r.Ring(side);
      s == r.(levels := if |ring| == 1 then r.levels else Unlink(r.levels, l),
              liveLevels := r.liveLevels - {l}, liveOrders := r.liveOrders - {i},
              priceIndex := r.priceIndex[Slot(r.Price(l)) := NULL],
              queue := r.queue - {l}, index := r.index - {r.orders[i].data.key})
            .WithRing(side,
                      if |ring| == 1 then NULL else if k == 0 then r.levels[l].next else ring[0],
                      RemoveAt(ring, k))
    ensures Bounded(r) && Closed(r, s, l, k)
  {
    hide Inv, Unlink, Relinked, IsRing, Bounded, SideOk;
    var ring := r.Ring(side);
    SideFacts(r, side);
    ReadyToUnlink(r.levels, ring, k, r.liveLevels);
    UnchangedRelinked(r.levels, ring);
    assert |ring| == 1 ==> RemoveAt(ring, k) == [];
    assert 1 < |ring| ==> RemoveAt(ring, k)[0] == if k == 0 then r.levels[l].next else ring[0];
  }

  lemma {:induction false} UnchangedRelinked<P>(a: seq<Node<P>>, ring: seq<nat>)
    ensures Relinked(a, a, ring)
  {
  }

  lemma {:induction false} ClosedBounded<K>(r: Rep<K>, s: Rep<K>, l: nat, k: nat)
    requires Bounded(r) && Closed(r, s, l, k) && SideOk(r, r.levels[l].data.side)
    ensures Bounded(s)
    ensures forall m :: m in s.Ring(r.levels[l].data.side) <==> m in r.Ring(r.levels[l].data.side) && m != l
  {
  }

  lemma {:induction false} ClosedSide<K>(r: Rep<K>, s: Rep<K>, l: nat, k: nat)
    requires Bounded(r) && Bounded(s) && Closed(r, s, l, k) && SideOk(r, r.levels[l].data.side)
    requires forall m :: m in s.Ring(r.levels[l].data.side) <==> m in r.Ring(r.levels[l].data.side) && m != l
    ensures SideOk(s, r.levels[l].data.side)
  {
    hide IsRing, Descends, RemoveAt;
    var side := r.levels[l].data.side;
    assert forall m :: m in r.Ring(side) ==> s.Price(m) == r.Price(m);
    RemovedDescends(r, s, side, r.Ring(side), k);
  }

  lemma {:induction false} ClosedOther<K>(r: Rep<K>, s: Rep<K>, l: nat, k: nat)
    requires Bounded(r) && Bounded(s) && Closed(r, s, l, k)
    requires SideOk(r, r.levels[l].data.side) && SideOk(r, Opposite(r.levels[l].data.side))
    ensures SideOk(s, Opposite(r.levels[l].data.side))
  {
    hide IsRing;
    var side := r.levels[l].data.side;
    assert forall m :: m in r.Ring(Opposite(side)) ==> m != l && m !in r.Ring(side);
    SideFrame(r, s, Opposite(side));
  }

  lemma {:induction false} ClosedLocal<K(!new)>(r: Rep<K>, s: Rep<K>, l: nat, k: nat)
    requires Bounded(r) && Bounded(s) && Closed(r, s, l, k) && LevelNodeOk(r, l) && QueueOk(r, l)
    requires forall m :: m in s.Ring(r.levels[l].data.side) <==> m in r.Ring(r.levels[l].data.side) && m != l
    requires OrderNodeOk(r, r.queue[l][0])
    ensures Local(r, s, Spot(Slot(r.Price(l)), l, r.queue[l][0], r.orders[r.queue[l][0]].data.key))
  {
    hide IsRing;
    var at := Spot(Slot(r.Price(l)), l, r.queue[l][0], r.orders[r.queue[l][0]].data.key);
    assert LocalLevels(r, s, at);
    assert LocalOrders(r, s, at);
  }

  lemma {:induction false} ClosedSpot<K(!new)>(r: Rep<K>, s: Rep<K>, l: nat, k: nat)
    requires Bounded(r) && Bounded(s) && Closed(r, s, l, k) && LevelNodeOk(r, l)
    requires forall i :: i in r.liveOrders ==> OrderNodeOk(r, i)
    ensures SpotOk(s, Spot(Slot(r.Price(l)), l, r.queue[l][0], r.orders[r.queue[l][0]].data.key))
  {
  }

  lemma {:induction false} ClosedInv<K(!new)>(r: Rep<K>, s: Rep<K>, l: nat, k: nat)
    requires Inv(r) && Closed(r, s, l, k)
    ensures Inv(s)
  {
    var o, side := r.queue[l][0], r.levels[l].data.side;
    assert SideOk(r, side) && SideOk(r, Opposite(side)) && LevelNodeOk(r, l) && QueueOk(r, l);
    ClosedBounded(r, s, l, k);
    ClosedSide(r, s, l, k);
    assert OrderNodeOk(r, o);
    ClosedLocal(r, s, l, k);
    ClosedSpot(r, s, l, k);
    ClosedOther(r, s, l, k);
    assert SideOk(s, Buy) && SideOk(s, Sell);
    InvOfLocal(r, s, Spot(Slot(r.Price(l)), l, o, r.orders[o].data.key));
  }

  // ----- an order keeps its place with another quantity

  ghost predicate Requantified<K>(r: Rep<K>, s: Rep<K>, o: nat, qty: nat)
    requires Bounded(r)
  {
    && o in r.liveOrders
    && SameLevels(r, s) && s.levels == r.levels && s.queue == r.queue
    && s.liveOrders == r.liveOrders && s.index == r.index
    && s.orders == r.orders[o := r.orders[o].(data := r.orders[o].data.(qty := qty))]
  }

  lemma {:induction false} RequantifiedLocal<K(!new)>(r: Rep<K>, s: Rep<K>, l: nat, o: nat, qty: nat)
    requires Bounded(r) && Requantified(r, s, o, qty) && l in r.liveLevels && LevelNodeOk(r, l)
    requires OrderNodeOk(r, o) && r.priceIndex[Slot(r.orders[o].data.price)] == l
      && SlotOk(r, Slot(r.orders[o].data.price))
    ensures Bounded(s) && Local(r, s, Spot(Slot(r.orders[o].data.price), l, o, r.orders[o].data.key))
  {
  }

  lemma {:induction false} RequantifiedSpot<K(!new)>(r: Rep<K>, s: Rep<K>, l: nat, o: nat, qty: nat)
    requires Bounded(r) && Bounded(s) && Requantified(r, s, o, qty) && OrdersInv(r)
    requires l in r.liveLevels && LevelNodeOk(r, l) && QueueOk(r, l)
    requires r.priceIndex[Slot(r.orders[o].data.price)] == l && SlotOk(r, Slot(r.orders[o].data.price))
    ensures SpotOk(s, Spot(Slot(r.orders[o].data.price), l, o, r.orders[o].data.key))
  {
    hide IsRing;
    QueueFrame(r, s, l);
    forall i | i in s.liveOrders
      ensures OrderNodeOk(s, i)
    {
      assert OrderNodeOk(r, i);
    }
    assert r.orders[o].data.key in r.index ==> KeyOk(r, r.orders[o].data.key);
  }

  lemma {:induction false} RequantifiedInv<K(!new)>(r: Rep<K>, s: Rep<K>, o: nat, qty: nat)
    requires Inv(r) && Requantified(r, s, o, qty)
    ensures Inv(s)
  {
    hide IsRing, SpotOk, Local, SideOk;
    var l := r.priceIndex[Slot(r.orders[o].data.price)];
    assert OrderNodeOk(r, o) && SlotOk(r, Slot(r.orders[o].data.price));
    assert LevelNodeOk(r, l) && QueueOk(r, l);
    RequantifiedLocal(r, s, l, o, qty);
    RequantifiedSpot(r, s, l, o, qty);
    KeptSides(r, s);
    InvOfLocal(r, s, Spot(Slot(r.orders[o].data.price), l, o, r.orders[o].data.key));
  }
}
