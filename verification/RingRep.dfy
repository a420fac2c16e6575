/** The linked representation of a book as one value, its invariant, and the effect of
    each piece of pointer surgery on both. The classes over pools (RingBook) execute the
    surgery; the facts about it are proved here, on values. */
module RingRep {
  import opened Types
  import opened Orders
  import opened Levels
  import opened Rings

  datatype LevelData = LevelData(side: Side, price: nat, first: nat)

  /** `bids`, `asks` and `queue` describe the shape of the rings: the level nodes from
      the head on, and the order nodes of each level from the first on. */
  datatype Rep<K> = Rep(
    levels: seq<Node<LevelData>>, orders: seq<Node<Order<K>>>,
    liveLevels: set<nat>, liveOrders: set<nat>,
    bids: seq<nat>, asks: seq<nat>, queue: map<nat, seq<nat>>,
    bidsHead: int, asksHead: int, priceIndex: seq<int>, index: map<K, nat>)
  {
    function Ring(side: Side): seq<nat> {
      if side.Buy? then bids else asks
    }

    function Head(side: Side): int {
      if side.Buy? then bidsHead else asksHead
    }

    function WithRing(side: Side, head: int, ring: seq<nat>): Rep<K> {
      if side.Buy? then this.(bids := ring, bidsHead := head) else this.(asks := ring, asksHead := head)
    }

    function Price(l: nat): nat {
      if l < |levels| then levels[l].data.price else 0
    }
  }

  ghost predicate Bounded<K>(r: Rep<K>) {
    && |r.priceIndex| == PRICE_LEVELS
    && (forall l :: l in r.liveLevels ==> l < |r.levels|)
    && (forall i :: i in r.liveOrders ==> i < |r.orders|)
    && (forall l :: l in r.queue <==> l in r.liveLevels)
  }

  /** From the most to the least aggressive price. */
  ghost predicate Descends<K>(r: Rep<K>, side: Side, ring: seq<nat>) {
    forall j, k :: 0 <= j < k < |ring| ==> Better(side, r.Price(ring[j]), r.Price(ring[k]))
  }

  ghost predicate SideOk<K>(r: Rep<K>, side: Side)
    requires Bounded(r)
  {
    var ring := r.Ring(side);
    && IsRing(r.levels, ring)
    && r.Head(side) == (if ring == [] then NULL else ring[0])
    && (forall l :: l in ring ==> l in r.liveLevels && r.levels[l].data.side == side)
    && Descends(r, side, ring)
  }

  ghost predicate QueueOk<K>(r: Rep<K>, l: nat)
    requires Bounded(r) && l in r.liveLevels
  {
    var d, q := r.levels[l].data, r.queue[l];
    && q != [] && d.first == q[0]
    && IsRing(r.orders, q)
    && (forall i :: i in q ==>
      i in r.liveOrders && r.orders[i].data.side == d.side && r.orders[i].data.price == d.price)
  }

  ghost predicate LevelNodeOk<K>(r: Rep<K>, l: nat)
    requires Bounded(r) && l in r.liveLevels
  {
    var d := r.levels[l].data;
    l in r.Ring(d.side) && r.priceIndex[Slot(d.price)] == l
  }

  ghost predicate SlotOk<K>(r: Rep<K>, j: nat)
    requires Bounded(r) && j < PRICE_LEVELS
  {
    r.priceIndex[j] != NULL ==> r.priceIndex[j] in r.liveLevels && Slot(r.Price(r.priceIndex[j])) == j
  }

  ghost predicate OrderNodeOk<K>(r: Rep<K>, i: nat)
    requires Bounded(r) && i in r.liveOrders
  {
    var d := r.orders[i].data;
    var l := r.priceIndex[Slot(d.price)];
    l in r.liveLevels && i in r.queue[l] && d.key in r.index && r.index[d.key] == i
  }

  ghost predicate KeyOk<K>(r: Rep<K>, k: K)
    requires Bounded(r) && k in r.index
  {
    r.index[k] in r.liveOrders && r.orders[r.index[k]].data.key == k
  }

  ghost predicate LevelsInv<K>(r: Rep<K>)
    requires Bounded(r)
  {
    forall l :: l in r.liveLevels ==> LevelNodeOk(r, l) && QueueOk(r, l)
  }

  ghost predicate SlotsInv<K>(r: Rep<K>)
    requires Bounded(r)
  {
    forall j :: 0 <= j < PRICE_LEVELS ==> SlotOk(r, j)
  }

  ghost predicate OrdersInv<K(!new)>(r: Rep<K>)
    requires Bounded(r)
  {
    && (forall i :: i in r.liveOrders ==> OrderNodeOk(r, i))
    && (forall k :: k in r.index ==> KeyOk(r, k))
  }

  ghost predicate Inv<K(!new)>(r: Rep<K>) {
    Bounded(r) && SideOk(r, Buy) && SideOk(r, Sell) && LevelsInv(r) && SlotsInv(r) && OrdersInv(r)
  }

  // ----- the book a representation stands for

  ghost predicate Readable<K>(r: Rep<K>) {
    && Bounded(r)
    && (forall l :: l in r.bids || l in r.asks ==> l in r.liveLevels)
    && (forall l, i :: l in r.liveLevels && i in r.queue[l] ==> i < |r.orders|)
  }

  function QueueData<K>(orders: seq<Node<Order<K>>>, q: seq<nat>): (os: seq<Order<K>>)
    requires forall i :: i in q ==> i < |orders|
  {
    seq(|q|, j requires 0 <= j < |q| && q[j] in q => orders[q[j]].data)
  }

  ghost function LevelOf<K>(r: Rep<K>, l: nat): Level<K>
    requires Readable(r) && l in r.liveLevels
  {
    Level(r.Price(l), QueueData(r.orders, r.queue[l]))
  }

  ghost function SideLevels<K>(r: Rep<K>, side: Side): seq<Level<K>>
    requires Readable(r)
  {
    var ring := r.Ring(side);
    seq(|ring|, k requires 0 <= k < |ring| => LevelOf(r, ring[k]))
  }

  lemma {:induction false} InvReadable<K(!new)>(r: Rep<K>)
    requires Inv(r)
    ensures Readable(r)
  {
  }

  lemma {:induction false} RingOfInv<K(!new)>(r: Rep<K>, side: Side)
    requires Inv(r)
    ensures Readable(r) && Descends(r, side, r.Ring(side))
    ensures forall l :: l in r.Ring(side) ==> l in r.liveLevels && r.levels[l].data.side == side && QueueOk(r, l)
  {
    hide IsRing, SlotsInv, OrdersInv;
    InvReadable(r);
  }

  lemma {:induction false} LevelOfQueue<K>(r: Rep<K>, l: nat)
    requires Readable(r) && l in r.liveLevels && QueueOk(r, l)
    ensures LevelOk(r.levels[l].data.side, LevelOf(r, l)) && LevelOf(r, l).price == r.Price(l)
  {
    hide IsRing;
  }

  lemma {:induction false} LevelsOfInv<K(!new)>(r: Rep<K>, side: Side)
    requires Inv(r)
    ensures Readable(r) && LevelsOk(side, SideLevels(r, side))
  {
    hide Inv, QueueOk, LevelOk, LevelOf;
    RingOfInv(r, side);
    var ring, ls := r.Ring(side), SideLevels(r, side);
    forall k | 0 <= k < |ls|
      ensures LevelOk(side, ls[k]) && ls[k].price == r.Price(ring[k])
    {
      assert ring[k] in ring;
      LevelOfQueue(r, ring[k]);
    }
  }

  /** Two live levels never share a slot, so never a price. */
  lemma {:induction false} SlotsDistinct<K>(r: Rep<K>, l: nat, m: nat)
    requires Bounded(r) && LevelsInv(r) && l in r.liveLevels && m in r.liveLevels && l != m
    ensures Slot(r.Price(l)) != Slot(r.Price(m))
  {
  }

  /** A queue untouched by a change keeps its invariant. */
  lemma {:induction false} QueueFrame<K>(r: Rep<K>, s: Rep<K>, l: nat)
    requires Bounded(r) && Bounded(s) && l in r.liveLevels && l in s.liveLevels
    requires QueueOk(r, l) && s.queue[l] == r.queue[l] && s.levels[l].data == r.levels[l].data
    requires |r.orders| == |s.orders|
    requires forall i :: i in r.queue[l] ==> (
      && i in s.liveOrders && SameLinks(r.orders[i], s.orders[i])
      && s.orders[i].data.side == r.orders[i].data.side && s.orders[i].data.price == r.orders[i].data.price)
    ensures QueueOk(s, l)
  {
    RingFrame(r.orders, s.orders, r.queue[l]);
  }

  lemma {:induction false} SideFrame<K>(r: Rep<K>, s: Rep<K>, side: Side)
    requires Bounded(r) && Bounded(s) && SideOk(r, side)
    requires s.Ring(side) == r.Ring(side) && s.Head(side) == r.Head(side) && |s.levels| == |r.levels|
    requires forall l :: l in r.Ring(side) ==> (
      && l in s.liveLevels && SameLinks(r.levels[l], s.levels[l])
      && s.levels[l].data.side == r.levels[l].data.side && s.levels[l].data.price == r.levels[l].data.price)
    ensures SideOk(s, side)
  {
    var ring := r.Ring(side);
    RingFrame(r.levels, s.levels, ring);
    assert forall k :: 0 <= k < |ring| ==> ring[k] in ring && s.Price(ring[k]) == r.Price(ring[k]);
  }

  // ----- every change touches one slot, one level and one order

  datatype Spot<K> = Spot(slot: nat, level: nat, order: nat, key: K)

  ghost predicate LocalLevels<K>(r: Rep<K>, s: Rep<K>, at: Spot<K>)
    requires Bounded(r) && Bounded(s)
  {
    && at.slot < PRICE_LEVELS
    && (at.level in r.liveLevels ==> Slot(r.Price(at.level)) == at.slot)
    && (forall j :: 0 <= j < PRICE_LEVELS && j != at.slot ==> s.priceIndex[j] == r.priceIndex[j])
    && (forall m :: m != at.level ==> (m in s.liveLevels <==> m in r.liveLevels))
    && (forall m :: m != at.level && m in r.liveLevels ==> (
        && s.levels[m].data == r.levels[m].data && s.queue[m] == r.queue[m]
        && (m in r.Ring(r.levels[m].data.side) ==> m in s.Ring(r.levels[m].data.side))))
  }

  ghost predicate LocalOrders<K>(r: Rep<K>, s: Rep<K>, at: Spot<K>)
    requires Bounded(r) && Bounded(s)
  {
    && |s.orders| == |r.orders|
    && (at.order in r.liveOrders ==>
        r.orders[at.order].data.key == at.key && Slot(r.orders[at.order].data.price) == at.slot)
    && (forall i :: i != at.order ==> (i in s.liveOrders <==> i in r.liveOrders))
    && (forall i :: i != at.order && i in r.liveOrders ==> s.orders[i].data == r.orders[i].data)
    && (forall i :: i != at.order && i in r.liveOrders && Slot(r.orders[i].data.price) != at.slot ==>
        SameLinks(r.orders[i], s.orders[i]))
  }

  ghost predicate LocalIndex<K(!new)>(r: Rep<K>, s: Rep<K>, at: Spot<K>) {
    && (at.key in r.index ==> r.index[at.key] == at.order)
    && (forall k :: k != at.key ==> (k in s.index <==> k in r.index))
    && (forall k :: k != at.key && k in r.index ==> s.index[k] == r.index[k])
  }

  ghost predicate Local<K(!new)>(r: Rep<K>, s: Rep<K>, at: Spot<K>)
    requires Bounded(r) && Bounded(s)
  {
    LocalLevels(r, s, at) && LocalOrders(r, s, at) && LocalIndex(r, s, at)
  }

  /** What a change has to establish at the place it touches. */
  ghost predicate SpotOk<K>(s: Rep<K>, at: Spot<K>)
    requires Bounded(s) && at.slot < PRICE_LEVELS
  {
    && (at.level in s.liveLevels ==> LevelNodeOk(s, at.level) && QueueOk(s, at.level))
    && SlotOk(s, at.slot)
    && (forall i :: i in s.liveOrders && Slot(s.orders[i].data.price) == at.slot ==> OrderNodeOk(s, i))
    && (at.key in s.index ==> KeyOk(s, at.key))
  }

  lemma {:induction false} LevelElsewhere<K>(r: Rep<K>, s: Rep<K>, at: Spot<K>, m: nat)
    requires Bounded(r) && Bounded(s) && LocalLevels(r, s, at) && LocalOrders(r, s, at)
    requires m != at.level && m in r.liveLevels && LevelNodeOk(r, m) && QueueOk(r, m)
    requires Slot(r.Price(m)) != at.slot
    ensures LevelNodeOk(s, m) && QueueOk(s, m)
  {
    assert forall i :: i in r.queue[m] ==> i != at.order && i in s.liveOrders && SameLinks(r.orders[i], s.orders[i]);
    QueueFrame(r, s, m);
  }

  lemma {:induction false} OrderElsewhere<K(!new)>(r: Rep<K>, s: Rep<K>, at: Spot<K>, i: nat)
    requires Bounded(r) && Bounded(s) && Local(r, s, at) && SlotsInv(r)
    requires i != at.order && i in r.liveOrders && OrderNodeOk(r, i) && Slot(r.orders[i].data.price) != at.slot
    ensures OrderNodeOk(s, i)
  {
    assert SlotOk(r, Slot(r.orders[i].data.price));
  }

  lemma {:induction false} KeyElsewhere<K(!new)>(r: Rep<K>, s: Rep<K>, at: Spot<K>, k: K)
    requires Bounded(r) && Bounded(s) && LocalOrders(r, s, at) && LocalIndex(r, s, at)
    requires k != at.key && k in r.index && KeyOk(r, k)
    ensures KeyOk(s, k)
  {
  }

  lemma {:induction false} LevelsOfLocal<K>(r: Rep<K>, s: Rep<K>, at: Spot<K>)
    requires Bounded(r) && Bounded(s) && LevelsInv(r) && LocalLevels(r, s, at) && LocalOrders(r, s, at)
    requires at.level in s.liveLevels ==> LevelNodeOk(s, at.level) && QueueOk(s, at.level)
    requires r.priceIndex[at.slot] == NULL || r.priceIndex[at.slot] == at.level
    ensures LevelsInv(s)
  {
    forall m | m in s.liveLevels
      ensures LevelNodeOk(s, m) && QueueOk(s, m)
    {
      if m != at.level {
        assert LevelNodeOk(r, m) && QueueOk(r, m);
        LevelElsewhere(r, s, at, m);
      }
    }
  }

  lemma {:induction false} OrdersOfLocal<K(!new)>(r: Rep<K>, s: Rep<K>, at: Spot<K>)
    requires Bounded(r) && Bounded(s) && SlotsInv(r) && OrdersInv(r) && Local(r, s, at) && SpotOk(s, at)
    requires at.order in s.liveOrders ==> Slot(s.orders[at.order].data.price) == at.slot
    ensures OrdersInv(s)
  {
    forall i | i in s.liveOrders
      ensures OrderNodeOk(s, i)
    {
      if Slot(s.orders[i].data.price) != at.slot {
        assert OrderNodeOk(r, i);
        OrderElsewhere(r, s, at, i);
      }
    }
    forall k | k in s.index
      ensures KeyOk(s, k)
    {
      if k != at.key {
        assert KeyOk(r, k);
        KeyElsewhere(r, s, at, k);
      }
    }
  }

  lemma {:induction false} SlotsOfLocal<K>(r: Rep<K>, s: Rep<K>, at: Spot<K>)
    requires Bounded(r) && Bounded(s) && SlotsInv(r) && LocalLevels(r, s, at) && SlotOk(s, at.slot)
    ensures SlotsInv(s)
  {
    forall j | 0 <= j < PRICE_LEVELS
      ensures SlotOk(s, j)
    {
      assert SlotOk(r, j);
    }
  }

  lemma {:induction false} InvOfLocal<K(!new)>(r: Rep<K>, s: Rep<K>, at: Spot<K>)
    requires Inv(r) && Bounded(s) && Local(r, s, at) && SpotOk(s, at)
    requires SideOk(s, Buy) && SideOk(s, Sell)
    requires r.priceIndex[at.slot] == NULL || r.priceIndex[at.slot] == at.level
    requires at.order in s.liveOrders ==> Slot(s.orders[at.order].data.price) == at.slot
    ensures Inv(s)
  {
    LevelsOfLocal(r, s, at);
    OrdersOfLocal(r, s, at);
    SlotsOfLocal(r, s, at);
  }
}
