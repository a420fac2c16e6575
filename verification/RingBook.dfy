/** The linked book over pools. The exchange's MEOrderBook and the subscriber's
    MarketOrderBook carry the same code for rings, levels and indexes; it is written
    once here, for orders looked up by keys of type K. */
module RingBooks {
  import opened Types
  import opened Orders
  import opened Levels
  import opened Rings
  import opened MemPools
  import opened RingRep
  import opened RingOps
  import opened RingEffects
  import opened RingPools

  class RingBook<K(==,!new)> {
    const levelPool: MemPool<Node<LevelData>>
    const orderPool: MemPool<Node<Order<K>>>
    var bidsByPrice: int
    var asksByPrice: int
    const priceOrders: array<int>
    var index: map<K, nat>
    ghost var bids: seq<nat>
    ghost var asks: seq<nat>
    ghost var queue: map<nat, seq<nat>>

    ghost const Repr: set<object>

    ghost predicate Separate() {
      && Repr == {this, levelPool, levelPool.store, orderPool, orderPool.store, priceOrders}
      && levelPool as object != orderPool as object
      && this as object != levelPool as object
      && this as object != orderPool as object
      && levelPool.store as object != orderPool.store as object
      && levelPool.store as object != priceOrders as object
      && orderPool.store as object != priceOrders as object
    }

    ghost function R(): Rep<K>
      reads this, levelPool, orderPool, priceOrders
    {
      Rep(levelPool.items, orderPool.items, levelPool.live, orderPool.live,
          bids, asks, queue, bidsByPrice, asksByPrice, priceOrders[..], index)
    }

    ghost predicate PoolsValid()
      reads this, levelPool, levelPool.store, orderPool, orderPool.store
    {
      Separate() && levelPool.Valid() && orderPool.Valid()
    }

    ghost predicate Valid()
      reads Repr, this, levelPool, levelPool.store, orderPool, orderPool.store, priceOrders
    {
      PoolsValid() && Inv(R())
    }

    ghost function Contents(): (b: Book<K>)
      requires Valid()
      reads Repr, this, levelPool, levelPool.store, orderPool, orderPool.store, priceOrders
    {
      InvReadable(R());
      BookOf(R())
    }

    constructor (levels: nat, orders: nat, unused: Order<K>)
      requires 0 < levels && 0 < orders
      ensures Valid() && fresh(Repr)
      ensures levelPool.store.Length == levels && orderPool.store.Length == orders
      ensures levelPool.live == {} && orderPool.live == {}
      ensures Contents() == Book([], [])
    {
      hide Inv;
      var lp := new MemPool(levels, Node(LevelData(Buy, 0, 0), NULL, NULL));
      var op := new MemPool(orders, Node(unused, NULL, NULL));
      var slots := new int[PRICE_LEVELS](_ => NULL);
      levelPool, orderPool, priceOrders := lp, op, slots;
      bidsByPrice, asksByPrice := NULL, NULL;
      index, bids, asks, queue := map[], [], [], map[];
      Repr := {this, lp, lp.store, op, op.store, slots};
      new;
      VacantIsEmpty(R());
    }

    function Head(side: Side): int
      reads this
    {
      if side.Buy? then bidsByPrice else asksByPrice
    }

    // ----- the walk that finds where a new level belongs

    /** The new price is strictly less aggressive than the price of level node `t`. */
    predicate Worse(side: Side, price: nat, t: nat)
      requires levelPool.Valid() && t < levelPool.store.Length
      reads levelPool, levelPool.store
    {
      Better(side, levelPool.At(t).data.price, price)
    }

    /** `target` is the level to link before, or the head when the new level goes last. */
    method FindTarget(side: Side, price: nat, ghost r: Rep<K>) returns (target: nat, addAfter: bool, ghost k: nat)
      requires levelPool.Valid() && Bounded(r) && SideOk(r, side) && r.Ring(side) != []
      requires Head(side) == r.Head(side)
      requires forall l :: l in r.Ring(side) ==>
        l < |levelPool.items| && levelPool.items[l] == r.levels[l] && r.Price(l) != price
      ensures k <= |r.Ring(side)| && (addAfter <==> k == |r.Ring(side)|)
      ensures target == r.Ring(side)[if addAfter then 0 else k] && target in r.Ring(side)
      ensures addAfter <==> forall l :: l in r.Ring(side) ==> Better(side, r.Price(l), price)
      ensures !addAfter ==> Better(side, price, r.Price(target))
      ensures forall j :: 0 <= j < k ==> Better(side, r.Price(r.Ring(side)[j]), price)
      ensures forall j :: k <= j < |r.Ring(side)| ==> Better(side, price, r.Price(r.Ring(side)[j]))
    {
      ghost var ring := r.Ring(side);
      ghost var n := |ring|;
      var best := Head(side);
      target := best;
      assert ring[0] in ring;
      addAfter := Worse(side, price, target);
      k := 0;
      if addAfter {
        assert Linked(r.levels, ring, 0);
        target := levelPool.At(target).next;
        k := 1;
        assert target == ring[if k == n then 0 else k] && target in ring;
        addAfter := Worse(side, price, target);
      }
      while addAfter && target != best
        invariant k <= n && target == ring[if k == n then 0 else k]
        invariant forall j :: 0 <= j < k ==> Better(side, r.Price(ring[j]), price)
        invariant if addAfter then 0 < k else k < n && !Better(side, r.Price(target), price)
        decreases n - k, addAfter
      {
        assert target in ring;
        addAfter := Worse(side, price, target);
        if addAfter {
          assert Linked(r.levels, ring, k);
          target := levelPool.At(target).next;
          k := k + 1;
        }
      }
      assert target in ring;
    }

    // ----- a new level enters its ring

    method SetHead(side: Side, head: int, ghost ring: seq<nat>)
      modifies this`bidsByPrice, this`asksByPrice, this`bids, this`asks
      ensures R() == old(R()).WithRing(side, head, ring)
    {
      if side.Buy? {
        bidsByPrice := head;
        bids := ring;
      } else {
        asksByPrice := head;
        asks := ring;
      }
    }

    /** The side is empty: the new level is a ring of its own. */
    method LinkFirst(l: nat, ghost r: Rep<K>, ghost o: nat, side: Side, ghost price: nat)
      requires levelPool.Valid() && LevelPrepared(r, R(), l, o, side, price) && Head(side) == NULL
      modifies this`bidsByPrice, this`asksByPrice, this`bids, this`asks, levelPool.store, levelPool`items
      ensures levelPool.Valid() && LevelLinked(r, R(), l, o, 0, side, price)
    {
      SetPrev(levelPool, l, l);
      SetNext(levelPool, l, l);
      SetHead(side, l, [l]);
    }

    /** Behind the last level, which is the one before the head. */
    method LinkLast(l: nat, ghost r: Rep<K>, ghost o: nat, side: Side, ghost price: nat)
      requires levelPool.Valid() && LevelPrepared(r, R(), l, o, side, price) && r.Ring(side) != []
      requires forall j :: 0 <= j < |r.Ring(side)| ==> Better(side, r.Price(r.Ring(side)[j]), price)
      modifies this`bidsByPrice, this`asksByPrice, this`bids, this`asks, levelPool.store, levelPool`items
      ensures levelPool.Valid() && LevelLinked(r, R(), l, o, |r.Ring(side)|, side, price)
    {
      hide LevelPrepared, LevelLinked, LinkBefore;
      ghost var ring, c := r.Ring(side), R();
      ReadyToLink(r, c, l, o, 0, side, price);
      LinkAfter(levelPool, levelPool.At(Head(side)).prev, l, ring[0]);
      SetHead(side, Head(side), InsertAt(ring, |ring|, l));
      LevelLinkedFrom(r, c, R(), l, o, ring[0], |ring|, side, price);
    }

    /** In front of `target`; the head moves exactly when the new price is better than its. */
    method LinkAt(l: nat, target: nat, ghost r: Rep<K>, ghost o: nat, ghost k: nat, side: Side, price: nat)
      requires levelPool.Valid() && LevelPrepared(r, R(), l, o, side, price)
      requires k < |r.Ring(side)| && target == r.Ring(side)[k]
      requires forall j :: 0 <= j < k ==> Better(side, r.Price(r.Ring(side)[j]), price)
      requires forall j :: k <= j < |r.Ring(side)| ==> Better(side, price, r.Price(r.Ring(side)[j]))
      modifies this`bidsByPrice, this`asksByPrice, this`bids, this`asks, levelPool.store, levelPool`items
      ensures levelPool.Valid() && LevelLinked(r, R(), l, o, k, side, price)
    {
      hide LevelPrepared, LevelLinked, LinkBefore;
      ghost var ring, c := r.Ring(side), R();
      var best := Head(side);
      ReadyToLink(r, c, l, o, k, side, price);
      HeadMoves(r, c, l, o, k, side, price);
      var head := if Better(side, price, levelPool.At(best).data.price) then l else best;
      LinkIn(levelPool, target, l);
      SetHead(side, head, InsertAt(ring, k, l));
      LevelLinkedFrom(r, c, R(), l, o, target, k, side, price);
    }

    static lemma {:induction false} HeadMoves(r: Rep<K>, c: Rep<K>, l: nat, o: nat, k: nat, side: Side, price: nat)
      requires LevelPrepared(r, c, l, o, side, price) && k < |r.Ring(side)|
      requires forall j :: 0 <= j < k ==> Better(side, r.Price(r.Ring(side)[j]), price)
      requires forall j :: k <= j < |r.Ring(side)| ==> Better(side, price, r.Price(r.Ring(side)[j]))
      ensures Better(side, price, r.Price(r.Ring(side)[0])) <==> k == 0
    {
    }

    method LinkLevel(l: nat, ghost r: Rep<K>, ghost o: nat, side: Side, price: nat) returns (ghost k: nat)
      requires levelPool.Valid() && LevelPrepared(r, R(), l, o, side, price)
      requires forall m :: m in r.Ring(side) ==> r.Price(m) != price
      modifies this`bidsByPrice, this`asksByPrice, this`bids, this`asks, levelPool.store, levelPool`items
      ensures levelPool.Valid() && LevelLinked(r, R(), l, o, k, side, price)
    {
      k := 0;
      if Head(side) == NULL {
        LinkFirst(l, r, o, side, price);
      } else {
        var target, addAfter;
        target, addAfter, k := FindTarget(side, price, r);
        if addAfter {
          LinkLast(l, r, o, side, price);
        } else {
          LinkAt(l, target, r, o, k, side, price);
        }
      }
    }

    // ----- adding an order

    /** What the source takes for granted of an order it adds: its key is not in use, the
        pools keep a free block, and no live level of another price or side has its slot. */
    ghost predicate Accepts(d: Order<K>)
      requires Valid()
      reads Repr, this, levelPool, levelPool.store, orderPool, orderPool.store, priceOrders
    {
      var l := R().priceIndex[Slot(d.price)];
      && d.key !in index
      && |orderPool.live| + 2 <= orderPool.store.Length
      && (l == NULL ==> |levelPool.live| + 2 <= levelPool.store.Length)
      && (l in levelPool.live ==> levelPool.items[l].data.side == d.side && levelPool.items[l].data.price == d.price)
    }

    method JoinLevel(l: nat, o: nat, d: Order<K>, ghost r: Rep<K>)
      requires PoolsValid() && OrderPrepared(r, R(), o, d) && l in r.liveLevels && l < |r.levels|
      requires r.levels[l].data.side == d.side && r.levels[l].data.price == d.price
      modifies orderPool.store, orderPool`items, this`index, this`queue
      ensures PoolsValid() && Bounded(r) && Appended(r, R(), l, o, d)
    {
      hide Inv, IsRing, Joined, LinkBefore, OrderPrepared, Appended;
      ghost var c := R();
      ReadyToAppend(r, c, l, o, d);
      LinkInQueue(orderPool, levelPool.At(l).data.first, o);
      index := index[d.key := o];
      queue := queue[l := queue[l] + [o]];
      AppendedFrom(r, c, R(), l, o, d);
    }

    method LinkAlone(o: nat, ghost r: Rep<K>, ghost d: Order<K>)
      requires orderPool.Valid() && o in orderPool.live && o < |r.orders|
      requires orderPool.items == r.orders[o := Node(d, NULL, NULL)]
      modifies orderPool.store, orderPool`items
      ensures orderPool.Valid() && IsRing(orderPool.items, [o]) && Joined(r.orders, orderPool.items, o, d, [])
    {
      SetPrev(orderPool, o, o);
      SetNext(orderPool, o, o);
      assert Linked(orderPool.items, [o], 0);
    }

    static lemma {:induction false} NoLevelAt(r: Rep<K>, side: Side, price: nat)
      requires Inv(r) && r.priceIndex[Slot(price)] == NULL
      ensures Bounded(r) && SideOk(r, side)
      ensures forall m :: m in r.Ring(side) ==> r.Price(m) != price
    {
    }

    /** The entries of the price index and of the client or order index. */
    method Record(l: nat, o: nat, d: Order<K>)
      requires PoolsValid() && priceOrders.Length == PRICE_LEVELS
      modifies priceOrders, this`index, this`queue
      ensures PoolsValid()
      ensures old(R()).priceIndex == old(priceOrders[..])
      ensures R() == old(R()).(priceIndex := old(priceOrders[..])[Slot(d.price) := l],
                               index := old(index)[d.key := o], queue := old(queue)[l := [o]])
    {
      priceOrders[Slot(d.price)] := l;
      index := index[d.key := o];
      queue := queue[l := [o]];
    }

    /** A level block for the order, linked into its side at the right place. */
    method MakeLevel(o: nat, d: Order<K>, ghost r: Rep<K>) returns (l: nat, ghost k: nat)
      requires PoolsValid() && OrderLinked(r, R(), o, d) && r.priceIndex[Slot(d.price)] == NULL
      requires |levelPool.live| + 2 <= levelPool.store.Length
      modifies this`bidsByPrice, this`asksByPrice, this`bids, this`asks
      modifies levelPool, levelPool.store
      ensures PoolsValid() && Bounded(r) && l !in r.liveLevels
      ensures LevelLinked(r, R(), l, o, k, d.side, d.price) && OrderAlone(r, R(), l, o, d)
    {
      hide Inv, SideOk, IsRing, Joined, LevelLinked;
      NoLevelAt(r, d.side, d.price);
      var full;
      l, full := levelPool.Allocate(Node(LevelData(d.side, d.price, o), NULL, NULL));
      k := LinkLevel(l, r, o, d.side, d.price);
    }

    method OpenLevel(o: nat, d: Order<K>, ghost r: Rep<K>) returns (l: nat, ghost k: nat)
      requires PoolsValid() && OrderPrepared(r, R(), o, d) && r.priceIndex[Slot(d.price)] == NULL
      requires |levelPool.live| + 2 <= levelPool.store.Length
      modifies Repr
      ensures PoolsValid() && Bounded(r) && Opened(r, R(), l, o, k, d)
    {
      hide Inv, IsRing, Joined, Opened, LevelLinked;
      LinkAlone(o, r, d);
      l, k := MakeLevel(o, d, r);
      ghost var m := R();
      Record(l, o, d);
      OpenedFrom(r, m, R(), l, o, k, d);
    }

    method AddOrder(d: Order<K>)
      requires Valid() && Accepts(d)
      modifies Repr
      ensures Valid()
      ensures Contents() == old(Contents()).With(d.side, Place(old(Contents()).On(d.side), d))
    {
      ghost var r := R();
      var o, full := orderPool.Allocate(Node(d, NULL, NULL));
      var l := priceOrders[Slot(d.price)];
      if l == NULL {
        ghost var k;
        l, k := OpenLevel(o, d, r);
        OpenedBook(r, R(), l, o, k, d);
      } else {
        assert SlotOk(r, Slot(d.price));
        JoinLevel(l, o, d, r);
        AppendedBook(r, R(), l, o, d);
      }
    }

    // ----- removing an order

    /** The order leaves a queue that keeps others. */
    /** The links around an order that is not alone, and the first order of its level. */
    method DropLinks(i: nat, l: nat, ghost r: Rep<K>, ghost j: nat)
      requires PoolsValid() && r == R() && Inv(r) && i in r.liveOrders && l in r.liveLevels && l in r.queue
      requires j < |r.queue[l]| && r.queue[l][j] == i && 2 <= |r.queue[l]|
      modifies levelPool.store, levelPool`items, orderPool.store, orderPool`items
      ensures PoolsValid() && l < |r.levels| && i < |r.orders|
      ensures InBounds(r.orders, r.orders[i].prev) && InBounds(r.orders, r.orders[i].next)
      ensures R() == r.(orders := Unlink(r.orders, i),
                        levels := if j == 0
                          then r.levels[l := r.levels[l].(data := r.levels[l].data.(first := r.orders[i].next))]
                          else r.levels)
    {
      hide Inv, Unlink;
      ReadyToDrop(r, i, l, j);
      var after := orderPool.At(i).next;
      UnlinkFrom(orderPool, i);
      var level := levelPool.At(l);
      if level.data.first == i {
        levelPool.Put(l, level.(data := level.data.(first := after)));
      }
    }

    /** The order leaves a queue that keeps others. */
    method DropOrder(i: nat, l: nat, ghost r: Rep<K>, ghost j: nat)
      requires PoolsValid() && r == R() && Inv(r) && i in r.liveOrders && l in r.liveLevels && l in r.queue
      requires j < |r.queue[l]| && r.queue[l][j] == i && 2 <= |r.queue[l]|
      modifies Repr
      ensures PoolsValid() && Bounded(r) && Dropped(r, R(), l, j)
    {
      hide Inv, Dropped, Unlink;
      ReadyToDrop(r, i, l, j);
      var key := orderPool.At(i).data.key;
      DropLinks(i, l, r, j);
      index := index - {key};
      orderPool.Deallocate(i);
      queue := queue[l := RemoveAt(queue[l], j)];
      DroppedFrom(r, R(), i, l, j);
    }

    method UnlinkLevel(l: nat, side: Side, ghost r: Rep<K>, ghost k: nat)
      requires PoolsValid() && r == R() && Inv(r) && l in r.liveLevels && l < |r.levels|
      requires side == r.levels[l].data.side && k < |r.Ring(side)| && r.Ring(side)[k] == l
      modifies this`bidsByPrice, this`asksByPrice, this`bids, this`asks, levelPool.store, levelPool`items
      ensures PoolsValid() && InBounds(r.levels, r.levels[l].prev) && InBounds(r.levels, r.levels[l].next)
      ensures var ring := r.Ring(side);
        R() == r.(levels := if |ring| == 1 then r.levels else Unlink(r.levels, l))
                .WithRing(side,
                          if |ring| == 1 then NULL else if k == 0 then r.levels[l].next else ring[0],
                          RemoveAt(ring, k))
    {
      hide Inv, Unlink;
      ReadyToClose(r, l, k, side);
      ghost var ring := r.Ring(side);
      var best, next := Head(side), levelPool.At(l).next;
      if next == l {
        SetHead(side, NULL, RemoveAt(ring, k));
      } else {
        UnlinkFrom(levelPool, l);
        SetHead(side, if l == best then next else best, RemoveAt(ring, k));
      }
    }

    /** The level leaves its ring and the price index. */
    method RemoveLevel(l: nat, side: Side, price: nat, ghost r: Rep<K>, ghost k: nat)
      requires PoolsValid() && r == R() && Inv(r) && l in r.liveLevels && l < |r.levels| && l in r.queue
      requires side == r.levels[l].data.side && price == r.Price(l)
      requires k < |r.Ring(side)| && r.Ring(side)[k] == l && |r.priceIndex| == PRICE_LEVELS
      modifies Repr
      ensures PoolsValid() && InBounds(r.levels, r.levels[l].prev) && InBounds(r.levels, r.levels[l].next)
      ensures var ring := r.Ring(side);
        R() == r.(levels := if |ring| == 1 then r.levels else Unlink(r.levels, l),
                  liveLevels := r.liveLevels - {l}, priceIndex := r.priceIndex[Slot(price) := NULL],
                  queue := r.queue - {l})
                .WithRing(side,
                          if |ring| == 1 then NULL else if k == 0 then r.levels[l].next else ring[0],
                          RemoveAt(ring, k))
    {
      hide Inv, Unlink;
      UnlinkLevel(l, side, r, k);
      priceOrders[Slot(price)] := NULL;
      levelPool.Deallocate(l);
      queue := queue - {l};
    }

    /** The last order of a level leaves, and the level with it. */
    method CloseLevel(i: nat, l: nat, ghost r: Rep<K>, ghost k: nat, side: Side)
      requires PoolsValid() && r == R() && Inv(r) && l in r.liveLevels && l < |r.levels| && l in r.queue
      requires r.queue[l] == [i] && i in r.liveOrders && i < |r.orders| && side == r.levels[l].data.side
      requires r.orders[i].data.price == r.Price(l) && |r.priceIndex| == PRICE_LEVELS
      requires k < |r.Ring(side)| && r.Ring(side)[k] == l
      modifies Repr
      ensures PoolsValid() && Bounded(r) && Closed(r, R(), l, k)
    {
      hide Inv, Closed, Unlink;
      RemoveLevel(l, side, orderPool.At(i).data.price, r, k);
      index := index - {orderPool.At(i).data.key};
      orderPool.Deallocate(i);
      ClosedFrom(r, R(), i, l, k, side);
    }

    method RemoveOrder(i: nat)
      requires Valid() && i in orderPool.live
      requires UniqueId(Contents().On(R().orders[i].data.side), R().orders[i].data)
      modifies Repr
      ensures Valid()
      ensures var d := old(orderPool.items[i].data);
        Contents() == old(Contents()).With(d.side, Remove(old(Contents()).On(d.side), d.id))
    {
      hide Inv, UniqueId, Dropped, Closed;
      ghost var r := R();
      ghost var gl, k, j := OrderPosition(r, i);
      var order := orderPool.At(i);
      var l := priceOrders[Slot(order.data.price)];
      ReadyToDrop(r, i, l, j);
      if order.prev == i {
        CloseLevel(i, l, r, k, order.data.side);
        ClosedBook(r, R(), l, k, order.data);
      } else {
        DropOrder(i, l, r, j);
        DroppedBook(r, R(), l, j, k, order.data);
      }
    }

    // ----- changing a quantity, and reading

    method SetOrderQty(i: nat, qty: nat)
      requires Valid() && i in orderPool.live
      requires UniqueId(Contents().On(R().orders[i].data.side), R().orders[i].data)
      modifies Repr
      ensures Valid() && orderPool.live == old(orderPool.live) && levelPool.live == old(levelPool.live)
      ensures var d := old(orderPool.items[i].data);
        && orderPool.items[i].data == d.(qty := qty)
        && Contents() == old(Contents()).With(d.side, SetQty(old(Contents()).On(d.side), d.id, qty))
    {
      hide Inv, UniqueId;
      InvReadable(R());
      ghost var r := R();
      var node := orderPool.At(i);
      LiveIsBounded(r, i);
      orderPool.Put(i, node.(data := node.data.(qty := qty)));
      RequantifiedBook(r, R(), i, qty, node.data);
    }

    static lemma {:induction false} LiveIsBounded(r: Rep<K>, i: nat)
      requires Inv(r) && i in r.liveOrders
      ensures Bounded(r) && i < |r.orders|
    {
    }

    /** The first order of the best level: the next one to trade. */
    method BestOrder(side: Side) returns (o: int)
      requires Valid()
      ensures o == NULL <==> Contents().On(side) == []
      ensures o != NULL ==> o in orderPool.live && orderPool.items[o].data == Contents().On(side)[0]
    {
      BestIsFirst(R(), side);
      var h := Head(side);
      o := if h == NULL then NULL else levelPool.At(h).data.first;
    }

    /** Null, or the live order with this key. */
    method Find(key: K) returns (o: int)
      requires Valid()
      ensures o == NULL <==> FreshKey(Contents(), key)
      ensures o != NULL
        ==> o in orderPool.live && orderPool.items[o].data.key == key && InBook(Contents(), orderPool.items[o].data)
    {
      KeyMeans(R(), key);
      o := if key in index then index[key] else NULL;
    }

    static lemma {:induction false} KeyMeans(r: Rep<K>, key: K)
      requires Inv(r)
      ensures Readable(r) && (key !in r.index <==> FreshKey(BookOf(r), key))
      ensures key in r.index ==> (
        r.index[key] in r.liveOrders && r.orders[r.index[key]].data.key == key
          && InBook(BookOf(r), r.orders[r.index[key]].data))
    {
      InvReadable(r);
      if key in r.index {
        assert KeyOk(r, key);
        ToFlat(r, r.index[key]);
      } else {
        forall d | InBook(BookOf(r), d)
          ensures d.key != key
        {
          var i := FromFlat(r, if d in Flat(r, Buy) then Buy else Sell, d);
          assert OrderNodeOk(r, i);
        }
      }
    }

    /** One more than the priority of the last order at the price, 1 at a new price. */
    method NextPriority(side: Side, price: nat) returns (p: nat)
      requires Valid() && OwnsSlot(Contents(), side, price)
      ensures p == LastPriority(Contents().On(side), price) + 1
    {
      SlotMeans(R(), side, price);
      var l := priceOrders[Slot(price)];
      if l == NULL {
        FreeSlot(R(), side, price);
        NoPriorityAt(Flat(R(), side), price);
        p := 1;
      } else {
        LastOfLevel(R(), l);
        p := orderPool.At(orderPool.At(levelPool.At(l).data.first).prev).data.priority + 1;
      }
    }

    /** When the book owns the slot, the price index returns the level at that price and
        side, or null when there is none. */
    static lemma {:induction false} SlotMeans(r: Rep<K>, side: Side, price: nat)
      requires Inv(r) && Readable(r) && OwnsSlot(BookOf(r), side, price)
      ensures var l := r.priceIndex[Slot(price)];
        l == NULL || (l in r.liveLevels && r.levels[l].data.side == side && r.levels[l].data.price == price)
    {
      var l := r.priceIndex[Slot(price)];
      if l != NULL {
        assert SlotOk(r, Slot(price));
        QueueFacts(r, l);
        assert r.queue[l][0] in r.queue[l];
        ToFlat(r, r.queue[l][0]);
        assert InBook(BookOf(r), r.orders[r.queue[l][0]].data);
      }
    }

    // ----- emptying the book

    /** Every order in the index goes back to its pool. */
    method FreeOrders(ghost r: Rep<K>)
      requires PoolsValid() && r == R() && Inv(r)
      modifies Repr
      ensures PoolsValid() && orderPool.live == {} && R() == r.(liveOrders := {})
    {
      hide Inv;
      AllIndexed(r);
      var left := index.Keys;
      while left != {}
        invariant PoolsValid() && left <= index.Keys
        invariant R() == r.(liveOrders := orderPool.live)
        invariant forall i :: i in orderPool.live <==> i in r.liveOrders && r.orders[i].data.key in left
        decreases left
      {
        var k :| k in left;
        OneIndexed(r, k);
        orderPool.Deallocate(index[k]);
        left := left - {k};
      }
      assert forall i :: i !in orderPool.live;
    }

    static lemma {:induction false} AllIndexed(r: Rep<K>)
      requires Inv(r)
      ensures forall i :: i in r.liveOrders ==> i < |r.orders| && r.orders[i].data.key in r.index
    {
      forall i | i in r.liveOrders
        ensures r.orders[i].data.key in r.index
      {
        assert OrderNodeOk(r, i);
      }
    }

    static lemma {:induction false} OneIndexed(r: Rep<K>, k: K)
      requires Inv(r) && k in r.index
      ensures forall i :: i in r.liveOrders ==> i < |r.orders|
      ensures r.index[k] in r.liveOrders
      ensures forall i :: i in r.liveOrders ==> (r.orders[i].data.key == k <==> i == r.index[k])
    {
      assert KeyOk(r, k);
      forall i | i in r.liveOrders
        ensures r.orders[i].data.key == k <==> i == r.index[k]
      {
        assert OrderNodeOk(r, i);
      }
    }

    /** The levels of one ring go back to their pool, the head last. */
    method FreeLevels(head: int, ghost ring: seq<nat>)
      requires levelPool.Valid() && IsRing(levelPool.items, ring) && head == (if ring == [] then NULL else ring[0])
      requires forall l :: l in ring ==> l in levelPool.live
      modifies levelPool, levelPool.store
      ensures levelPool.Valid() && levelPool.items == old(levelPool.items)
      ensures forall l :: l in levelPool.live <==> l in old(levelPool.live) && l !in ring
    {
      if head == NULL {
        return;
      }
      ghost var levels := levelPool.items;
      Neighbours(levels, ring, 0);
      var l := levelPool.At(head).next;
      ghost var k := 1;
      while l != head
        invariant 1 <= k <= |ring| && l == ring[if k == |ring| then 0 else k]
        invariant levelPool.Valid() && levelPool.items == levels
        invariant forall m :: m in levelPool.live <==> m in old(levelPool.live) && m !in ring[1..k]
        decreases |ring| - k
      {
        Neighbours(levels, ring, k);
        assert ring[k] in ring && ring[k] !in ring[1..k] && ring[1..k + 1] == ring[1..k] + [ring[k]];
        levelPool.Deallocate(l);
        l := levelPool.At(l).next;
        k := k + 1;
      }
      assert ring[0] in ring && ring[0] !in ring[1..];
      assert forall m :: m in ring <==> m == ring[0] || m in ring[1..];
      levelPool.Deallocate(head);
    }

    method Clear()
      requires Valid()
      modifies Repr
      ensures Valid() && Contents() == Book([], []) && orderPool.live == {} && levelPool.live == {}
    {
      hide LevelsInv, OrdersInv, SlotsInv, SideOk;
      ghost var r := R();
      AllInRings(r);
      FreeOrders(r);
      FreeLevels(bidsByPrice, bids);
      FreeLevels(asksByPrice, asks);
      assert forall l :: l !in levelPool.live;
      Reset();
    }

    static lemma {:induction false} AllInRings(r: Rep<K>)
      requires Inv(r)
      ensures |r.priceIndex| == PRICE_LEVELS
      ensures IsRing(r.levels, r.bids) && r.bidsHead == if r.bids == [] then NULL else r.bids[0]
      ensures IsRing(r.levels, r.asks) && r.asksHead == if r.asks == [] then NULL else r.asks[0]
      ensures forall l :: l in r.liveLevels <==> l in r.bids || l in r.asks
      ensures forall l :: l in r.bids ==> l !in r.asks
    {
      SideFacts(r, Buy);
      SideFacts(r, Sell);
      assert forall l :: l in r.liveLevels ==> LevelNodeOk(r, l);
    }

    method Reset()
      requires PoolsValid() && levelPool.live == {} && orderPool.live == {} && priceOrders.Length == PRICE_LEVELS
      modifies this, priceOrders
      ensures PoolsValid() && Inv(R()) && levelPool.live == {} && orderPool.live == {}
      ensures Valid() && Contents() == Book([], [])
    {
      hide Inv;
      forall j | 0 <= j < priceOrders.Length {
        priceOrders[j] := NULL;
      }
      bidsByPrice, asksByPrice := NULL, NULL;
      index, bids, asks, queue := map[], [], [], map[];
      VacantIsEmpty(R());
    }
  }
}
