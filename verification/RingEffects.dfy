/** What the five changes do to the book a representation stands for. */
module RingEffects {
  import opened Types
  import opened Orders
  import opened Levels
  import opened Rings
  import opened RingRep
  import opened RingOps

  ghost function Flat<K>(r: Rep<K>, side: Side): seq<Order<K>>
    requires Readable(r)
  {
    Flatten(SideLevels(r, side))
  }

  ghost function BookOf<K>(r: Rep<K>): Book<K>
    requires Readable(r)
  {
    Book(Flat(r, Buy), Flat(r, Sell))
  }

  lemma {:induction false} SameLevel<K>(r: Rep<K>, s: Rep<K>, m: nat)
    requires Readable(r) && Readable(s) && m in r.liveLevels && m in s.liveLevels
    requires s.queue[m] == r.queue[m] && s.levels[m].data.price == r.levels[m].data.price
    requires forall i :: i in r.queue[m] ==> i < |s.orders| && s.orders[i].data == r.orders[i].data
    ensures LevelOf(s, m) == LevelOf(r, m)
  {
  }

  ghost predicate SameLevelsOn<K>(r: Rep<K>, s: Rep<K>, side: Side, except: nat)
    requires Readable(r) && Readable(s)
  {
    forall m :: m in r.Ring(side) && m != except ==> m in s.liveLevels && LevelOf(s, m) == LevelOf(r, m)
  }

  lemma {:induction false} LevelsUpdated<K>(r: Rep<K>, s: Rep<K>, side: Side, k: nat, l: nat)
    requires Readable(r) && Readable(s) && s.Ring(side) == r.Ring(side) && Distinct(r.Ring(side))
    requires k < |r.Ring(side)| && r.Ring(side)[k] == l && SameLevelsOn(r, s, side, l)
    ensures l in s.liveLevels
    ensures SideLevels(s, side) == SideLevels(r, side)[k := LevelOf(s, l)]
  {
  }

  lemma {:induction false} LevelsKept<K>(r: Rep<K>, s: Rep<K>, side: Side, l: nat)
    requires Readable(r) && Readable(s) && s.Ring(side) == r.Ring(side)
    requires l !in r.Ring(side) && SameLevelsOn(r, s, side, l)
    ensures SideLevels(s, side) == SideLevels(r, side)
  {
  }

  lemma {:induction false} QueueDataSplits<K>(orders: seq<Node<Order<K>>>, a: seq<nat>, b: seq<nat>)
    requires forall i :: i in a + b ==> i < |orders|
    ensures (forall i :: i in a ==> i < |orders|) && (forall i :: i in b ==> i < |orders|)
    ensures QueueData(orders, a + b) == QueueData(orders, a) + QueueData(orders, b)
  {
    assert forall i :: i in a ==> i in a + b;
    assert forall i :: i in b ==> i in a + b;
  }

  lemma {:induction false} QueueDataFrame<K>(a: seq<Node<Order<K>>>, b: seq<Node<Order<K>>>, q: seq<nat>)
    requires forall i :: i in q ==> i < |a| && i < |b| && a[i].data == b[i].data
    ensures QueueData(a, q) == QueueData(b, q)
  {
  }

  lemma {:induction false} OneSide<K>(r: Rep<K>, side: Side, l: nat)
    requires Bounded(r) && SideOk(r, side) && l in r.liveLevels && r.levels[l].data.side != side
    ensures l !in r.Ring(side)
  {
  }

  /** A change that keeps level nodes: level k of `side` is rewritten, all else stays. */
  lemma {:induction false} BookUpdated<K>(r: Rep<K>, s: Rep<K>, side: Side, k: nat, l: nat, x: Level<K>)
    requires Readable(r) && Readable(s) && SameSide(r, s, Buy) && SameSide(r, s, Sell)
    requires Distinct(r.Ring(side)) && k < |r.Ring(side)| && r.Ring(side)[k] == l && l !in r.Ring(Opposite(side))
    requires SameLevelsOn(r, s, Buy, l) && SameLevelsOn(r, s, Sell, l)
    requires l in s.liveLevels && LevelOf(s, l) == x
    ensures k < |SideLevels(r, side)|
    ensures BookOf(s) == BookOf(r).With(side, Flatten(SideLevels(r, side)[k := x]))
  {
    assert side == Buy || side == Sell;
    LevelsUpdated(r, s, side, k, l);
    LevelsKept(r, s, Opposite(side), l);
  }

  lemma {:induction false} LevelPosition<K>(r: Rep<K>, l: nat) returns (k: nat)
    requires Bounded(r) && LevelsInv(r) && SideOk(r, Buy) && SideOk(r, Sell) && l in r.liveLevels
    ensures var ring := r.Ring(r.levels[l].data.side); k < |ring| && ring[k] == l && Distinct(ring)
    ensures l !in r.Ring(Opposite(r.levels[l].data.side))
  {
    var side := r.levels[l].data.side;
    assert LevelNodeOk(r, l);
    assert side == Buy || side == Sell;
    k :| 0 <= k < |r.Ring(side)| && r.Ring(side)[k] == l;
    OneSide(r, Opposite(side), l);
  }

  /** Order i of the book sits in the queue of the level its slot points at. */
  lemma {:induction false} QueuePosition<K(!new)>(r: Rep<K>, i: nat) returns (l: nat, j: nat)
    requires Inv(r) && i in r.liveOrders
    ensures Readable(r) && l in r.liveLevels && l == r.priceIndex[Slot(r.orders[i].data.price)]
    ensures r.levels[l].data.side == r.orders[i].data.side && r.levels[l].data.price == r.orders[i].data.price
    ensures j < |r.queue[l]| && r.queue[l][j] == i
  {
    hide IsRing, SideOk, SlotsInv;
    InvReadable(r);
    assert OrderNodeOk(r, i);
    l := r.priceIndex[Slot(r.orders[i].data.price)];
    assert QueueOk(r, l);
    j :| 0 <= j < |r.queue[l]| && r.queue[l][j] == i;
  }

  /** The same position in the levels of its side. */
  lemma {:induction false} OrderPosition<K(!new)>(r: Rep<K>, i: nat) returns (l: nat, k: nat, j: nat)
    requires Inv(r) && i in r.liveOrders
    ensures Readable(r) && l in r.liveLevels && l == r.priceIndex[Slot(r.orders[i].data.price)]
    ensures r.levels[l].data.side == r.orders[i].data.side && r.levels[l].data.price == r.orders[i].data.price
    ensures j < |r.queue[l]| && r.queue[l][j] == i
    ensures var ls := SideLevels(r, r.orders[i].data.side);
      k < |ls| && j < |ls[k].orders| && ls[k].orders[j] == r.orders[i].data
    ensures k < |r.Ring(r.orders[i].data.side)| && r.Ring(r.orders[i].data.side)[k] == l
  {
    hide SideOk, LevelsInv, OrdersInv, SlotsInv;
    l, j := QueuePosition(r, i);
    k := LevelPosition(r, l);
  }

  lemma {:induction false} OthersKeepLevels<K>(r: Rep<K>, s: Rep<K>, l: nat, o: nat)
    requires Readable(r) && Readable(s) && LevelsInv(r) && l in r.liveLevels
    requires forall m :: m in r.liveLevels && m != l ==> (
      m in s.liveLevels && s.queue[m] == r.queue[m] && s.levels[m].data.price == r.levels[m].data.price)
    requires |s.orders| == |r.orders| && forall i :: 0 <= i < |r.orders| && i != o ==>
      s.orders[i].data == r.orders[i].data
    requires o in r.queue[l] || o !in r.liveOrders
    ensures SameLevelsOn(r, s, Buy, l) && SameLevelsOn(r, s, Sell, l)
  {
    forall m | m in r.liveLevels && m != l
      ensures LevelOf(s, m) == LevelOf(r, m)
    {
      assert QueueOk(r, m) && QueueOk(r, l);
      SlotsDistinct(r, l, m);
      assert o !in r.queue[m];
      SameLevel(r, s, m);
    }
  }

  // ----- the five changes

  lemma {:induction false} AppendedLevel<K>(r: Rep<K>, s: Rep<K>, l: nat, o: nat, d: Order<K>)
    requires Readable(r) && Readable(s) && Appended(r, s, l, o, d) && QueueOk(r, l) && LevelsInv(r)
    ensures LevelOf(s, l) == Level(d.price, LevelOf(r, l).orders + [d])
    ensures SameLevelsOn(r, s, Buy, l) && SameLevelsOn(r, s, Sell, l)
  {
    hide IsRing, LevelsInv;
    OthersKeepLevels(r, s, l, o);
    QueueDataSplits(s.orders, r.queue[l], [o]);
    QueueDataFrame(r.orders, s.orders, r.queue[l]);
    assert QueueData(s.orders, [o]) == [d];
  }

  lemma {:induction false} AppendedBook<K(!new)>(r: Rep<K>, s: Rep<K>, l: nat, o: nat, d: Order<K>)
    requires Inv(r) && Appended(r, s, l, o, d)
    ensures Inv(s) && Readable(r) && Readable(s)
    ensures BookOf(s) == BookOf(r).With(d.side, Place(BookOf(r).On(d.side), d))
  {
    AppendedInv(r, s, l, o, d);
    InvReadable(r);
    InvReadable(s);
    var k := LevelPosition(r, l);
    assert QueueOk(r, l);
    LevelsOfInv(r, d.side);
    hide Inv, Bounded, SideOk, IsRing, Joined, LevelsInv, QueueOk;
    AppendedLevel(r, s, l, o, d);
    BookUpdated(r, s, d.side, k, l, LevelOf(s, l));
    AppendIsPlace(SideLevels(r, d.side), k, d);
  }

  lemma {:induction false} OpenedLevel<K>(r: Rep<K>, s: Rep<K>, l: nat, o: nat, k: nat, d: Order<K>)
    requires Readable(r) && Readable(s) && Opened(r, s, l, o, k, d)
    ensures LevelOf(s, l) == Level(d.price, [d])
  {
  }

  lemma {:induction false} OpenedKeepsLevels<K>(r: Rep<K>, s: Rep<K>, l: nat, o: nat, k: nat, d: Order<K>)
    requires Readable(r) && Readable(s) && Opened(r, s, l, o, k, d) && LevelsInv(r)
    ensures forall m :: m in r.liveLevels ==> m in s.liveLevels && LevelOf(s, m) == LevelOf(r, m)
  {
    hide IsRing, LevelOf;
    forall m | m in r.liveLevels
      ensures m != l && LevelOf(s, m) == LevelOf(r, m)
    {
      assert QueueOk(r, m);
      SameLevel(r, s, m);
    }
  }

  lemma {:induction false} OpenedLevels<K>(r: Rep<K>, s: Rep<K>, l: nat, o: nat, k: nat, d: Order<K>)
    requires Readable(r) && Readable(s) && Opened(r, s, l, o, k, d) && LevelsInv(r)
    requires SideOk(r, d.side) && SideOk(r, Opposite(d.side))
    ensures k <= |SideLevels(r, d.side)|
    ensures SideLevels(s, d.side) == InsertAt(SideLevels(r, d.side), k, Level(d.price, [d]))
    ensures SideLevels(s, Opposite(d.side)) == SideLevels(r, Opposite(d.side))
  {
    hide IsRing, LevelsInv, Joined, LevelOf, InsertAt, SideLevels, Descends;
    OpenedLevel(r, s, l, o, k, d);
    OpenedKeepsLevels(r, s, l, o, k, d);
    SideInserted(r, s, d.side, k, l);
    LevelsKept(r, s, Opposite(d.side), l);
  }

  lemma {:induction false} SideInserted<K>(r: Rep<K>, s: Rep<K>, side: Side, k: nat, l: nat)
    requires Readable(r) && Readable(s) && l in s.liveLevels
    requires k <= |r.Ring(side)| && s.Ring(side) == InsertAt(r.Ring(side), k, l)
    requires forall m :: m in r.liveLevels ==> m in s.liveLevels && LevelOf(s, m) == LevelOf(r, m)
    ensures k <= |SideLevels(r, side)|
    ensures SideLevels(s, side) == InsertAt(SideLevels(r, side), k, LevelOf(s, l))
  {
    var ring := r.Ring(side);
    assert forall i :: 0 <= i < |ring| ==> ring[i] in ring;
  }

  lemma {:induction false} SideRemoved<K>(r: Rep<K>, s: Rep<K>, side: Side, k: nat)
    requires Readable(r) && Readable(s) && Distinct(r.Ring(side))
    requires k < |r.Ring(side)| && s.Ring(side) == RemoveAt(r.Ring(side), k)
    requires SameLevelsOn(r, s, side, r.Ring(side)[k])
    ensures k < |SideLevels(r, side)| && SideLevels(s, side) == RemoveAt(SideLevels(r, side), k)
  {
  }

  lemma {:induction false} QueueDataRemoved<K>(orders: seq<Node<Order<K>>>, q: seq<nat>, j: nat)
    requires j < |q| && (forall i :: i in q ==> i < |orders|)
    ensures forall i :: i in RemoveAt(q, j) ==> i < |orders|
    ensures QueueData(orders, RemoveAt(q, j)) == RemoveAt(QueueData(orders, q), j)
  {
    assert forall i :: i in RemoveAt(q, j) ==> i in q;
  }

  lemma {:induction false} OpenedPrices<K>(r: Rep<K>, s: Rep<K>, l: nat, o: nat, k: nat, d: Order<K>)
    requires Readable(r) && Opened(r, s, l, o, k, d)
    ensures var ls := SideLevels(r, d.side);
      && (forall i :: 0 <= i < k ==> Better(d.side, ls[i].price, d.price))
      && (forall i :: k <= i < |ls| ==> Better(d.side, d.price, ls[i].price))
  {
  }

  lemma {:induction false} OpenedBook<K(!new)>(r: Rep<K>, s: Rep<K>, l: nat, o: nat, k: nat, d: Order<K>)
    requires Inv(r) && Opened(r, s, l, o, k, d)
    ensures Inv(s) && Readable(r) && Readable(s)
    ensures BookOf(s) == BookOf(r).With(d.side, Place(BookOf(r).On(d.side), d))
  {
    hide SideOk, IsRing, Joined, LevelsInv, SideLevels, InsertAt, SlotsInv, OrdersInv, LevelsOk;
    OpenedInv(r, s, l, o, k, d);
    InvReadable(r);
    InvReadable(s);
    EitherSide(r, d.side);
    OpenedLevels(r, s, l, o, k, d);
    LevelsOfInv(r, d.side);
    OpenedPrices(r, s, l, o, k, d);
    NewLevelIsPlace(SideLevels(r, d.side), k, d);
  }

  lemma {:induction false} DroppedLevel<K>(r: Rep<K>, s: Rep<K>, l: nat, j: nat)
    requires Readable(r) && Readable(s) && Dropped(r, s, l, j) && LevelsInv(r)
    ensures j < |LevelOf(r, l).orders|
    ensures LevelOf(s, l) == Level(r.Price(l), RemoveAt(LevelOf(r, l).orders, j))
    ensures SameLevelsOn(r, s, Buy, l) && SameLevelsOn(r, s, Sell, l)
  {
    hide IsRing, LevelsInv;
    OthersKeepLevels(r, s, l, r.queue[l][j]);
    QueueDataRemoved(r.orders, r.queue[l], j);
    QueueDataFrame(r.orders, s.orders, RemoveAt(r.queue[l], j));
  }

  lemma {:induction false} DroppedBook<K(!new)>(r: Rep<K>, s: Rep<K>, l: nat, j: nat, k: nat, d: Order<K>)
    requires Inv(r) && Dropped(r, s, l, j) && d == r.orders[r.queue[l][j]].data
    requires Readable(r) && d.side == r.levels[l].data.side && UniqueId(Flat(r, d.side), d)
    requires k < |r.Ring(d.side)| && r.Ring(d.side)[k] == l
    ensures Inv(s) && Readable(s)
    ensures BookOf(s) == BookOf(r).With(d.side, Remove(BookOf(r).On(d.side), d.id))
  {
    DroppedInv(r, s, l, j);
    InvReadable(s);
    var k' := LevelPosition(r, l);
    assert k' == k;
    hide Inv, Bounded, SideOk, IsRing, Relinked, UniqueId;
    DroppedLevel(r, s, l, j);
    BookUpdated(r, s, d.side, k, l, LevelOf(s, l));
    DropOrderIsRemove(SideLevels(r, d.side), k, j);
  }

  lemma {:induction false} RingDistinct<K>(r: Rep<K>, side: Side)
    requires Bounded(r) && SideOk(r, side)
    ensures Distinct(r.Ring(side))
  {
  }

  lemma {:induction false} ClosedKeepsLevels<K>(r: Rep<K>, s: Rep<K>, l: nat, k: nat)
    requires Readable(r) && Readable(s) && Closed(r, s, l, k)
    ensures forall m :: m in r.liveLevels && m != l ==> m in s.liveLevels && LevelOf(s, m) == LevelOf(r, m)
  {
    hide IsRing, LevelOf;
    forall m | m in r.liveLevels && m != l
      ensures m in s.liveLevels && LevelOf(s, m) == LevelOf(r, m)
    {
      SameLevel(r, s, m);
    }
  }

  lemma {:induction false} ClosedLevels<K>(r: Rep<K>, s: Rep<K>, l: nat, k: nat)
    requires Readable(r) && Readable(s) && Closed(r, s, l, k) && LevelsInv(r)
    requires SideOk(r, r.levels[l].data.side) && SideOk(r, Opposite(r.levels[l].data.side))
    ensures var side := r.levels[l].data.side;
      && k < |SideLevels(r, side)|
      && SideLevels(s, side) == RemoveAt(SideLevels(r, side), k)
      && SideLevels(s, Opposite(side)) == SideLevels(r, Opposite(side))
  {
    hide IsRing, SideOk, LevelsInv, Relinked, LevelOf;
    var side := r.levels[l].data.side;
    RingDistinct(r, side);
    OneSide(r, Opposite(side), l);
    ClosedKeepsLevels(r, s, l, k);
    SideRemoved(r, s, side, k);
    LevelsKept(r, s, Opposite(side), l);
  }

  lemma {:induction false} ClosedBook<K(!new)>(r: Rep<K>, s: Rep<K>, l: nat, k: nat, d: Order<K>)
    requires Inv(r) && Closed(r, s, l, k) && d == r.orders[r.queue[l][0]].data
    requires Readable(r) && d.side == r.levels[l].data.side && UniqueId(Flat(r, d.side), d)
    ensures Inv(s) && Readable(s)
    ensures BookOf(s) == BookOf(r).With(d.side, Remove(BookOf(r).On(d.side), d.id))
  {
    ClosedInv(r, s, l, k);
    InvReadable(s);
    assert SideOk(r, d.side) && SideOk(r, Opposite(d.side));
    hide Inv, Bounded, SideOk, IsRing, Relinked, UniqueId;
    ClosedLevels(r, s, l, k);
    DropLevelIsRemove(SideLevels(r, d.side), k);
  }

  lemma {:induction false} RequantifiedLevel<K>(r: Rep<K>, s: Rep<K>, l: nat, j: nat, o: nat, qty: nat)
    requires Readable(r) && Readable(s) && Requantified(r, s, o, qty) && LevelsInv(r)
    requires l in r.liveLevels && j < |r.queue[l]| && r.queue[l][j] == o && QueueOk(r, l)
    ensures j < |LevelOf(r, l).orders|
    ensures var os := LevelOf(r, l).orders; LevelOf(s, l) == Level(r.Price(l), os[j := os[j].(qty := qty)])
    ensures SameLevelsOn(r, s, Buy, l) && SameLevelsOn(r, s, Sell, l)
  {
    var q := r.queue[l];
    assert forall i :: 0 <= i < |q| ==> q[i] in q;
    assert forall i :: 0 <= i < |q| && i != j ==> q[i] != o;
    OthersKeepLevels(r, s, l, o);
  }

  lemma {:induction false} RequantifiedBook<K(!new)>(r: Rep<K>, s: Rep<K>, o: nat, qty: nat, d: Order<K>)
    requires Inv(r) && Requantified(r, s, o, qty) && d == r.orders[o].data
    requires Readable(r) && UniqueId(Flat(r, d.side), d)
    ensures Inv(s) && Readable(s)
    ensures BookOf(s) == BookOf(r).With(d.side, SetQty(BookOf(r).On(d.side), d.id, qty))
  {
    RequantifiedInv(r, s, o, qty);
    InvReadable(s);
    var l, k, j := OrderPosition(r, o);
    var k' := LevelPosition(r, l);
    assert k == k' && QueueOk(r, l);
    hide Inv, Bounded, SideOk, IsRing, UniqueId;
    RequantifiedLevel(r, s, l, j, o, qty);
    BookUpdated(r, s, d.side, k, l, LevelOf(s, l));
    SetQtyInLevel(SideLevels(r, d.side), k, j, qty);
  }

  /** No nodes and null everywhere is the empty book. */
  ghost predicate Vacant<K>(r: Rep<K>) {
    && r.liveLevels == {} && r.liveOrders == {} && r.bids == [] && r.asks == [] && r.queue == map[] && r.index == map[]
    && r.bidsHead == NULL && r.asksHead == NULL
    && |r.priceIndex| == PRICE_LEVELS && forall j :: 0 <= j < PRICE_LEVELS ==> r.priceIndex[j] == NULL
  }

  lemma {:induction false} VacantIsEmpty<K(!new)>(r: Rep<K>)
    requires Vacant(r)
    ensures Inv(r) && Readable(r) && BookOf(r) == Book([], [])
  {
  }

  // ----- reading the book off the rings

  lemma {:induction false} BestIsFirst<K(!new)>(r: Rep<K>, side: Side)
    requires Inv(r)
    ensures Readable(r)
    ensures r.Head(side) == NULL <==> Flat(r, side) == []
    ensures r.Head(side) != NULL ==> (
      && r.Head(side) in r.liveLevels && r.levels[r.Head(side)].data.first in r.liveOrders
      && r.orders[r.levels[r.Head(side)].data.first].data == Flat(r, side)[0])
  {
    hide LevelsInv, OrdersInv, SlotsInv;
    InvReadable(r);
    SideFacts(r, side);
    if r.Ring(side) != [] {
      var h := r.Ring(side)[0];
      assert h in r.Ring(side);
      QueueFacts(r, h);
      assert r.queue[h][0] in r.queue[h];
      assert SideLevels(r, side)[0] == LevelOf(r, h);
      assert LevelOf(r, h).orders[0] == r.orders[r.queue[h][0]].data;
    }
  }

  lemma {:induction false} FromFlat<K(!new)>(r: Rep<K>, side: Side, d: Order<K>) returns (i: nat)
    requires Inv(r) && Readable(r) && d in Flat(r, side)
    ensures i in r.liveOrders && i < |r.orders| && r.orders[i].data == d && d.side == side
  {
    hide Inv, Bounded, SideOk, IsRing;
    var ls := SideLevels(r, side);
    InFlatten(ls, d);
    var k :| 0 <= k < |ls| && d in ls[k].orders;
    var l := r.Ring(side)[k];
    assert l in r.Ring(side);
    SideFacts(r, side);
    QueueFacts(r, l);
    var j :| 0 <= j < |ls[k].orders| && ls[k].orders[j] == d;
    i := r.queue[l][j];
    assert i in r.queue[l];
  }

  lemma {:induction false} ToFlat<K(!new)>(r: Rep<K>, i: nat)
    requires Inv(r) && i in r.liveOrders
    ensures Readable(r) && i < |r.orders| && r.orders[i].data in Flat(r, r.orders[i].data.side)
  {
    hide Inv, SideOk, IsRing;
    var l, k, j := OrderPosition(r, i);
    var ls := SideLevels(r, r.orders[i].data.side);
    assert ls[k].orders[j] in ls[k].orders;
    InFlatten(ls, r.orders[i].data);
  }

  /** A free slot means no order of the book has a price in it. */
  lemma {:induction false} FreeSlot<K(!new)>(r: Rep<K>, side: Side, price: nat)
    requires Inv(r) && r.priceIndex[Slot(price)] == NULL
    ensures Readable(r) && forall d :: d in Flat(r, side) ==> Slot(d.price) != Slot(price)
  {
    InvReadable(r);
    forall d | d in Flat(r, side)
      ensures Slot(d.price) != Slot(price)
    {
      var i := FromFlat(r, side, d);
      assert OrderNodeOk(r, i);
    }
  }

  /** The priority of the node before the first one, in the ring of level `l`. */
  lemma {:induction false} LastOfLevel<K(!new)>(r: Rep<K>, l: nat)
    requires Inv(r) && l in r.liveLevels
    ensures Readable(r) && r.levels[l].data.first in r.liveOrders
    ensures r.orders[r.levels[l].data.first].prev in r.liveOrders
    ensures var d := r.levels[l].data;
      LastPriority(Flat(r, d.side), d.price) == r.orders[r.orders[d.first].prev].data.priority
  {
    hide Inv, IsRing, SideOk;
    InvReadable(r);
    QueueFacts(r, l);
    var d, q := r.levels[l].data, r.queue[l];
    Neighbours(r.orders, q, 0);
    assert q[0] in q && q[|q| - 1] in q;
    var k := LevelAt(r, l);
    LevelsOfInv(r, d.side);
    LastPriorityInLevel(d.side, SideLevels(r, d.side), k);
  }

  lemma {:induction false} LevelAt<K(!new)>(r: Rep<K>, l: nat) returns (k: nat)
    requires Inv(r) && l in r.liveLevels
    ensures Readable(r) && k < |SideLevels(r, r.levels[l].data.side)|
    ensures SideLevels(r, r.levels[l].data.side)[k] == LevelOf(r, l)
  {
    InvReadable(r);
    k := LevelPosition(r, l);
  }
}
