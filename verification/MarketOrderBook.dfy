/** The subscriber's order book as the source keeps it, with its cached best bid and offer. */
module MarketOrderBooks {
  import opened Types
  import opened Orders
  import opened Levels
  import opened Messages
  import opened MarketData
  import opened Snapshots
  import opened TopOfBook
  import opened Rings
  import opened RingRep
  import opened RingOps
  import opened RingEffects
  import opened RingBooks
  import opened Capacity
  import opened PoolUse

  /** The subscriber looks orders up by their market id. */
  ghost predicate KeysAreIds(b: Book<nat>) {
    forall o :: InBook(b, o) ==> o.key == o.id
  }

  lemma {:induction false} ApplyKeepsKeys(b: Book<nat>, u: MarketUpdate)
    requires WellFormed(b) && KeysAreIds(b)
    ensures KeysAreIds(Apply(b, u))
  {
    forall x | InBook(Apply(b, u), x)
      ensures x.key == x.id
    {
      match u
      case Add(_, id, side, price, qty, priority) =>
        InPlace(b.On(side), Listed(id, side, price, qty, priority), x);
        assert InBook(b, x) || x == Listed(id, side, price, qty, priority);
      case Modify(_, id, _, _, qty, _) =>
        InSetQty(b.bids, id, qty, x);
        InSetQty(b.asks, id, qty, x);
        assert forall y :: y in b.bids || y in b.asks ==> InBook(b, y);
      case Cancel(_, id, _, _, _, _) =>
        InRemove(b.bids, id, x);
        InRemove(b.asks, id, x);
        assert InBook(b, x);
      case _ =>
    }
  }

  /** The one order an update names, and what applying the update does to its side. */
  lemma {:induction false} NamedChange(b: Book<nat>, x: Order<nat>, qty: nat)
    requires WellFormed(b) && InBook(b, x)
    ensures x in b.On(x.side) && UniqueId(b.On(x.side), x)
    ensures Book(Remove(b.bids, x.id), Remove(b.asks, x.id)) == b.With(x.side, Remove(b.On(x.side), x.id))
    ensures Book(SetQty(b.bids, x.id, qty), SetQty(b.asks, x.id, qty))
      == b.With(x.side, SetQty(b.On(x.side), x.id, qty))
  {
    assert Live(if x in b.bids then Buy else Sell, x);
    var xs := b.On(x.side);
    assert forall i, j :: 0 <= i < j < |xs| ==> Differ(xs[i], xs[j]);
    assert Names(b, x.id, x.side, x.price);
    NamedOnOneSide(b, x.id, x.side, x.price);
    NothingToRemove(b.On(Opposite(x.side)), x.id, qty);
  }

  class MarketOrderBook {
    const rings: RingBook<nat>
    var bbo: BBO

    ghost predicate RingsOk()
      reads this, rings, rings.Repr, rings.levelPool, rings.levelPool.store, rings.orderPool, rings.orderPool.store,
        rings.priceOrders
    {
      rings.Valid() && this !in rings.Repr
    }

    ghost predicate Valid()
      reads this, rings, rings.Repr, rings.levelPool, rings.levelPool.store, rings.orderPool, rings.orderPool.store,
        rings.priceOrders
    {
      RingsOk() && WellFormed(rings.Contents()) && KeysAreIds(rings.Contents()) && bbo == BboOf(rings.Contents())
    }

    /** The pools have room for one more order at this price. */
    ghost predicate RoomHere(b: Book<nat>, side: Side, price: nat) {
      RoomFor(b, side, price, rings.levelPool.store.Length, rings.orderPool.store.Length)
    }

    constructor (levels: nat, orders: nat)
      requires 0 < levels && 0 < orders
      ensures rings.levelPool.store.Length == levels && rings.orderPool.store.Length == orders
      ensures Valid() && fresh(rings.Repr) && rings.Contents() == Book([], [])
    {
      hide Inv, WellFormed, KeysAreIds;
      rings := new RingBook(levels, orders, Order(0, 0, Buy, 0, 0, 0));
      bbo := BBO(NO_TOP, NO_TOP);
      new;
      EmptyOk();
    }

    /** One step of the walk: add the quantity of the order at position `k`, and go on. */
    method AddQty(soFar: nat, order: nat, l: nat, ghost k: nat) returns (qty: nat, next: nat)
      requires RingsOk() && l in rings.levelPool.live && Readable(rings.R()) && l in rings.R().queue
      requires k < |rings.R().queue[l]| && order == rings.R().queue[l][k]
      requires soFar == SumQty(LevelOf(rings.R(), l).orders[..k]) % QTY_MODULUS
      ensures l in rings.R().queue && next == rings.R().queue[l][Succ(k, |rings.R().queue[l]|)]
      ensures qty == SumQty(LevelOf(rings.R(), l).orders[..k + 1]) % QTY_MODULUS
    {
      hide Inv, IsRing, Readable;
      ghost var r := rings.R();
      ghost var q, os := r.queue[l], LevelOf(r, l).orders;
      QueueFacts(r, l);
      assert q[k] in q;
      Neighbours(r.orders, q, k);
      LastOfSum(os, k);
      qty := (soFar + rings.orderPool.At(order).data.qty) % QTY_MODULUS;
      next := rings.orderPool.At(order).next;
    }

    static lemma {:induction false} LastOfSum(os: seq<Order<nat>>, k: nat)
      requires k < |os|
      ensures SumQty(os[..k + 1]) == SumQty(os[..k]) + os[k].qty
    {
      SumSplits(os[..k], [os[k]]);
      assert os[..k + 1] == os[..k] + [os[k]];
      assert [os[k]][1..] == [];
    }

    /** Walk the ring of the best level and add up its quantities. */
    method LevelQty(l: nat) returns (qty: nat)
      requires RingsOk() && l in rings.levelPool.live
      ensures Readable(rings.R()) && qty == SumQty(LevelOf(rings.R(), l).orders) % QTY_MODULUS
    {
      hide LevelsInv, OrdersInv, SlotsInv, SideOk, IsRing;
      ghost var r := rings.R();
      InvReadable(r);
      QueueFacts(r, l);
      ghost var q := r.queue[l];
      ghost var os := LevelOf(r, l).orders;
      var first := rings.levelPool.At(l).data.first;
      assert q[0] in q;
      Neighbours(r.orders, q, 0);
      qty := rings.orderPool.At(first).data.qty % QTY_MODULUS;
      var order := rings.orderPool.At(first).next;
      ghost var k := 1;
      assert os[..1] == [os[0]] && SumQty(os[..1]) == os[0].qty by { assert os[..1][1..] == []; }
      while order != first
        invariant 1 <= k <= |q| && order == q[if k == |q| then 0 else k]
        invariant qty == SumQty(os[..k]) % QTY_MODULUS
        decreases |q| - k
      {
        qty, order := AddQty(qty, order, l, k);
        k := k + 1;
      }
      assert os[..|q|] == os;
    }

    method TopOfSide(side: Side) returns (top: Top)
      requires RingsOk()
      ensures top == TopOf(rings.Contents().On(side))
    {
      hide LevelsInv, OrdersInv, SlotsInv, SideOk;
      ghost var r := rings.R();
      BestIsFirst(r, side);
      LevelsOfInv(r, side);
      SideFacts(r, side);
      var h := rings.Head(side);
      if h == NULL {
        top := NO_TOP;
      } else {
        assert SideLevels(r, side)[0] == LevelOf(r, r.Ring(side)[0]);
        TopIsFirstLevel(side, SideLevels(r, side));
        var qty := LevelQty(h);
        top := Top(rings.levelPool.At(h).data.price, qty);
      }
    }

    method Refresh(side: Side, ghost b: Book<nat>)
      requires RingsOk() && b == rings.Contents()
      modifies this`bbo
      ensures RingsOk() && b == rings.Contents()
      ensures bbo == if side.Buy? then old(bbo).(bid := TopOf(b.bids)) else old(bbo).(ask := TopOf(b.asks))
    {
      hide Inv, TopOf;
      var top := TopOfSide(side);
      bbo := if side.Buy? then bbo.(bid := top) else bbo.(ask := top);
    }

    method UpdateBBO(updateBid: bool, updateAsk: bool, ghost b: Book<nat>)
      requires RingsOk() && b == rings.Contents()
      modifies this`bbo
      ensures RingsOk() && b == rings.Contents()
      ensures bbo.bid == if updateBid then TopOf(b.bids) else old(bbo.bid)
      ensures bbo.ask == if updateAsk then TopOf(b.asks) else old(bbo.ask)
      ensures WellFormed(b) && updateBid ==> ExactTop(Buy, b.bids, bbo.bid)
      ensures WellFormed(b) && updateAsk ==> ExactTop(Sell, b.asks, bbo.ask)
    {
      hide RingsOk, TopOf, ExactTop, WellFormed;
      if WellFormed(b) {
        BboIsExact(b);
      }
      if updateBid {
        Refresh(Buy, b);
      }
      if updateAsk {
        Refresh(Sell, b);
      }
    }

    /** The guard of the refresh, on the book before the update. */
    method Touched(side: Side, price: nat) returns (touched: bool)
      requires RingsOk()
      ensures touched == Touches(rings.Contents().On(side), side, price)
    {
      hide Inv;
      var o := rings.BestOrder(side);
      touched := o == NULL || !Better(side, rings.orderPool.At(o).data.price, price);
    }

    /** The order an update names. */
    method FindNamed(id: nat, side: Side, price: nat, ghost b: Book<nat>, qty: nat) returns (o: nat)
      requires RingsOk() && b == rings.Contents() && WellFormed(b) && KeysAreIds(b) && Names(b, id, side, price)
      ensures o in rings.orderPool.live && o < |rings.R().orders|
      ensures var x := rings.R().orders[o].data;
        && x.id == id && InBook(b, x) && UniqueId(b.On(x.side), x)
        && Book(Remove(b.bids, id), Remove(b.asks, id)) == b.With(x.side, Remove(b.On(x.side), id))
        && Book(SetQty(b.bids, id, qty), SetQty(b.asks, id, qty)) == b.With(x.side, SetQty(b.On(x.side), id, qty))
    {
      hide Inv, WellFormed;
      ghost var y := NamedOrder(b, id, side, price);
      var found := rings.Find(id);
      assert InBook(b, y) && y.key == id;
      o := found;
      NamedChange(b, rings.orderPool.At(found).data, qty);
    }

    /** The book part of an update that changes one order. */
    method Change(u: MarketUpdate, ghost b: Book<nat>)
      requires RingsOk() && b == rings.Contents() && WellFormed(b) && KeysAreIds(b) && Fits(b, u) && ChangesOne(u)
      requires u.Add? ==> OwnsSlot(b, u.side, u.price) && RoomHere(b, u.side, u.price)
      modifies rings.Repr
      ensures RingsOk() && rings.Contents() == Apply(b, u)
    {
      hide Inv, WellFormed, UniqueId;
      match u {
        case Add(_, id, side, price, qty, priority) =>
          var order := Listed(id, side, price, qty, priority);
          AcceptsFresh(rings, order);
          rings.AddOrder(order);
        case Modify(_, id, side, price, qty, _) =>
          var o := FindNamed(id, side, price, b, qty);
          rings.SetOrderQty(o, qty);
        case Cancel(_, id, side, price, qty, _) =>
          var o := FindNamed(id, side, price, b, qty);
          rings.RemoveOrder(o);
        case _ =>
      }
    }

    method OnMarketUpdate(u: MarketUpdate)
      requires Valid() && (u.SnapshotStart? || u.SnapshotEnd? || Fits(rings.Contents(), u))
      requires u.Add? ==> OwnsSlot(rings.Contents(), u.side, u.price) && RoomHere(rings.Contents(), u.side, u.price)
      modifies rings.Repr, this`bbo
      ensures Valid() && rings.Contents() == Apply(old(rings.Contents()), u)
      ensures ExactTop(Buy, rings.Contents().bids, bbo.bid) && ExactTop(Sell, rings.Contents().asks, bbo.ask)
    {
      ghost var b := rings.Contents();
      hide Inv, WellFormed, KeysAreIds, TopOf, Touches, ExactTop;
      match u {
        case Clear(_) =>
          rings.Clear();
          UpdateBBO(true, true, Book([], []));
        case Trade(_, _, _, _) =>
        case SnapshotStart(_) =>
        case SnapshotEnd(_) =>
        case _ =>
          ChangeAndRefresh(u, b);
      }
      EmptyOk();
      BboIsExact(rings.Contents());
    }

    method ChangeAndRefresh(u: MarketUpdate, ghost b: Book<nat>)
      requires Valid() && b == rings.Contents() && Fits(b, u) && ChangesOne(u)
      requires u.Add? ==> OwnsSlot(b, u.side, u.price) && RoomHere(b, u.side, u.price)
      modifies rings.Repr, this`bbo
      ensures Valid() && rings.Contents() == Apply(b, u)
    {
      hide Inv, WellFormed, KeysAreIds, TopOf, Touches, Fits, Apply;
      var touched := Touched(u.side, u.price);
      ApplyKeeps(b, u);
      ApplyKeepsKeys(b, u);
      RefreshTouched(b, u);
      Change(u, b);
      UpdateBBO(touched && u.side.Buy?, touched && u.side.Sell?, Apply(b, u));
    }

    static lemma {:induction false} EmptyOk()
      ensures WellFormed<nat>(Book([], [])) && KeysAreIds(Book([], []))
    {
    }
  }
}
