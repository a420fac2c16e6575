/** How many orders and price levels a book has, and so how much of the pools it takes. */
module Capacity {
  import opened Types
  import opened Orders
  import opened Levels

  ghost function Prices<K>(xs: seq<Order<K>>): set<nat> {
    set x | x in xs :: x.price
  }

  ghost function OrderCount<K>(b: Book<K>): nat {
    |b.bids| + |b.asks|
  }

  ghost function LevelCount<K>(b: Book<K>): nat {
    |Prices(b.bids)| + |Prices(b.asks)|
  }

  /** One more order at this price leaves a free block in pools of these sizes; a level block
      is needed only when the price is new. */
  ghost predicate RoomFor<K>(b: Book<K>, side: Side, price: nat, levels: nat, orders: nat) {
    OrderCount(b) + 2 <= orders && (price in Prices(b.On(side)) || LevelCount(b) + 2 <= levels)
  }

  lemma {:induction false} PricesOfLevel<K>(side: Side, l: Level<K>)
    requires LevelOk(side, l)
    ensures Prices(l.orders) == {l.price}
  {
    assert l.orders[0] in l.orders;
  }

  lemma {:induction false} PricesSplit<K>(xs: seq<Order<K>>, ys: seq<Order<K>>)
    ensures Prices(xs + ys) == Prices(xs) + Prices(ys)
  {
    assert forall x :: x in xs + ys <==> x in xs || x in ys;
  }

  /** A side has as many levels as prices. */
  lemma {:induction false} LevelsArePrices<K>(side: Side, ls: seq<Level<K>>)
    requires LevelsOk(side, ls)
    ensures |Prices(Flatten(ls))| == |ls|
  {
    if ls != [] {
      LevelsArePrices(side, ls[1..]);
      assert LevelOk(side, ls[0]);
      PricesOfLevel(side, ls[0]);
      PricesSplit(ls[0].orders, Flatten(ls[1..]));
      FlattenKeepsBetter(side, ls[1..], ls[0].price);
      assert forall i :: 0 <= i < |ls[1..]| ==> Better(side, ls[0].price, ls[1..][i].price);
      assert ls[0].price !in Prices(Flatten(ls[1..]));
    }
  }
}
