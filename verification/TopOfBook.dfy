/** The cached best bid and offer, and why most updates need not refresh it. */
module TopOfBook {
  import opened Types
  import opened Orders
  import opened Levels
  import opened Messages
  import opened MarketData

  /** Price and total quantity of the best level of a side. */
  datatype Top = Top(price: nat, qty: nat)

  datatype BBO = BBO(bid: Top, ask: Top) {
    function On(side: Side): Top {
      if side.Buy? then bid else ask
    }
  }

  const NO_TOP := Top(PRICE_INVALID, QTY_INVALID)

  /** The leading orders at one price: the best level, when that price is the first one. */
  function Leading(xs: seq<Order<nat>>, price: nat): seq<Order<nat>> {
    if xs == [] || xs[0].price != price then [] else [xs[0]] + Leading(xs[1..], price)
  }

  /** The quantity of a level is a 32-bit sum. */
  function TopOf(xs: seq<Order<nat>>): Top {
    if xs == [] then NO_TOP else Top(xs[0].price, SumQty(Leading(xs, xs[0].price)) % QTY_MODULUS)
  }

  function BboOf(b: Book<nat>): BBO {
    BBO(TopOf(b.bids), TopOf(b.asks))
  }

  /** Whether an update may change the best level of its side. */
  predicate Touches(xs: seq<Order<nat>>, side: Side, price: nat) {
    xs == [] || !Better(side, xs[0].price, price)
  }

  /** That is, whether no live price is strictly better than the one it names. */
  lemma {:induction false} TouchesMeans(xs: seq<Order<nat>>, side: Side, price: nat)
    requires Sorted(side, xs)
    ensures Touches(xs, side, price) <==> forall x :: x in xs ==> !Better(side, x.price, price)
  {
    if xs != [] {
      PricesFall(side, xs);
      assert xs[0] in xs;
    }
  }

  lemma {:induction false} LeadingSplits(xs: seq<Order<nat>>, ys: seq<Order<nat>>, price: nat)
    requires forall x :: x in xs ==> x.price == price
    requires ys == [] || ys[0].price != price
    ensures Leading(xs + ys, price) == xs
  {
    if xs == [] {
      assert xs + ys == ys;
    } else {
      LeadingSplits(xs[1..], ys, price);
      assert (xs + ys)[1..] == xs[1..] + ys;
    }
  }

  /** The best level of well formed levels is the leading orders of the flat side. */
  lemma {:induction false} TopIsFirstLevel(side: Side, ls: seq<Level<nat>>)
    requires LevelsOk(side, ls) && ls != []
    ensures var xs := Flatten(ls);
      xs != [] && xs[0].price == ls[0].price && Leading(xs, xs[0].price) == ls[0].orders
  {
    assert LevelOk(side, ls[0]);
    FirstLevelEnds(side, ls);
    assert ls[0].orders[0] in ls[0].orders;
    var ys := Flatten(ls[1..]);
    assert ys != [] ==> ys[0] == Flatten(ls)[|ls[0].orders|];
    LeadingSplits(ls[0].orders, ys, ls[0].price);
  }

  /** A change strictly behind the best price leaves the best level alone. */
  lemma {:induction false} PlaceBehind(xs: seq<Order<nat>>, o: Order<nat>, price: nat)
    requires xs != [] && Better(o.side, price, o.price)
    requires forall i :: 0 <= i < |xs| ==> xs[i].price == price || Better(o.side, price, xs[i].price)
    requires xs[0].price == price
    ensures Place(xs, o) != [] && Place(xs, o)[0].price == price && Leading(Place(xs, o), price) == Leading(xs, price)
  {
    if |xs| > 1 && xs[1].price == price {
      PlaceBehind(xs[1..], o, price);
    } else {
      var r := Place(xs, o);
      assert Place(xs, o)[1..] == Place(xs[1..], o);
      assert r[1..] != [] && r[1].price != price;
      assert |xs| > 1 ==> xs[1..][0] == xs[1];
    }
  }

  lemma {:induction false} RemoveBehind(xs: seq<Order<nat>>, id: nat, price: nat)
    requires forall i :: 0 <= i < |xs| && xs[i].id == id ==> xs[i].price != price
    requires forall i, j :: 0 <= i < j < |xs| && xs[j].price == price ==> xs[i].price == price
    requires forall i, j :: 0 <= i < j < |xs| ==> xs[i].id != xs[j].id
    ensures Leading(Remove(xs, id), price) == Leading(xs, price)
  {
    if xs != [] {
      if xs[0].id == id {
        assert |xs| > 1 ==> xs[1..][0] == xs[1];
      } else if xs[0].price == price {
        RemoveBehind(xs[1..], id, price);
      }
    }
  }

  lemma {:induction false} SetQtyBehind(xs: seq<Order<nat>>, id: nat, qty: nat, price: nat)
    requires forall i :: 0 <= i < |xs| && xs[i].id == id ==> xs[i].price != price
    ensures Leading(SetQty(xs, id, qty), price) == Leading(xs, price)
  {
    if xs != [] && xs[0].id != id && xs[0].price == price {
      SetQtyBehind(xs[1..], id, qty, price);
    }
  }

  lemma {:induction false} PricesFall(side: Side, xs: seq<Order<nat>>)
    requires Sorted(side, xs) && xs != []
    ensures forall i :: 0 <= i < |xs| ==> xs[i].price == xs[0].price || Better(side, xs[0].price, xs[i].price)
    ensures forall i, j :: 0 <= i < j < |xs| && xs[j].price == xs[0].price ==> xs[i].price == xs[0].price
  {
  }

  ghost predicate ChangesOne(u: MarketUpdate) {
    u.Add? || u.Modify? || u.Cancel?
  }

  /** Skipping the refresh is sound: an update that does not touch the best level of its
      side leaves the best level of both sides as they were. */
  lemma {:induction false} UntouchedTop(b: Book<nat>, u: MarketUpdate, side: Side)
    requires WellFormed(b) && Fits(b, u) && ChangesOne(u)
    requires side == u.side ==> !Touches(b.On(side), side, u.price)
    ensures TopOf(Apply(b, u).On(side)) == TopOf(b.On(side))
  {
    var xs := b.On(side);
    if side == u.side {
      PricesFall(side, xs);
      match u
      case Add(_, id, _, price, qty, priority) => PlaceBehind(xs, Listed(id, side, price, qty, priority), xs[0].price);
      case Modify(_, id, _, price, qty, _) =>
        NamedElsewhere(b, id, side, price, xs[0].price);
        SetQtyBehind(xs, id, qty, xs[0].price);
      case Cancel(_, id, _, price, _, _) =>
        NamedElsewhere(b, id, side, price, xs[0].price);
        RemoveBehind(xs, id, xs[0].price);
    } else if !u.Add? {
      NamedOnOneSide(b, u.id, u.side, u.price);
      assert side == Opposite(u.side);
      NothingToRemove(xs, u.id, u.qty);
    }
  }

  lemma {:induction false} NamedElsewhere(b: Book<nat>, id: nat, side: Side, price: nat, best: nat)
    requires WellFormed(b) && Names(b, id, side, price) && price != best
    ensures forall i :: 0 <= i < |b.On(side)| && b.On(side)[i].id == id ==> b.On(side)[i].price != best
    ensures forall i, j :: 0 <= i < j < |b.On(side)| ==> b.On(side)[i].id != b.On(side)[j].id
  {
  }

  lemma {:induction false} NamedOnOneSide(b: Book<nat>, id: nat, side: Side, price: nat)
    requires WellFormed(b) && Names(b, id, side, price)
    ensures forall y :: y in b.On(Opposite(side)) ==> y.id != id
  {
  }

  /** Refreshing just the touched side keeps the cache exact. */
  lemma {:induction false} RefreshTouched(b: Book<nat>, u: MarketUpdate)
    requires WellFormed(b) && Fits(b, u) && ChangesOne(u)
    ensures var c, touched := Apply(b, u), Touches(b.On(u.side), u.side, u.price);
      && ((touched && u.side.Buy?) || TopOf(c.bids) == TopOf(b.bids))
      && ((touched && u.side.Sell?) || TopOf(c.asks) == TopOf(b.asks))
  {
    var touched := Touches(b.On(u.side), u.side, u.price);
    if !(touched && u.side.Buy?) {
      UntouchedTop(b, u, Buy);
    }
    if !(touched && u.side.Sell?) {
      UntouchedTop(b, u, Sell);
    }
  }

  // ----- what price and quantity of a top mean

  /** The quantity at one price, over all orders of a side wherever they stand. */
  ghost function QtyAt(xs: seq<Order<nat>>, price: nat): nat {
    if xs == [] then 0 else (if xs[0].price == price then xs[0].qty else 0) + QtyAt(xs[1..], price)
  }

  /** A live price that no live price betters, and all the quantity at it, as an unsigned 32-bit
      number; for an empty side the reserved values. */
  ghost predicate ExactTop(side: Side, xs: seq<Order<nat>>, top: Top) {
    if xs == [] then top.price == 0xFFFF_FFFF_FFFF_FFFF && top.qty == 0xFFFF_FFFF
    else
      && (exists x :: x in xs && x.price == top.price)
      && (forall x :: x in xs ==> !Better(side, x.price, top.price))
      && top.qty == QtyAt(xs, top.price) % 0x1_0000_0000
  }

  lemma {:induction false} NothingAt(xs: seq<Order<nat>>, price: nat)
    requires forall i :: 0 <= i < |xs| ==> xs[i].price != price
    ensures QtyAt(xs, price) == 0
  {
    if xs != [] {
      NothingAt(xs[1..], price);
    }
  }

  lemma {:induction false} LeadingIsAll(xs: seq<Order<nat>>, price: nat)
    requires forall i, j :: 0 <= i < j < |xs| && xs[j].price == price ==> xs[i].price == price
    ensures SumQty(Leading(xs, price)) == QtyAt(xs, price)
  {
    if xs != [] {
      if xs[0].price == price {
        LeadingIsAll(xs[1..], price);
        assert ([xs[0]] + Leading(xs[1..], price))[1..] == Leading(xs[1..], price);
      } else {
        NothingAt(xs[1..], price);
      }
    }
  }

  /** The cached top is that of the definition above. */
  lemma {:induction false} TopIsExact(side: Side, xs: seq<Order<nat>>)
    requires Sorted(side, xs)
    ensures ExactTop(side, xs, TopOf(xs))
  {
    if xs != [] {
      PricesFall(side, xs);
      LeadingIsAll(xs, xs[0].price);
      assert xs[0] in xs;
    }
  }

  lemma {:induction false} BboIsExact(b: Book<nat>)
    requires WellFormed(b)
    ensures ExactTop(Buy, b.bids, BboOf(b).bid) && ExactTop(Sell, b.asks, BboOf(b).ask)
  {
    TopIsExact(Buy, b.bids);
    TopIsExact(Sell, b.asks);
  }

  /** Exactness leaves no choice. */
  lemma {:induction false} OneExactTop(side: Side, xs: seq<Order<nat>>, a: Top, b: Top)
    requires ExactTop(side, xs, a) && ExactTop(side, xs, b)
    ensures a == b
  {
    if xs != [] {
      var x :| x in xs && x.price == a.price;
      var y :| y in xs && y.price == b.price;
    }
  }

  // ----- how the best quantity changes

  lemma {:induction false} QtyAtPlace(xs: seq<Order<nat>>, o: Order<nat>, price: nat)
    ensures QtyAt(Place(xs, o), price) == QtyAt(xs, price) + if o.price == price then o.qty else 0
  {
    if xs != [] && !Better(o.side, o.price, xs[0].price) {
      QtyAtPlace(xs[1..], o, price);
    }
  }

  lemma {:induction false} QtyAtRemove(xs: seq<Order<nat>>, x: Order<nat>, price: nat)
    requires x in xs && forall i, j :: 0 <= i < j < |xs| ==> Differ(xs[i], xs[j])
    ensures QtyAt(Remove(xs, x.id), price) + (if x.price == price then x.qty else 0) == QtyAt(xs, price)
  {
    if xs[0].id == x.id {
      OnlyOne(xs, xs[0], x);
    } else {
      QtyAtRemove(xs[1..], x, price);
    }
  }

  lemma {:induction false} QtyAtSetQty(xs: seq<Order<nat>>, x: Order<nat>, qty: nat, price: nat)
    requires x in xs && forall i, j :: 0 <= i < j < |xs| ==> Differ(xs[i], xs[j])
    ensures QtyAt(SetQty(xs, x.id, qty), price) + (if x.price == price then x.qty else 0)
      == QtyAt(xs, price) + if x.price == price then qty else 0
  {
    if xs[0].id == x.id {
      OnlyOne(xs, xs[0], x);
    } else {
      QtyAtSetQty(xs[1..], x, qty, price);
    }
  }

  lemma {:induction false} JoinedTop(side: Side, xs: seq<Order<nat>>, o: Order<nat>)
    requires xs != [] && o.side == side && o.price == TopOf(xs).price
    requires Sorted(side, xs) && Sorted(side, Place(xs, o))
    ensures TopOf(Place(xs, o)) == Top(o.price, QtyAt(Place(xs, o), o.price) % 0x1_0000_0000)
  {
    hide TopOf, Place, QtyAt, Sorted;
    var ys := Place(xs, o);
    TopIsExact(side, xs);
    TopIsExact(side, ys);
    forall y
      ensures y in ys <==> y in xs || y == o
    {
      InPlace(xs, o, y);
    }
    OneExactTop(side, ys, TopOf(ys), Top(o.price, QtyAt(ys, o.price) % 0x1_0000_0000));
  }

  /** An order that joins the best level adds exactly its quantity to the best quantity. */
  lemma {:induction false} JoiningAdds(side: Side, xs: seq<Order<nat>>, o: Order<nat>)
    requires xs != [] && o.side == side && o.price == TopOf(xs).price
    requires Sorted(side, xs) && Sorted(side, Place(xs, o))
    ensures TopOf(Place(xs, o)) == Top(o.price, (TopOf(xs).qty + o.qty) % 0x1_0000_0000)
  {
    hide TopOf, Place, QtyAt, Sorted;
    TopIsExact(side, xs);
    JoinedTop(side, xs, o);
    QtyAtPlace(xs, o, o.price);
    SameRemainders(QtyAt(Place(xs, o), o.price), 0, QtyAt(xs, o.price), o.qty);
  }

  lemma {:induction false} BookSide(b: Book<nat>, side: Side)
    requires WellFormed(b)
    ensures Sorted(side, b.On(side)) && forall i, j :: 0 <= i < j < |b.On(side)| ==>
      Differ(b.On(side)[i], b.On(side)[j])
  {
  }

  lemma {:induction false} SameRemainders(p: nat, x: nat, q: nat, y: nat)
    requires p + x == q + y
    ensures (p % 0x1_0000_0000 + x) % 0x1_0000_0000 == (q % 0x1_0000_0000 + y) % 0x1_0000_0000
  {
  }

  lemma {:induction false} ModifiedTop(side: Side, xs: seq<Order<nat>>, x: Order<nat>, qty: nat)
    requires Sorted(side, xs) && x in xs && x.price == TopOf(xs).price && 0 < qty
    ensures TopOf(SetQty(xs, x.id, qty)) == Top(x.price, QtyAt(SetQty(xs, x.id, qty), x.price) % 0x1_0000_0000)
  {
    var ys := SetQty(xs, x.id, qty);
    SetQtyKeepsSorted(side, xs, x.id, qty);
    SetQtyKeepsList(xs, x.id, qty);
    TopIsExact(side, ys);
    assert ys[0].price == xs[0].price;
  }

  /** A Modify of an order of the best level changes the best quantity by the difference. */
  lemma {:induction false} ModifyingChanges(b: Book<nat>, side: Side, x: Order<nat>, qty: nat)
    requires WellFormed(b) && x in b.On(side) && x.price == TopOf(b.On(side)).price && 0 < qty
    ensures var was, top := TopOf(b.On(side)), TopOf(SetQty(b.On(side), x.id, qty));
      top.price == x.price && (top.qty + x.qty) % 0x1_0000_0000 == (was.qty + qty) % 0x1_0000_0000
  {
    hide WellFormed, TopOf, SetQty, QtyAt, Sorted;
    var xs := b.On(side);
    BookSide(b, side);
    TopIsExact(side, xs);
    ModifiedTop(side, xs, x, qty);
    QtyAtSetQty(xs, x, qty, x.price);
    SameRemainders(QtyAt(SetQty(xs, x.id, qty), x.price), x.qty, QtyAt(xs, x.price), qty);
  }

  lemma {:induction false} ReducedTop(b: Book<nat>, side: Side, x: Order<nat>, y: Order<nat>)
    requires WellFormed(b) && x in b.On(side) && y in b.On(side) && x != y
    requires x.price == y.price == TopOf(b.On(side)).price
    ensures var ys := Remove(b.On(side), x.id); TopOf(ys) == Top(x.price, QtyAt(ys, x.price) % 0x1_0000_0000)
  {
    hide WellFormed, TopOf, Remove, QtyAt, Sorted;
    var xs := b.On(side);
    var ys := Remove(xs, x.id);
    BookSide(b, side);
    RemoveKeepsBook(b, side, x.id);
    BookSide(b.With(side, ys), side);
    OneWithId(xs, x, y);
    InRemove(xs, x.id, y);
    TopIsExact(side, xs);
    TopIsExact(side, ys);
    OneExactTop(side, ys, TopOf(ys), Top(x.price, QtyAt(ys, x.price) % 0x1_0000_0000));
  }

  /** A Cancel of an order of the best level takes its quantity away, while others stay there. */
  lemma {:induction false} CancellingTakes(b: Book<nat>, side: Side, x: Order<nat>, y: Order<nat>)
    requires WellFormed(b) && x in b.On(side) && y in b.On(side) && x != y
    requires x.price == y.price == TopOf(b.On(side)).price
    ensures var top := TopOf(Remove(b.On(side), x.id));
      top.price == x.price && (top.qty + x.qty) % 0x1_0000_0000 == TopOf(b.On(side)).qty
  {
    hide WellFormed, TopOf, Remove, QtyAt, Sorted;
    var xs := b.On(side);
    BookSide(b, side);
    TopIsExact(side, xs);
    ReducedTop(b, side, x, y);
    QtyAtRemove(xs, x, x.price);
    SameRemainders(QtyAt(Remove(xs, x.id), x.price), x.qty, QtyAt(xs, x.price), 0);
  }

  lemma {:induction false} OneWithId(xs: seq<Order<nat>>, x: Order<nat>, y: Order<nat>)
    requires (forall i, j :: 0 <= i < j < |xs| ==> Differ(xs[i], xs[j])) && x in xs && y in xs && x != y
    ensures x.id != y.id
  {
    if x.id == y.id {
      OnlyOne(xs, x, y);
    }
  }
}
