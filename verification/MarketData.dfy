/** What a stream of market updates means to whoever replays it. */
module MarketData {
  import opened Types
  import opened Orders
  import opened Messages

  /** One book for each ticker; a subscriber knows orders by their market id. */
  type Market = seq<Book<nat>>

  function Listed(id: nat, side: Side, price: nat, qty: nat, priority: nat): Order<nat> {
    Order(id, id, side, price, qty, priority)
  }

  function Apply(b: Book<nat>, u: MarketUpdate): Book<nat> {
    match u
    case Add(_, id, side, price, qty, priority) =>
      b.With(side, Place(b.On(side), Listed(id, side, price, qty, priority)))
    case Modify(_, id, _, _, qty, _) => Book(SetQty(b.bids, id, qty), SetQty(b.asks, id, qty))
    case Cancel(_, id, _, _, _, _) => Book(Remove(b.bids, id), Remove(b.asks, id))
    case Clear(_) => Book([], [])
    case _ => b
  }

  predicate ForTicker(u: MarketUpdate, t: nat) {
    !u.SnapshotStart? && !u.SnapshotEnd? && u.ticker == t
  }

  function ApplyIn(m: Market, u: MarketUpdate): (r: Market)
    ensures |r| == |m|
  {
    if u.SnapshotStart? || u.SnapshotEnd? || u.ticker >= |m| then m else m[u.ticker := Apply(m[u.ticker], u)]
  }

  function Replay(m: Market, us: seq<MarketUpdate>): (r: Market)
    ensures |r| == |m|
    decreases us
  {
    if us == [] then m else Replay(ApplyIn(m, us[0]), us[1..])
  }

  lemma {:induction false} ReplayOne(m: Market, u: MarketUpdate)
    ensures Replay(m, [u]) == ApplyIn(m, u)
  {
  }

  function EmptyMarket(n: nat): Market {
    seq(n, _ => Book([], []))
  }

  lemma {:induction false} ReplaySplits(m: Market, us: seq<MarketUpdate>, vs: seq<MarketUpdate>)
    ensures Replay(m, us + vs) == Replay(Replay(m, us), vs)
    decreases us
  {
    if us == [] {
      assert us + vs == vs;
    } else {
      ReplaySplits(ApplyIn(m, us[0]), us[1..], vs);
      assert (us + vs)[1..] == us[1..] + vs;
    }
  }

  // ----- the updates a book can take

  ghost predicate Names(b: Book<nat>, id: nat, side: Side, price: nat) {
    exists x :: x in b.On(side) && x.id == id && x.price == price
  }

  ghost predicate Fits(b: Book<nat>, u: MarketUpdate) {
    match u
    case Add(_, id, side, price, qty, priority) => MayPlace(b, Listed(id, side, price, qty, priority))
    case Modify(_, id, side, price, qty, _) => 0 < qty && Names(b, id, side, price)
    case Cancel(_, id, side, price, _, _) => Names(b, id, side, price)
    case Trade(_, _, _, _) => true
    case Clear(_) => true
    case _ => false
  }

  ghost predicate FitsIn(m: Market, u: MarketUpdate) {
    !u.SnapshotStart? && !u.SnapshotEnd? && u.ticker < |m| && Fits(m[u.ticker], u)
  }

  ghost predicate AllFit(m: Market, us: seq<MarketUpdate>)
    decreases us
  {
    us == [] || (FitsIn(m, us[0]) && AllFit(ApplyIn(m, us[0]), us[1..]))
  }

  lemma {:induction false} AllFitSplits(m: Market, us: seq<MarketUpdate>, vs: seq<MarketUpdate>)
    ensures AllFit(m, us + vs) <==> AllFit(m, us) && AllFit(Replay(m, us), vs)
    decreases us
  {
    if us == [] {
      assert us + vs == vs;
    } else {
      AllFitSplits(ApplyIn(m, us[0]), us[1..], vs);
      assert (us + vs)[1..] == us[1..] + vs;
    }
  }

  /** The exchange itself never clears a book; only snapshots do. */
  ghost predicate NoClear(us: seq<MarketUpdate>) {
    forall i :: 0 <= i < |us| ==> !us[i].Clear?
  }

  ghost predicate WellFormedMarket(m: Market) {
    forall t :: 0 <= t < |m| ==> WellFormed(m[t])
  }

  lemma {:induction false} SetQtyKeepsList(xs: seq<Order<nat>>, id: nat, qty: nat)
    ensures |SetQty(xs, id, qty)| == |xs|
    ensures forall i :: 0 <= i < |xs| ==>
      SetQty(xs, id, qty)[i] == xs[i] || SetQty(xs, id, qty)[i] == xs[i].(qty := qty)
  {
    if xs != [] && xs[0].id != id {
      SetQtyKeepsList(xs[1..], id, qty);
    }
  }

  lemma {:induction false} SetQtyKeepsSorted(side: Side, xs: seq<Order<nat>>, id: nat, qty: nat)
    requires Sorted(side, xs) && 0 < qty
    ensures Sorted(side, SetQty(xs, id, qty))
  {
    SetQtyKeepsList(xs, id, qty);
    var ys := SetQty(xs, id, qty);
    forall i, j | 0 <= i < j < |ys|
      ensures Before(side, ys[i], ys[j])
    {
      assert Before(side, xs[i], xs[j]);
    }
  }

  lemma {:induction false} SetQtyKeepsBook(b: Book<nat>, id: nat, qty: nat)
    requires WellFormed(b) && 0 < qty
    ensures WellFormed(Book(SetQty(b.bids, id, qty), SetQty(b.asks, id, qty)))
  {
    SetQtyKeepsSorted(Buy, b.bids, id, qty);
    SetQtyKeepsSorted(Sell, b.asks, id, qty);
    SetQtyKeepsList(b.bids, id, qty);
    SetQtyKeepsList(b.asks, id, qty);
    var c := Book(SetQty(b.bids, id, qty), SetQty(b.asks, id, qty));
    assert forall i :: 0 <= i < |c.bids| ==>
      c.bids[i].price == b.bids[i].price && c.bids[i].id == b.bids[i].id && c.bids[i].key == b.bids[i].key;
    assert forall i :: 0 <= i < |c.asks| ==>
      c.asks[i].price == b.asks[i].price && c.asks[i].id == b.asks[i].id && c.asks[i].key == b.asks[i].key;
  }

  lemma {:induction false} ApplyKeeps(b: Book<nat>, u: MarketUpdate)
    requires WellFormed(b) && Fits(b, u)
    ensures WellFormed(Apply(b, u))
  {
    match u
    case Add(_, id, side, price, qty, priority) => PlaceKeepsBook(b, Listed(id, side, price, qty, priority));
    case Modify(_, id, _, _, qty, _) => SetQtyKeepsBook(b, id, qty);
    case Cancel(_, id, _, _, _, _) =>
      RemoveKeepsBook(b, Buy, id);
      RemoveKeepsBook(b.With(Buy, Remove(b.bids, id)), Sell, id);
    case Trade(_, _, _, _) =>
    case Clear(_) =>
  }

  /** Every book a fitting stream passes through is sorted, uncrossed and without collisions. */
  lemma {:induction false} ReplayKeeps(m: Market, us: seq<MarketUpdate>)
    requires WellFormedMarket(m) && AllFit(m, us)
    ensures WellFormedMarket(Replay(m, us))
    decreases us
  {
    if us != [] {
      ApplyKeeps(m[us[0].ticker], us[0]);
      ReplayKeeps(ApplyIn(m, us[0]), us[1..]);
    }
  }

  // ----- which orders are in the book afterwards

  lemma {:induction false} InRemove(xs: seq<Order<nat>>, id: nat, x: Order<nat>)
    requires forall i, j :: 0 <= i < j < |xs| ==> Differ(xs[i], xs[j])
    ensures x in Remove(xs, id) <==> x in xs && x.id != id
  {
    if xs != [] {
      assert x in xs <==> x == xs[0] || x in xs[1..];
      if xs[0].id == id {
        assert forall j :: 0 < j < |xs| ==> Differ(xs[0], xs[j]);
      } else {
        InRemove(xs[1..], id, x);
      }
    }
  }

  lemma {:induction false} InSetQty(xs: seq<Order<nat>>, id: nat, qty: nat, x: Order<nat>)
    requires forall i, j :: 0 <= i < j < |xs| ==> Differ(xs[i], xs[j])
    ensures x in SetQty(xs, id, qty)
      <==> (x in xs && x.id != id) || (exists y :: y in xs && y.id == id && x == y.(qty := qty))
  {
    if xs != [] {
      if xs[0].id == id {
        assert forall j :: 0 < j < |xs| ==> Differ(xs[0], xs[j]);
        assert SetQty(xs, id, qty) == [xs[0].(qty := qty)] + xs[1..];
      } else {
        InSetQty(xs[1..], id, qty, x);
        assert forall y :: y in xs <==> y == xs[0] || y in xs[1..];
      }
    }
  }
}
