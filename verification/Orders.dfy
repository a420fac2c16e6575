/** The small pure book every concrete structure is compared with: one list of orders
    a side, from the first to trade to the last. */
module Orders {
  import opened Types

  /** `key` is what the owning book looks the order up by. */
  datatype Order<K> = Order(key: K, id: nat, side: Side, price: nat, qty: nat, priority: nat)

  datatype Book<K> = Book(bids: seq<Order<K>>, asks: seq<Order<K>>) {
    function On(side: Side): seq<Order<K>> {
      if side.Buy? then bids else asks
    }

    function With(side: Side, xs: seq<Order<K>>): Book<K> {
      if side.Buy? then this.(bids := xs) else this.(asks := xs)
    }
  }

  /** Price first, then time; ids and priorities both record time. */
  ghost predicate Before<K>(side: Side, a: Order<K>, b: Order<K>) {
    Better(side, a.price, b.price) || (a.price == b.price && a.id < b.id && a.priority < b.priority)
  }

  ghost predicate Live<K>(side: Side, o: Order<K>) {
    o.side == side && 0 < o.qty
  }

  ghost predicate Sorted<K>(side: Side, xs: seq<Order<K>>) {
    && (forall i, j :: 0 <= i < j < |xs| ==> Before(side, xs[i], xs[j]))
    && (forall i :: 0 <= i < |xs| ==> Live(side, xs[i]))
  }

  ghost predicate Differ<K>(x: Order<K>, y: Order<K>) {
    x.id != y.id && x.key != y.key
  }

  lemma {:induction false} OnlyOne<K>(xs: seq<Order<K>>, x: Order<K>, y: Order<K>)
    requires (forall i, j :: 0 <= i < j < |xs| ==> Differ(xs[i], xs[j])) && x in xs && y in xs
    requires x.id == y.id || x.key == y.key
    ensures x == y
  {
  }

  /** No two orders of the book share an id or a key. */
  ghost predicate AllDiffer<K>(xs: seq<Order<K>>, ys: seq<Order<K>>) {
    && (forall i, j :: 0 <= i < j < |xs| ==> Differ(xs[i], xs[j]))
    && (forall i, j :: 0 <= i < j < |ys| ==> Differ(ys[i], ys[j]))
    && (forall i, j :: 0 <= i < |xs| && 0 <= j < |ys| ==> Differ(xs[i], ys[j]))
  }

  ghost predicate Uncrossed<K>(b: Book<K>) {
    forall i, j :: 0 <= i < |b.bids| && 0 <= j < |b.asks| ==> b.bids[i].price < b.asks[j].price
  }

  ghost predicate WellFormed<K>(b: Book<K>) {
    Sorted(Buy, b.bids) && Sorted(Sell, b.asks) && Uncrossed(b) && AllDiffer(b.bids, b.asks)
  }

  ghost predicate InBook<K>(b: Book<K>, o: Order<K>) {
    o in b.bids || o in b.asks
  }

  /** Every live order whose price shares the slot of `price` has that price and side. */
  ghost predicate OwnsSlot<K(!new)>(b: Book<K>, side: Side, price: nat) {
    forall o :: InBook(b, o) && Slot(o.price) == Slot(price) ==> o.price == price && o.side == side
  }

  ghost predicate FreshKey<K(!new)>(b: Book<K>, key: K) {
    forall o :: InBook(b, o) ==> o.key != key
  }

  // ----- the three changes a book can undergo

  /** Queue an order behind everything at least as aggressive. */
  function Place<K>(xs: seq<Order<K>>, o: Order<K>): seq<Order<K>> {
    if xs == [] || Better(o.side, o.price, xs[0].price) then [o] + xs else [xs[0]] + Place(xs[1..], o)
  }

  function Remove<K>(xs: seq<Order<K>>, id: nat): seq<Order<K>> {
    if xs == [] then [] else if xs[0].id == id then xs[1..] else [xs[0]] + Remove(xs[1..], id)
  }

  function SetQty<K>(xs: seq<Order<K>>, id: nat, qty: nat): seq<Order<K>> {
    if xs == [] then []
    else if xs[0].id == id then [xs[0].(qty := qty)] + xs[1..]
    else [xs[0]] + SetQty(xs[1..], id, qty)
  }

  /** The priority of the last order queued at `price`, 0 when there is none. */
  function LastPriority<K>(xs: seq<Order<K>>, price: nat): nat {
    if xs == [] then 0
    else if xs[|xs| - 1].price == price then xs[|xs| - 1].priority
    else LastPriority(xs[..|xs| - 1], price)
  }

  function SumQty<K>(xs: seq<Order<K>>): nat {
    if xs == [] then 0 else xs[0].qty + SumQty(xs[1..])
  }

  function FindId<K>(xs: seq<Order<K>>, id: nat): Option<Order<K>> {
    if xs == [] then None else if xs[0].id == id then Some(xs[0]) else FindId(xs[1..], id)
  }

  // ----- where the changes happen

  lemma {:induction false} PlacedAt<K>(xs: seq<Order<K>>, ys: seq<Order<K>>, o: Order<K>)
    requires forall x :: x in xs ==> !Better(o.side, o.price, x.price)
    requires ys == [] || Better(o.side, o.price, ys[0].price)
    ensures Place(xs + ys, o) == xs + [o] + ys
  {
    if xs == [] {
      assert xs + ys == ys;
    } else {
      PlacedAt(xs[1..], ys, o);
      assert (xs + ys)[1..] == xs[1..] + ys;
    }
  }

  lemma {:induction false} RemovedAt<K>(xs: seq<Order<K>>, o: Order<K>, ys: seq<Order<K>>)
    requires forall x :: x in xs ==> x.id != o.id
    ensures Remove(xs + [o] + ys, o.id) == xs + ys
  {
    var all := xs + [o] + ys;
    if xs == [] {
      assert all[1..] == ys == xs + ys;
    } else {
      RemovedAt(xs[1..], o, ys);
      assert all[1..] == xs[1..] + [o] + ys;
    }
  }

  lemma {:induction false} QtySetAt<K>(xs: seq<Order<K>>, o: Order<K>, ys: seq<Order<K>>, qty: nat)
    requires forall x :: x in xs ==> x.id != o.id
    ensures SetQty(xs + [o] + ys, o.id, qty) == xs + [o.(qty := qty)] + ys
  {
    var all := xs + [o] + ys;
    if xs == [] {
      assert all[1..] == ys;
    } else {
      QtySetAt(xs[1..], o, ys, qty);
      assert all[1..] == xs[1..] + [o] + ys;
    }
  }

  lemma {:induction false} NothingToRemove<K>(xs: seq<Order<K>>, id: nat, qty: nat)
    requires forall x :: x in xs ==> x.id != id
    ensures Remove(xs, id) == xs == SetQty(xs, id, qty)
  {
    if xs != [] {
      NothingToRemove(xs[1..], id, qty);
    }
  }

  lemma {:induction false} PlaceAfterFirst<K>(xs: seq<Order<K>>, o: Order<K>, j: nat)
    requires xs != [] && !Better(o.side, o.price, xs[0].price) && j < |xs|
    requires Place(xs[1..], o) == xs[1..][..j] + [o] + xs[1..][j..]
    ensures Place(xs, o) == xs[..j + 1] + [o] + xs[j + 1..]
  {
  }

  /** A sorted side splits at the place of a new order. */
  lemma {:induction false} PlaceSplits<K>(side: Side, xs: seq<Order<K>>, o: Order<K>) returns (k: nat)
    requires Sorted(side, xs) && o.side == side
    ensures k <= |xs| && Place(xs, o) == xs[..k] + [o] + xs[k..]
    ensures forall i :: 0 <= i < k ==> !Better(side, o.price, xs[i].price)
    ensures forall i :: k <= i < |xs| ==> Better(side, o.price, xs[i].price)
  {
    if xs == [] || Better(side, o.price, xs[0].price) {
      k := 0;
      assert forall i :: 0 < i < |xs| ==> Before(side, xs[0], xs[i]);
    } else {
      var j := PlaceSplits(side, xs[1..], o);
      k := j + 1;
      PlaceAfterFirst(xs, o, j);
      assert forall i :: 0 < i < |xs| ==> xs[i] == xs[1..][i - 1];
    }
  }

  /** A new order with the latest id and the next priority keeps price-time order. */
  lemma {:induction false} PlaceKeepsSorted<K>(side: Side, xs: seq<Order<K>>, o: Order<K>)
    requires Sorted(side, xs) && Live(side, o)
    requires forall x :: x in xs ==> x.id < o.id && (x.price == o.price ==> x.priority < o.priority)
    ensures Sorted(side, Place(xs, o))
  {
    var k := PlaceSplits(side, xs, o);
    var r := Place(xs, o);
    forall i, j | 0 <= i < j < |r|
      ensures Before(side, r[i], r[j])
    {
      var a, b := if i < k then i else i - 1, if j < k then j else j - 1;
      assert i != k && j != k ==> Before(side, xs[a], xs[b]);
    }
  }

  lemma {:induction false} LastPriorityIsLast<K>(side: Side, xs: seq<Order<K>>, price: nat)
    requires Sorted(side, xs)
    ensures forall x :: x in xs && x.price == price ==> x.priority <= LastPriority(xs, price)
  {
    if xs != [] {
      var n := |xs| - 1;
      LastPriorityIsLast(side, xs[..n], price);
      forall x | x in xs && x.price == price
        ensures x.priority <= LastPriority(xs, price)
      {
        var i :| 0 <= i < |xs| && xs[i] == x;
        assert i < n ==> x == xs[..n][i] && Before(side, xs[i], xs[n]);
      }
    }
  }

  /** The last order at a price decides, wherever that price ends. */
  lemma {:induction false} LastPriorityAt<K>(xs: seq<Order<K>>, last: Order<K>, ys: seq<Order<K>>)
    requires forall y :: y in ys ==> y.price != last.price
    ensures LastPriority(xs + [last] + ys, last.price) == last.priority
  {
    var all := xs + [last] + ys;
    if ys == [] {
      assert all[|all| - 1] == last;
    } else {
      var n := |ys| - 1;
      LastPriorityAt(xs, last, ys[..n]);
      assert all[..|all| - 1] == xs + [last] + ys[..n] && all[|all| - 1] == ys[n] && ys[n] in ys;
    }
  }

  lemma {:induction false} NoPriorityAt<K>(xs: seq<Order<K>>, price: nat)
    requires forall x :: x in xs ==> x.price != price
    ensures LastPriority(xs, price) == 0
  {
    if xs != [] {
      var n := |xs| - 1;
      assert xs[n] in xs;
      NoPriorityAt(xs[..n], price);
    }
  }

  lemma {:induction false} SumSplits<K>(xs: seq<Order<K>>, ys: seq<Order<K>>)
    ensures SumQty(xs + ys) == SumQty(xs) + SumQty(ys)
  {
    if xs == [] {
      assert xs + ys == ys;
    } else {
      SumSplits(xs[1..], ys);
      assert (xs + ys)[1..] == xs[1..] + ys;
    }
  }

  // ----- the changes keep a book well formed

  /** Nothing on the other side would trade with an order at this price. */
  ghost predicate NothingCrosses<K>(b: Book<K>, side: Side, price: nat) {
    var ys := b.On(Opposite(side));
    ys == [] || !Crosses(side, price, ys[0].price)
  }

  /** `o` comes after every order of the book and fits in without crossing it. */
  ghost predicate MayPlace<K(!new)>(b: Book<K>, o: Order<K>) {
    && 0 < o.qty
    && (forall x :: InBook(b, x) ==> x.id < o.id && x.key != o.key)
    && (forall x :: x in b.On(o.side) && x.price == o.price ==> x.priority < o.priority)
    && NothingCrosses(b, o.side, o.price)
  }

  lemma {:induction false} InPlace<K>(xs: seq<Order<K>>, o: Order<K>, x: Order<K>)
    ensures x in Place(xs, o) <==> x in xs || x == o
  {
    if xs != [] && !Better(o.side, o.price, xs[0].price) {
      InPlace(xs[1..], o, x);
    }
  }

  lemma {:induction false} PlaceKeepsDiffer<K>(xs: seq<Order<K>>, ys: seq<Order<K>>, o: Order<K>)
    requires AllDiffer(xs, ys) && Sorted(o.side, xs)
    requires forall x :: x in xs || x in ys ==> Differ(x, o)
    ensures AllDiffer(Place(xs, o), ys)
  {
    var k := PlaceSplits(o.side, xs, o);
    var r := Place(xs, o);
    forall i | 0 <= i < |r|
      ensures i != k ==> r[i] == xs[if i < k then i else i - 1] && Differ(r[i], o)
      ensures i == k ==> r[i] == o
    {
      assert i != k ==> xs[if i < k then i else i - 1] in xs;
    }
    forall i, j | 0 <= i < |r| && 0 <= j < |ys|
      ensures Differ(r[i], ys[j])
    {
      assert ys[j] in ys;
    }
  }

  lemma {:induction false} NothingCrossesAny<K>(b: Book<K>, side: Side, price: nat)
    requires Sorted(Opposite(side), b.On(Opposite(side))) && NothingCrosses(b, side, price)
    ensures forall y :: y in b.On(Opposite(side)) ==> !Crosses(side, price, y.price)
  {
  }

  lemma {:induction false} DifferFlip<K>(xs: seq<Order<K>>, ys: seq<Order<K>>)
    requires AllDiffer(xs, ys)
    ensures AllDiffer(ys, xs)
  {
  }

  lemma {:induction false} PlaceKeepsBook<K(!new)>(b: Book<K>, o: Order<K>)
    requires WellFormed(b) && MayPlace(b, o)
    ensures WellFormed(b.With(o.side, Place(b.On(o.side), o)))
  {
    var xs, ys := b.On(o.side), b.On(Opposite(o.side));
    var c := b.With(o.side, Place(xs, o));
    PlaceKeepsSorted(o.side, xs, o);
    DifferFlip(b.bids, b.asks);
    PlaceKeepsDiffer(xs, ys, o);
    DifferFlip(Place(xs, o), ys);
    NothingCrossesAny(b, o.side, o.price);
    forall i, j | 0 <= i < |c.bids| && 0 <= j < |c.asks|
      ensures c.bids[i].price < c.asks[j].price
    {
      InPlace(xs, o, c.On(o.side)[if o.side.Buy? then i else j]);
      assert b.bids == if o.side.Buy? then xs else ys;
    }
  }

  /** Removing an order keeps the others as they are. */
  lemma {:induction false} RemoveSplits<K>(xs: seq<Order<K>>, id: nat) returns (k: nat)
    ensures k <= |xs| && (k == |xs| <==> forall x :: x in xs ==> x.id != id)
    ensures k < |xs| ==> xs[k].id == id && Remove(xs, id) == xs[..k] + xs[k + 1..]
    ensures k == |xs| ==> Remove(xs, id) == xs
    ensures forall x :: x in xs[..k] ==> x.id != id
  {
    if xs == [] {
      k := 0;
    } else if xs[0].id == id {
      k := 0;
    } else {
      var t := xs[1..];
      var j := RemoveSplits(t, id);
      k := j + 1;
      assert xs[..k] == [xs[0]] + t[..j];
      assert j < |t| ==> xs[k + 1..] == t[j + 1..];
      assert j == |t| ==> forall x :: x in xs ==> x.id != id;
    }
  }

  lemma {:induction false} RemoveKeepsBook<K(!new)>(b: Book<K>, side: Side, id: nat)
    requires WellFormed(b)
    ensures WellFormed(b.With(side, Remove(b.On(side), id)))
    ensures forall x :: x in Remove(b.On(side), id) ==> x in b.On(side) && x.id != id
  {
    var xs := b.On(side);
    var k := RemoveSplits(xs, id);
    if k < |xs| {
      DropKeepsBook(b, side, k);
      assert forall i :: 0 <= i < |xs| && i != k ==> xs[i].id != id;
    }
  }

  /** `ys` is `xs` without its k-th order. */
  ghost predicate WithoutOne<K>(xs: seq<Order<K>>, ys: seq<Order<K>>, k: nat) {
    |ys| + 1 == |xs| && forall i :: 0 <= i < |ys| ==> ys[i] == xs[if i < k then i else i + 1]
  }

  lemma {:induction false} DropKeepsSorted<K>(side: Side, xs: seq<Order<K>>, ys: seq<Order<K>>, k: nat)
    requires Sorted(side, xs) && WithoutOne(xs, ys, k)
    ensures Sorted(side, ys)
  {
  }

  lemma {:induction false} DropKeepsDiffer<K>(xs: seq<Order<K>>, ys: seq<Order<K>>, zs: seq<Order<K>>, k: nat)
    requires AllDiffer(xs, zs) && WithoutOne(xs, ys, k)
    ensures AllDiffer(ys, zs)
  {
  }

  lemma {:induction false} DropKeepsBook<K>(b: Book<K>, side: Side, k: nat)
    requires WellFormed(b) && k < |b.On(side)|
    ensures WellFormed(b.With(side, b.On(side)[..k] + b.On(side)[k + 1..]))
  {
    hide Sorted, AllDiffer;
    var xs := b.On(side);
    var ys := xs[..k] + xs[k + 1..];
    assert WithoutOne(xs, ys, k);
    DropKeepsSorted(side, xs, ys, k);
    DifferFlip(b.bids, b.asks);
    DropKeepsDiffer(xs, ys, b.On(Opposite(side)), k);
    DifferFlip(ys, b.On(Opposite(side)));
  }

  // ----- a side is determined by the orders in it

  lemma {:induction false} SameOrdersSameSide<K(!new)>(side: Side, xs: seq<Order<K>>, ys: seq<Order<K>>)
    requires Sorted(side, xs) && Sorted(side, ys)
    requires forall o :: o in xs <==> o in ys
    ensures xs == ys
  {
    if ys != [] {
      assert ys[0] in xs;
    }
    if xs != [] {
      assert xs[0] in ys && ys != [];
      HeadsAgree(side, xs, ys);
      forall o
        ensures o in xs[1..] <==> o in ys[1..]
      {
        InTail(side, xs, o);
        InTail(side, ys, o);
      }
      SameOrdersSameSide(side, xs[1..], ys[1..]);
      assert xs == [xs[0]] + xs[1..] && ys == [ys[0]] + ys[1..];
    }
  }

  lemma {:induction false} HeadsAgree<K>(side: Side, xs: seq<Order<K>>, ys: seq<Order<K>>)
    requires Sorted(side, xs) && Sorted(side, ys) && xs != [] && ys != []
    requires xs[0] in ys && ys[0] in xs
    ensures xs[0] == ys[0]
  {
  }

  lemma {:induction false} InTail<K>(side: Side, xs: seq<Order<K>>, o: Order<K>)
    requires Sorted(side, xs) && xs != []
    ensures o in xs[1..] <==> o in xs && o != xs[0]
  {
  }
}
