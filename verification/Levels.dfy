/** One side of a book as its price levels, and what that says about the flat side. */
module Levels {
  import opened Types
  import opened Orders
  import opened Rings

  datatype Level<K> = Level(price: nat, orders: seq<Order<K>>)

  ghost predicate LevelOk<K>(side: Side, l: Level<K>) {
    l.orders != [] && forall o :: o in l.orders ==> o.side == side && o.price == l.price
  }

  ghost predicate LevelsOk<K>(side: Side, ls: seq<Level<K>>) {
    && (forall i, j :: 0 <= i < j < |ls| ==> Better(side, ls[i].price, ls[j].price))
    && (forall i :: 0 <= i < |ls| ==> LevelOk(side, ls[i]))
  }

  function Flatten<K>(ls: seq<Level<K>>): seq<Order<K>> {
    if ls == [] then [] else ls[0].orders + Flatten(ls[1..])
  }

  lemma {:induction false} FlattenSplits<K>(a: seq<Level<K>>, b: seq<Level<K>>)
    ensures Flatten(a + b) == Flatten(a) + Flatten(b)
  {
    if a == [] {
      assert a + b == b;
    } else {
      calc {
        Flatten(a + b);
        { assert (a + b)[0] == a[0] && (a + b)[1..] == a[1..] + b; }
        a[0].orders + Flatten(a[1..] + b);
        { FlattenSplits(a[1..], b); }
        a[0].orders + (Flatten(a[1..]) + Flatten(b));
        (a[0].orders + Flatten(a[1..])) + Flatten(b);
        Flatten(a) + Flatten(b);
      }
    }
  }

  lemma {:induction false} InFlatten<K>(ls: seq<Level<K>>, o: Order<K>)
    ensures o in Flatten(ls) <==> exists k :: 0 <= k < |ls| && o in ls[k].orders
  {
    if ls != [] {
      InFlatten(ls[1..], o);
      if o in Flatten(ls[1..]) {
        var k :| 0 <= k < |ls| - 1 && o in ls[1..][k].orders;
        assert o in ls[k + 1].orders;
      }
      if k :| 0 <= k < |ls| && o in ls[k].orders {
        assert k > 0 ==> o in ls[1..][k - 1].orders;
      }
    }
  }

  /** Flattening around level k. */
  lemma {:induction false} FlattenAround<K>(ls: seq<Level<K>>, k: nat)
    requires k < |ls|
    ensures Flatten(ls) == Flatten(ls[..k]) + ls[k].orders + Flatten(ls[k + 1..])
  {
    FlattenSplits(ls[..k], [ls[k]] + ls[k + 1..]);
    FlattenSplits([ls[k]], ls[k + 1..]);
    assert ls == ls[..k] + ([ls[k]] + ls[k + 1..]);
    assert Flatten([ls[k]]) == ls[k].orders;
  }

  lemma {:induction false} FlattenUpdated<K>(ls: seq<Level<K>>, k: nat, l: Level<K>)
    requires k < |ls|
    ensures Flatten(ls[k := l]) == Flatten(ls[..k]) + l.orders + Flatten(ls[k + 1..])
  {
    FlattenAround(ls[k := l], k);
    assert ls[k := l][..k] == ls[..k] && ls[k := l][k + 1..] == ls[k + 1..];
  }

  lemma {:induction false} FlattenKeepsBetter<K>(side: Side, ls: seq<Level<K>>, price: nat)
    requires LevelsOk(side, ls)
    ensures (forall i :: 0 <= i < |ls| ==> !Better(side, price, ls[i].price))
        ==> forall o :: o in Flatten(ls) ==> !Better(side, price, o.price)
    ensures (forall i :: 0 <= i < |ls| ==> Better(side, price, ls[i].price))
        ==> forall o :: o in Flatten(ls) ==> Better(side, price, o.price)
  {
    forall o | o in Flatten(ls)
      ensures exists k :: 0 <= k < |ls| && o.price == ls[k].price
    {
      InFlatten(ls, o);
      var k :| 0 <= k < |ls| && o in ls[k].orders;
      assert LevelOk(side, ls[k]);
    }
  }

  // ----- each change to the levels is the corresponding change to the flat side

  lemma {:induction false} AppendIsPlace<K>(ls: seq<Level<K>>, k: nat, o: Order<K>)
    requires LevelsOk(o.side, ls) && k < |ls| && ls[k].price == o.price
    ensures Flatten(ls[k := Level(o.price, ls[k].orders + [o])]) == Place(Flatten(ls), o)
  {
    var pre, q, y := Flatten(ls[..k]), ls[k].orders, Flatten(ls[k + 1..]);
    FlattenAround(ls, k);
    FlattenUpdated(ls, k, Level(o.price, q + [o]));
    assert pre + (q + [o]) + y == (pre + q) + [o] + y;
    assert forall x: Order<K> :: x in pre + q ==> !Better(o.side, o.price, x.price) by {
      FlattenKeepsBetter(o.side, ls[..k], o.price);
      assert LevelOk(o.side, ls[k]);
    }
    assert y == [] || Better(o.side, o.price, y[0].price) by {
      FlattenKeepsBetter(o.side, ls[k + 1..], o.price);
    }
    PlacedAt(pre + q, y, o);
  }

  lemma {:induction false} NewLevelIsPlace<K>(ls: seq<Level<K>>, k: nat, o: Order<K>)
    requires LevelsOk(o.side, ls) && k <= |ls|
    requires forall i :: 0 <= i < k ==> Better(o.side, ls[i].price, o.price)
    requires forall i :: k <= i < |ls| ==> Better(o.side, o.price, ls[i].price)
    ensures Flatten(InsertAt(ls, k, Level(o.price, [o]))) == Place(Flatten(ls), o)
  {
    hide Flatten, Place, LevelsOk, Better;
    var r := InsertAt(ls, k, Level(o.price, [o]));
    FlattenAround(r, k);
    assert r[..k] == ls[..k] && r[k + 1..] == ls[k..];
    FlattenSplits(ls[..k], ls[k..]);
    assert ls == ls[..k] + ls[k..];
    AroundPlace(ls, k, o);
    PlacedAt(Flatten(ls[..k]), Flatten(ls[k..]), o);
  }

  /** The orders before and behind the place of a new level. */
  lemma {:induction false} AroundPlace<K>(ls: seq<Level<K>>, k: nat, o: Order<K>)
    requires LevelsOk(o.side, ls) && k <= |ls|
    requires forall i :: 0 <= i < k ==> Better(o.side, ls[i].price, o.price)
    requires forall i :: k <= i < |ls| ==> Better(o.side, o.price, ls[i].price)
    ensures forall x :: x in Flatten(ls[..k]) ==> !Better(o.side, o.price, x.price)
    ensures Flatten(ls[k..]) == [] || Better(o.side, o.price, Flatten(ls[k..])[0].price)
  {
    hide Flatten;
    FlattenKeepsBetter(o.side, ls[..k], o.price);
    FlattenKeepsBetter(o.side, ls[k..], o.price);
    var y := Flatten(ls[k..]);
    assert y != [] ==> y[0] in y;
  }

  /** Order j of level k stands between the orders before it and those after it. */
  lemma {:induction false} FlattenAroundOrder<K>(ls: seq<Level<K>>, k: nat, j: nat, os: seq<Order<K>>)
    requires k < |ls| && j < |ls[k].orders|
    ensures var pre, post := Flatten(ls[..k]) + ls[k].orders[..j], ls[k].orders[j + 1..] + Flatten(ls[k + 1..]);
      && Flatten(ls) == pre + [ls[k].orders[j]] + post
      && Flatten(ls[k := Level(ls[k].price, ls[k].orders[..j] + os + ls[k].orders[j + 1..])]) == pre + os + post
  {
    var q := ls[k].orders;
    FlattenAround(ls, k);
    FlattenUpdated(ls, k, Level(ls[k].price, q[..j] + os + q[j + 1..]));
    assert q == q[..j] + [q[j]] + q[j + 1..];
  }

  ghost predicate UniqueId<K>(xs: seq<Order<K>>, o: Order<K>) {
    forall i, j :: 0 <= i < j < |xs| && xs[j] == o ==> xs[i].id != o.id
  }

  lemma {:induction false} PrefixLacksId<K>(pre: seq<Order<K>>, o: Order<K>, post: seq<Order<K>>)
    requires UniqueId(pre + [o] + post, o)
    ensures forall x :: x in pre ==> x.id != o.id
  {
    var all := pre + [o] + post;
    assert all[|pre|] == o;
    assert forall i :: 0 <= i < |pre| ==> all[i] == pre[i];
  }

  lemma {:induction false} DropOrderIsRemove<K>(ls: seq<Level<K>>, k: nat, j: nat)
    requires k < |ls| && j < |ls[k].orders| && UniqueId(Flatten(ls), ls[k].orders[j])
    ensures Flatten(ls[k := Level(ls[k].price, RemoveAt(ls[k].orders, j))]) == Remove(Flatten(ls), ls[k].orders[j].id)
  {
    var q := ls[k].orders;
    FlattenAroundOrder(ls, k, j, []);
    assert q[..j] + [] + q[j + 1..] == RemoveAt(q, j);
    var pre, post := Flatten(ls[..k]) + q[..j], q[j + 1..] + Flatten(ls[k + 1..]);
    PrefixLacksId(pre, q[j], post);
    RemovedAt(pre, q[j], post);
    assert pre + [] + post == pre + post;
  }

  lemma {:induction false} DropLevelIsRemove<K>(ls: seq<Level<K>>, k: nat)
    requires k < |ls| && |ls[k].orders| == 1 && UniqueId(Flatten(ls), ls[k].orders[0])
    ensures Flatten(RemoveAt(ls, k)) == Remove(Flatten(ls), ls[k].orders[0].id)
  {
    DropOrderIsRemove(ls, k, 0);
    FlattenUpdated(ls, k, Level(ls[k].price, RemoveAt(ls[k].orders, 0)));
    FlattenSplits(ls[..k], ls[k + 1..]);
    assert RemoveAt(ls[k].orders, 0) == [];
  }

  lemma {:induction false} SetQtyInLevel<K>(ls: seq<Level<K>>, k: nat, j: nat, qty: nat)
    requires k < |ls| && j < |ls[k].orders| && UniqueId(Flatten(ls), ls[k].orders[j])
    ensures var q := ls[k].orders;
      Flatten(ls[k := Level(ls[k].price, q[j := q[j].(qty := qty)])]) == SetQty(Flatten(ls), q[j].id, qty)
  {
    var q := ls[k].orders;
    var o := q[j].(qty := qty);
    FlattenAroundOrder(ls, k, j, [o]);
    assert q[..j] + [o] + q[j + 1..] == q[j := o];
    var pre, post := Flatten(ls[..k]) + q[..j], q[j + 1..] + Flatten(ls[k + 1..]);
    PrefixLacksId(pre, q[j], post);
    QtySetAt(pre, q[j], post, qty);
  }

  lemma {:induction false} LastPriorityInLevel<K>(side: Side, ls: seq<Level<K>>, k: nat)
    requires LevelsOk(side, ls) && k < |ls|
    ensures ls[k].orders != [] && LastPriority(Flatten(ls), ls[k].price) == ls[k].orders[|ls[k].orders| - 1].priority
  {
    assert LevelOk(side, ls[k]);
    var q, price := ls[k].orders, ls[k].price;
    var n := |q| - 1;
    assert q[n] in q;
    FlattenAroundOrder(ls, k, n, []);
    FlattenKeepsBetter(side, ls[k + 1..], price);
    LastPriorityAt(Flatten(ls[..k]) + q[..n], q[n], q[n + 1..] + Flatten(ls[k + 1..]));
  }

  // ----- levels and flat side carry the same information

  /** Well formed levels are the unique grouping of their flat side: equal flat sides
      have the same levels in the same order with the same queues. */
  lemma {:induction false} FlattenInjective<K>(side: Side, a: seq<Level<K>>, b: seq<Level<K>>)
    requires LevelsOk(side, a) && LevelsOk(side, b) && Flatten(a) == Flatten(b)
    ensures a == b
  {
    if a == [] {
      assert b != [] ==> LevelOk(side, b[0]);
    } else {
      assert LevelOk(side, a[0]);
      assert b != [];
      assert LevelOk(side, b[0]);
      FirstLevelEnds(side, a);
      FirstLevelEnds(side, b);
      assert a[0].price == Flatten(a)[0].price == b[0].price;
      var m, n := |a[0].orders|, |b[0].orders|;
      assert m < |Flatten(a)| ==> Flatten(a)[m].price != a[0].price;
      assert n < |Flatten(b)| ==> Flatten(b)[n].price != b[0].price;
      assert m == n;
      assert a[0].orders == Flatten(a)[..|a[0].orders|] == b[0].orders;
      assert Flatten(a[1..]) == Flatten(a)[|a[0].orders|..];
      assert Flatten(b[1..]) == Flatten(b)[|b[0].orders|..];
      FlattenInjective(side, a[1..], b[1..]);
      assert a == [a[0]] + a[1..] && b == [b[0]] + b[1..];
    }
  }

  lemma {:induction false} FirstLevelEnds<K>(side: Side, ls: seq<Level<K>>)
    requires LevelsOk(side, ls) && ls != []
    ensures forall i :: 0 <= i < |Flatten(ls)| ==>
      (i < |ls[0].orders| <==> Flatten(ls)[i].price == ls[0].price)
  {
    var xs: seq<Order<K>>, ys: seq<Order<K>> := ls[0].orders, Flatten(ls[1..]);
    var all: seq<Order<K>> := xs + ys;
    assert LevelOk(side, ls[0]);
    FlattenKeepsBetter(side, ls[1..], ls[0].price);
    forall i | 0 <= i < |all|
      ensures i < |xs| <==> all[i].price == ls[0].price
    {
      if i < |xs| {
        assert xs[i] in xs;
      } else {
        assert ys[i - |xs|] in ys;
      }
    }
  }
}
