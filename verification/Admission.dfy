/** What a recovered consumer passes on meets the conditions under which the subscriber's linked
    books take it, when the exchange's own books share no index entry and stay within the pools. */
module Admission {
  import opened Types
  import opened Orders
  import opened Messages
  import opened MarketData
  import opened Snapshots
  import opened Recovery
  import opened Capacity
  import opened Windows

  /** Live prices that do not share a slot, and a block of each pool to spare. */
  ghost predicate Holdable(b: Book<nat>, levels: nat, orders: nat) {
    Unshared(b) && OrderCount(b) < orders && LevelCount(b) < levels
  }

  /** What a linked book asks for when an order is added. */
  ghost predicate Takes(b: Book<nat>, u: MarketUpdate, levels: nat, orders: nat) {
    u.Add? ==> OwnsSlot(b, u.side, u.price) && RoomFor(b, u.side, u.price, levels, orders)
  }

  ghost predicate AllTaken(m: Market, us: seq<MarketUpdate>, levels: nat, orders: nat)
    decreases us
  {
    us == [] || (
      && FitsIn(m, us[0]) && Takes(m[us[0].ticker], us[0], levels, orders)
      && AllTaken(ApplyIn(m, us[0]), us[1..], levels, orders))
  }

  lemma {:induction false} AllTakenSplits(m: Market, us: seq<MarketUpdate>, vs: seq<MarketUpdate>, levels: nat,
                                          orders: nat)
    ensures AllTaken(m, us + vs, levels, orders) <==>
      AllTaken(m, us, levels, orders) && AllTaken(Replay(m, us), vs, levels, orders)
    decreases us
  {
    hide FitsIn, Takes;
    if us == [] {
      assert us + vs == vs;
    } else {
      AllTakenSplits(ApplyIn(m, us[0]), us[1..], vs, levels, orders);
      assert (us + vs)[0] == us[0] && (us + vs)[1..] == us[1..] + vs;
    }
  }

  /** The book after an addition is within bounds exactly when the book before was, and had an
      index entry and the blocks for it. */
  lemma {:induction false} AddHeldIff(b: Book<nat>, u: MarketUpdate, levels: nat, orders: nat)
    requires WellFormed(b) && Fits(b, u) && u.Add?
    ensures Holdable(Apply(b, u), levels, orders) <==> Holdable(b, levels, orders) && Takes(b, u, levels, orders)
  {
    var o, xs := Listed(u.id, u.side, u.price, u.qty, u.priority), b.On(u.side);
    UncrossedOwnsSlot(b, u.side, u.price);
    PlaceCounts(u.side, xs, o);
    AddUnshared(b, o);
    hide WellFormed, Unshared, OwnsSlot, InWindow, MayPlace;
    assert Apply(b, u) == b.With(u.side, Place(xs, o));
  }

  lemma {:induction false} AddUnshared(b: Book<nat>, o: Order<nat>)
    ensures Unshared(b.With(o.side, Place(b.On(o.side), o))) <==> Unshared(b) && InWindow(b, o.price)
  {
    var c := b.With(o.side, Place(b.On(o.side), o));
    forall x
      ensures InBook(c, x) <==> InBook(b, x) || x == o
    {
      InPlace(b.On(o.side), o, x);
    }
    assert InBook(c, o);
  }

  lemma {:induction false} HeldIsTaken(b: Book<nat>, u: MarketUpdate, levels: nat, orders: nat)
    requires WellFormed(b) && Fits(b, u) && Holdable(Apply(b, u), levels, orders)
    ensures Takes(b, u, levels, orders)
  {
    hide Holdable, WellFormed, Fits, Apply;
    if u.Add? {
      AddHeldIff(b, u, levels, orders);
    }
  }

  lemma {:induction false} PlaceCounts(side: Side, xs: seq<Order<nat>>, o: Order<nat>)
    requires Sorted(side, xs) && o.side == side
    ensures |Place(xs, o)| == |xs| + 1 && Prices(Place(xs, o)) == Prices(xs) + {o.price}
    ensures |Prices(Place(xs, o))| == |Prices(xs)| + if o.price in Prices(xs) then 0 else 1
  {
    var k := PlaceSplits(side, xs, o);
    forall p
      ensures p in Prices(Place(xs, o)) <==> p in Prices(xs) || p == o.price
    {
      if p in Prices(Place(xs, o)) {
        var x :| x in Place(xs, o) && x.price == p;
        InPlace(xs, o, x);
      }
      InPlace(xs, o, o);
      if x :| x in xs && x.price == p {
        InPlace(xs, o, x);
      }
    }
    assert o.price in Prices(xs) ==> Prices(xs) + {o.price} == Prices(xs);
  }

  // ----- the stream of an exchange

  ghost predicate HoldableMarket(m: Market, levels: nat, orders: nat) {
    forall t :: 0 <= t < |m| ==> Holdable(m[t], levels, orders)
  }

  /** The exchange's books are within bounds after every update. */
  ghost predicate Bounded(m: Market, us: seq<MarketUpdate>, levels: nat, orders: nat) {
    forall k :: 0 <= k <= |us| ==> HoldableMarket(Replay(m, us[..k]), levels, orders)
  }

  lemma {:induction false} BoundedTail(m: Market, us: seq<MarketUpdate>, levels: nat, orders: nat)
    requires Bounded(m, us, levels, orders) && us != []
    ensures Bounded(ApplyIn(m, us[0]), us[1..], levels, orders) && HoldableMarket(ApplyIn(m, us[0]), levels, orders)
  {
    hide HoldableMarket;
    var n := ApplyIn(m, us[0]);
    forall k | 0 <= k <= |us| - 1
      ensures Replay(n, us[1..][..k]) == Replay(m, us[..k + 1])
    {
      assert us[..k + 1][0] == us[0] && us[..k + 1][1..] == us[1..][..k];
    }
    assert us[1..][..0] == [] && Replay(n, []) == n;
  }

  lemma {:induction false} StreamTaken(m: Market, us: seq<MarketUpdate>, levels: nat, orders: nat)
    requires WellFormedMarket(m) && AllFit(m, us) && Bounded(m, us, levels, orders)
    ensures AllTaken(m, us, levels, orders)
    decreases us
  {
    hide Bounded, Holdable, Takes, WellFormed, Fits, Apply;
    if us != [] {
      var u := us[0];
      BoundedTail(m, us, levels, orders);
      HeldIsTaken(m[u.ticker], u, levels, orders);
      ApplyKeeps(m[u.ticker], u);
      StreamTaken(ApplyIn(m, u), us[1..], levels, orders);
    }
  }

  // ----- snapshot bodies

  lemma {:induction false} FewerOrders(side: Side, xs: seq<Order<nat>>, ys: seq<Order<nat>>)
    requires Sorted(side, xs) && forall x :: x in xs ==> x in ys
    ensures |xs| <= |ys| && |Prices(xs)| <= |Prices(ys)|
  {
    var some, all := set x | x in xs, set y | y in ys;
    AtLeastAsLong(ys);
    NoneTwice(side, xs);
    FewerMembers(some, all);
    FewerMembers(Prices(xs), Prices(ys));
  }

  lemma {:induction false} FewerMembers<T>(a: set<T>, b: set<T>)
    requires a <= b
    ensures |a| <= |b|
  {
    assert b == a + (b - a);
  }

  lemma {:induction false} AtLeastAsLong(xs: seq<Order<nat>>)
    ensures |set x | x in xs| <= |xs|
  {
    if xs != [] {
      AtLeastAsLong(xs[1..]);
      assert (set x | x in xs) == {xs[0]} + set x | x in xs[1..];
    }
  }

  lemma {:induction false} NoneTwice(side: Side, xs: seq<Order<nat>>)
    requires Sorted(side, xs)
    ensures |set x | x in xs| == |xs|
  {
    if xs != [] {
      NoneTwice(side, xs[1..]);
      InTail(side, xs, xs[0]);
      assert (set x | x in xs) == {xs[0]} + set x | x in xs[1..];
    }
  }

  /** Part of a book within bounds is within bounds. */
  lemma {:induction false} PartHoldable(c: Book<nat>, b: Book<nat>, n: nat, levels: nat, orders: nat)
    requires UpTo(c, b, n) && Holdable(b, levels, orders)
    ensures Holdable(c, levels, orders)
  {
    FewerOrders(Buy, c.bids, b.bids);
    FewerOrders(Sell, c.asks, b.asks);
    assert forall x :: InBook(c, x) ==> InBook(b, x);
  }

  lemma {:induction false} ListedTaken(c: Book<nat>, b: Book<nat>, orders: Table, t: nat, n: nat, levels: nat,
                                       blocks: nat)
    requires WellFormed(b) && Mirrors(orders, t, b) && UpTo(c, b, n) && n in orders && Holdable(b, levels, blocks)
    ensures ForTicker(orders[n], t) && Fits(c, orders[n]) && Takes(c, orders[n], levels, blocks)
    ensures UpTo(Apply(c, orders[n]), b, n + 1)
  {
    hide Mirrors, Holdable, Takes, Apply, Fits;
    ListId(c, b, orders, t, n);
    PartHoldable(Apply(c, orders[n]), b, n + 1, levels, blocks);
    HeldIsTaken(c, orders[n], levels, blocks);
  }

  lemma {:induction false} ListingTaken(m: Market, t: nat, b: Book<nat>, orders: Table, lo: nat, hi: nat, levels: nat,
                                        blocks: nat)
    requires t < |m| && lo <= hi && WellFormed(b) && Mirrors(orders, t, b) && UpTo(m[t], b, lo)
      && Holdable(b, levels, blocks)
    ensures AllTaken(m, Listing(orders, lo, hi), levels, blocks)
    decreases hi - lo
  {
    hide UpTo, Mirrors, WellFormed, Fits, Apply, Holdable, Takes;
    if lo < hi {
      if lo in orders {
        ListedTaken(m[t], b, orders, t, lo, levels, blocks);
        var u, rest := orders[lo], Listing(orders, lo + 1, hi);
        ListingTaken(ApplyIn(m, u), t, b, orders, lo + 1, hi, levels, blocks);
        assert ([u] + rest)[1..] == rest;
      } else {
        SkipId(m[t], b, orders, t, lo);
        ListingTaken(m, t, b, orders, lo + 1, hi, levels, blocks);
        assert [] + Listing(orders, lo + 1, hi) == Listing(orders, lo + 1, hi);
      }
    }
  }

  lemma {:induction false} TickerTaken(m: Market, t: nat, b: Book<nat>, orders: Table, ids: nat, levels: nat,
                                       blocks: nat)
    requires t < |m| && WellFormed(b) && Mirrors(orders, t, b) && Holdable(b, levels, blocks)
    ensures AllTaken(m, [Clear(t)] + Listing(orders, 0, ids), levels, blocks)
  {
    hide UpTo, Mirrors, WellFormed, Listing, Holdable;
    var us := [Clear(t)] + Listing(orders, 0, ids);
    NothingListed(b);
    assert us[1..] == Listing(orders, 0, ids) && ApplyIn(m, us[0]) == m[t := Book([], [])];
    ListingTaken(m[t := Book([], [])], t, b, orders, 0, ids, levels, blocks);
  }

  /** A snapshot body is taken by whatever books there are. */
  lemma {:induction false} BodyTaken(m: Market, tables: seq<Table>, ids: nat, target: Market, levels: nat, blocks: nat)
    requires |m| >= |tables| && TablesMirror(tables, target) && WellFormedMarket(target)
      && HoldableMarket(target, levels, blocks)
    ensures AllTaken(m, Body(tables, ids), levels, blocks)
    decreases tables
  {
    hide Mirrors, WellFormed, Holdable, Listing, AllTaken, Replay;
    if tables == [] {
      NothingTaken(m, levels, blocks);
    } else {
      var t := |tables| - 1;
      BodyTaken(m, tables[..t], ids, target[..t], levels, blocks);
      var us := [Clear(t)] + Listing(tables[t], 0, ids);
      TickerTaken(Replay(m, Body(tables[..t], ids)), t, target[t], tables[t], ids, levels, blocks);
      AllTakenSplits(m, Body(tables[..t], ids), us, levels, blocks);
    }
  }

  lemma {:induction false} NothingTaken(m: Market, levels: nat, blocks: nat)
    ensures AllTaken(m, [], levels, blocks)
  {
  }

  // ----- what a consumer passes on

  lemma {:induction false} BoundedPrefix(m: Market, us: seq<MarketUpdate>, k: nat, levels: nat, orders: nat)
    requires Bounded(m, us, levels, orders) && k <= |us|
    ensures Bounded(m, us[..k], levels, orders)
  {
    hide HoldableMarket;
    assert forall j :: 0 <= j <= k ==> us[..k][..j] == us[..j];
  }

  /** A stretch of the history, on the books before it. */
  lemma {:induction false} StretchTaken(n: nat, ids: nat, h: seq<MarketUpdate>, lo: nat, hi: nat, levels: nat,
                                        orders: nat)
    requires History(n, ids, h) && lo <= hi <= |h| && Bounded(EmptyMarket(n), h, levels, orders)
    ensures AllTaken(Replay(EmptyMarket(n), h[..lo]), h[lo..hi], levels, orders)
  {
    HistoryPrefix(n, ids, h, hi);
    BoundedPrefix(EmptyMarket(n), h, hi, levels, orders);
    hide Bounded, AllTaken, Replay;
    StreamTaken(EmptyMarket(n), h[..hi], levels, orders);
    assert h[..hi] == h[..lo] + h[lo..hi];
    AllTakenSplits(EmptyMarket(n), h[..lo], h[lo..hi], levels, orders);
  }

  lemma {:induction false} SnapshotTaken(n: nat, ids: nat, h: seq<MarketUpdate>, stamp: nat, m: Market, levels: nat,
                                         orders: nat)
    requires History(n, ids, h) && stamp <= |h| && |m| == n && Bounded(EmptyMarket(n), h, levels, orders)
    ensures AllTaken(m, Body(After(EmptyTables(n), h[..stamp]), ids), levels, orders)
  {
    var e, tables := EmptyMarket(n), EmptyTables(n);
    assert WellFormedMarket(e) && TablesMirror(tables, e);
    HistoryPrefix(n, ids, h, stamp);
    StreamMirrors(tables, e, h[..stamp]);
    ReplayKeeps(e, h[..stamp]);
    BodyTaken(m, After(tables, h[..stamp]), ids, Replay(e, h[..stamp]), levels, orders);
  }

  lemma {:induction false} RecoveredTaken(n: nat, ids: nat, h: seq<MarketUpdate>, out: seq<MarketUpdate>,
                                          stamp: nat, to: nat, levels: nat, orders: nat)
    requires History(n, ids, h) && stamp < to <= |h| + 1 && Bounded(EmptyMarket(n), h, levels, orders)
    requires AllTaken(EmptyMarket(n), out, levels, orders)
    ensures var more := Body(After(EmptyTables(n), h[..stamp]), ids) + h[stamp..to - 1];
      AllTaken(EmptyMarket(n), out + more, levels, orders)
  {
    hide AllTaken, Replay, After, Body, History, Bounded;
    var e, body, tail := EmptyMarket(n), Body(After(EmptyTables(n), h[..stamp]), ids), h[stamp..to - 1];
    var m := Replay(e, out);
    SnapshotTaken(n, ids, h, stamp, m, levels, orders);
    SnapshotOfPrefix(n, ids, h, stamp, m);
    StretchTaken(n, ids, h, stamp, to - 1, levels, orders);
    AllTakenSplits(m, body, tail, levels, orders);
    AllTakenSplits(e, out, body + tail, levels, orders);
  }

  lemma {:induction false} CheckSyncTaken(n: nat, ids: nat, h: seq<MarketUpdate>, c: Consumer, stamp: nat, levels: nat,
                                          orders: nat)
    requires History(n, ids, h) && Safe(n, ids, h, c, stamp) && Bounded(EmptyMarket(n), h, levels, orders)
    requires AllTaken(EmptyMarket(n), c.out, levels, orders)
    ensures AllTaken(EmptyMarket(n), CheckSync(c).out, levels, orders)
  {
    hide AllFit, AllTaken, Replay, After, Body, History, FirstMissing, Events, Bounded;
    if Complete(c.snapshots) {
      CompleteIsWhole(n, ids, h, stamp, c.snapshots);
      var from := stamp + 1;
      var to := FirstMissing(c.incrementals, from);
      StretchOfHistory(n, ids, h, c.incrementals, from, to);
      RecoveredTaken(n, ids, h, c.out, stamp, to, levels, orders);
    }
  }

  lemma {:induction false} EnqueueTaken(n: nat, ids: nat, h: seq<MarketUpdate>, c: Consumer, stamp: nat,
                                        isSnapshot: bool, seqNum: nat, u: MarketUpdate, from: nat, levels: nat,
                                        orders: nat)
    requires History(n, ids, h) && Safe(n, ids, h, c, stamp) && Bounded(EmptyMarket(n), h, levels, orders)
    requires c.inRecovery && Deliverable(n, ids, h, c, stamp, isSnapshot, seqNum, u, from)
    requires AllTaken(EmptyMarket(n), c.out, levels, orders)
    ensures AllTaken(EmptyMarket(n), Enqueue(c, isSnapshot, seqNum, u).out, levels, orders)
  {
    hide AllFit, AllTaken, Replay, History, CheckSync, Bounded, SnapshotAt;
    if isSnapshot {
      var q := if seqNum in c.snapshots then map[] else c.snapshots;
      CheckSyncTaken(n, ids, h, c.(snapshots := q[seqNum := u]), from, levels, orders);
    } else {
      CheckSyncTaken(n, ids, h, c.(incrementals := c.incrementals[seqNum := u]), stamp, levels, orders);
    }
  }

  lemma {:induction false} ReceiveTaken(n: nat, ids: nat, h: seq<MarketUpdate>, c: Consumer, stamp: nat,
                                        isSnapshot: bool, seqNum: nat, u: MarketUpdate, from: nat, levels: nat,
                                        orders: nat)
    requires History(n, ids, h) && Safe(n, ids, h, c, stamp) && Bounded(EmptyMarket(n), h, levels, orders)
    requires Deliverable(n, ids, h, c, stamp, isSnapshot, seqNum, u, from)
    requires AllTaken(EmptyMarket(n), c.out, levels, orders)
    ensures AllTaken(EmptyMarket(n), Receive(c, isSnapshot, seqNum, u).out, levels, orders)
  {
    hide AllFit, AllTaken, Replay, History, Enqueue, Bounded, SnapshotAt;
    if c.inRecovery {
      EnqueueTaken(n, ids, h, c, stamp, isSnapshot, seqNum, u, from, levels, orders);
    } else if seqNum != c.nextExp {
      var r := c.(inRecovery := true, snapshots := map[], incrementals := map[]);
      EnqueueTaken(n, ids, h, r, stamp, isSnapshot, seqNum, u, from, levels, orders);
    } else if !isSnapshot {
      var k := c.nextExp - 1;
      StretchTaken(n, ids, h, k, k + 1, levels, orders);
      assert h[k..k + 1] == [u];
      AllTakenSplits(EmptyMarket(n), c.out, [u], levels, orders);
    }
  }

  lemma {:induction false} HistoryOnlyGrows(n: nat, ids: nat, net: Net, es: seq<Event>, end: Net)
    requires Runs(n, ids, net, es, end)
    ensures net.h <= end.h
    decreases es
  {
    if es != [] {
      HistoryOnlyGrows(n, ids, After1(net, es[0]), es[1..], end);
    }
  }

  /** Over every run of the network, everything passed on is taken. */
  lemma {:induction false} RunTaken(n: nat, ids: nat, net: Net, es: seq<Event>, end: Net, levels: nat, orders: nat)
    requires History(n, ids, net.h) && Safe(n, ids, net.h, net.c, net.stamp) && Runs(n, ids, net, es, end)
    requires Bounded(EmptyMarket(n), end.h, levels, orders) && AllTaken(EmptyMarket(n), net.c.out, levels, orders)
    ensures AllTaken(EmptyMarket(n), end.c.out, levels, orders)
    decreases es
  {
    hide Safe, History, AllTaken, Receive, Bounded, Deliverable;
    if es != [] {
      HistoryOnlyGrows(n, ids, net, es, end);
      BoundedPrefix(EmptyMarket(n), end.h, |net.h|, levels, orders);
      assert end.h[..|net.h|] == net.h;
      match es[0] {
        case Published(us) => SafeGrows(n, ids, net.h, us, net.c, net.stamp);
        case Arrived(isSnapshot, seqNum, u, from) =>
          ReceiveSafe(n, ids, net.h, net.c, net.stamp, isSnapshot, seqNum, u, from);
          ReceiveTaken(n, ids, net.h, net.c, net.stamp, isSnapshot, seqNum, u, from, levels, orders);
      }
      RunTaken(n, ids, After1(net, es[0]), es[1..], end, levels, orders);
    }
  }
}
