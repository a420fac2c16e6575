/** The exchange's books stay within bounds exactly when every new order meets what `Add` asks for:
    nothing has to be assumed of the books themselves. */
module Bounds {
  import opened Types
  import opened Orders
  import opened Messages
  import opened Matching
  import opened Runs
  import opened MarketData
  import opened Replication
  import opened Capacity
  import opened Windows
  import opened Admission
  import MEOrderBooks

  /** What the linked books of the exchange ask of a request. */
  ghost predicate Admits(x: Exchange, r: TickerRequest, levels: nat, orders: nat) {
    && r.ticker < |x.books|
    && match r.request
       case NewOrder(owner, side, price, qty) =>
         var s := x.books[r.ticker];
         MEOrderBooks.MayAdd(s.book, Aggressor(r.ticker, owner, s.nextId, side, price), qty, levels, orders)
       case CancelOrder(_) => true
  }

  /** A run in which every request is admitted. */
  ghost predicate ServesWithin(x: Exchange, rs: seq<TickerRequest>, y: Exchange, levels: nat, orders: nat)
    decreases rs
  {
    if rs == [] then x == y
    else Admits(x, rs[0], levels, orders) && ServesWithin(Serve(x, rs[0]), rs[1..], y, levels, orders)
  }

  lemma {:induction false} AdmittedIsLegal(x: Exchange, r: TickerRequest, levels: nat, orders: nat)
    requires Admits(x, r, levels, orders)
    ensures MayServe(x, r)
  {
  }

  lemma {:induction false} WithinServes(x: Exchange, rs: seq<TickerRequest>, y: Exchange, levels: nat, orders: nat)
    requires ServesWithin(x, rs, y, levels, orders)
    ensures Serves(x, rs, y)
    decreases rs
  {
    hide Admits, MayServe, Serve;
    if rs != [] {
      AdmittedIsLegal(x, rs[0], levels, orders);
      WithinServes(Serve(x, rs[0]), rs[1..], y, levels, orders);
    }
  }

  // ----- bounds along a stream

  lemma {:induction false} BoundedSplits(m: Market, us: seq<MarketUpdate>, vs: seq<MarketUpdate>, levels: nat,
                                         orders: nat)
    ensures Bounded(m, us + vs, levels, orders) <==>
      Bounded(m, us, levels, orders) && Bounded(Replay(m, us), vs, levels, orders)
  {
    hide HoldableMarket, Replay;
    forall k | 0 <= k <= |us|
      ensures (us + vs)[..k] == us[..k]
    {
    }
    forall k | 0 <= k <= |vs|
      ensures Replay(m, (us + vs)[..|us| + k]) == Replay(Replay(m, us), vs[..k])
    {
      assert (us + vs)[..|us| + k] == us + vs[..k];
      ReplaySplits(m, us, vs[..k]);
    }
    if Bounded(m, us, levels, orders) && Bounded(Replay(m, us), vs, levels, orders) {
      forall k | 0 <= k <= |us + vs|
        ensures HoldableMarket(Replay(m, (us + vs)[..k]), levels, orders)
      {
        if k > |us| {
          assert HoldableMarket(Replay(Replay(m, us), vs[..k - |us|]), levels, orders);
          assert k == |us| + (k - |us|);
        }
      }
    }
  }

  lemma {:induction false} BoundedBefore(m: Market, us: seq<MarketUpdate>, vs: seq<MarketUpdate>, levels: nat,
                                         orders: nat)
    requires us <= vs
    ensures Bounded(m, vs, levels, orders) ==> Bounded(m, us, levels, orders)
  {
    assert us + vs[|us|..] == vs;
    BoundedSplits(m, us, vs[|us|..], levels, orders);
  }

  lemma {:induction false} BoundedNow(m: Market, levels: nat, orders: nat)
    ensures Bounded(m, [], levels, orders) <==> HoldableMarket(m, levels, orders)
  {
    var none: seq<MarketUpdate> := [];
    assert none[..0] == none && Replay(m, none) == m;
  }

  lemma {:induction false} BoundedOne(m: Market, u: MarketUpdate, levels: nat, orders: nat)
    ensures Bounded(m, [u], levels, orders) <==>
      HoldableMarket(m, levels, orders) && HoldableMarket(ApplyIn(m, u), levels, orders)
  {
    hide HoldableMarket, ApplyIn;
    var us := [u];
    assert us[..0] == [] && us[..1] == us && Replay(m, []) == m;
    ReplayOne(m, u);
  }

  /** No more orders, and no other prices. */
  ghost predicate NoLarger(c: Book<nat>, b: Book<nat>) {
    && |c.bids| <= |b.bids| && |c.asks| <= |b.asks|
    && Prices(c.bids) <= Prices(b.bids) && Prices(c.asks) <= Prices(b.asks)
  }

  lemma {:induction false} NoLargerHoldable(c: Book<nat>, b: Book<nat>, levels: nat, orders: nat)
    requires NoLarger(c, b) && Holdable(b, levels, orders)
    ensures Holdable(c, levels, orders)
  {
    FewerMembers(Prices(c.bids), Prices(b.bids));
    FewerMembers(Prices(c.asks), Prices(b.asks));
    forall x | InBook(c, x)
      ensures exists y :: InBook(b, y) && y.price == x.price
    {
      if x in c.bids {
        assert x.price in Prices(c.bids) && x.price in Prices(b.bids);
      } else {
        assert x.price in Prices(c.asks) && x.price in Prices(b.asks);
      }
    }
  }

  lemma {:induction false} RemoveNoLarger(xs: seq<Order<nat>>, id: nat)
    ensures |Remove(xs, id)| <= |xs| && Prices(Remove(xs, id)) <= Prices(xs)
  {
    if xs != [] && xs[0].id != id {
      RemoveNoLarger(xs[1..], id);
      assert xs == [xs[0]] + xs[1..];
      PricesSplit([xs[0]], xs[1..]);
      PricesSplit([xs[0]], Remove(xs[1..], id));
    }
  }

  lemma {:induction false} SetQtyNoLarger(xs: seq<Order<nat>>, id: nat, qty: nat)
    ensures |SetQty(xs, id, qty)| <= |xs| && Prices(SetQty(xs, id, qty)) <= Prices(xs)
  {
    SetQtyKeepsList(xs, id, qty);
    var ys := SetQty(xs, id, qty);
    forall p | p in Prices(ys)
      ensures p in Prices(xs)
    {
      var i :| 0 <= i < |ys| && ys[i].price == p;
      assert xs[i] in xs;
    }
  }

  /** Whatever does not add an order keeps a book within bounds. */
  lemma {:induction false} QuietHoldable(b: Book<nat>, u: MarketUpdate, levels: nat, orders: nat)
    requires Holdable(b, levels, orders) && !u.Add?
    ensures Holdable(Apply(b, u), levels, orders)
  {
    hide Holdable, Prices;
    match u {
      case Modify(_, id, _, _, qty, _) =>
        SetQtyNoLarger(b.bids, id, qty);
        SetQtyNoLarger(b.asks, id, qty);
      case Cancel(_, id, _, _, _, _) =>
        RemoveNoLarger(b.bids, id);
        RemoveNoLarger(b.asks, id);
      case Clear(_) =>
        EmptyNoLarger(b);
      case _ =>
    }
    if u.Modify? || u.Cancel? || u.Clear? {
      NoLargerHoldable(Apply(b, u), b, levels, orders);
    }
  }

  lemma {:induction false} EmptyNoLarger(b: Book<nat>)
    ensures NoLarger(Book([], []), b)
  {
  }

  ghost predicate NoAdds(us: seq<MarketUpdate>) {
    forall i :: 0 <= i < |us| ==> !us[i].Add?
  }

  lemma {:induction false} QuietBounded(m: Market, us: seq<MarketUpdate>, levels: nat, orders: nat)
    requires HoldableMarket(m, levels, orders) && NoAdds(us)
    ensures Bounded(m, us, levels, orders) && HoldableMarket(Replay(m, us), levels, orders)
    decreases us
  {
    hide Bounded, Holdable, Apply;
    if us == [] {
      BoundedNow(m, levels, orders);
    } else {
      var u := us[0];
      assert us == [u] + us[1..];
      if u.SnapshotStart? || u.SnapshotEnd? || u.ticker >= |m| {
      } else {
        QuietHoldable(m[u.ticker], u, levels, orders);
      }
      BoundedOne(m, u, levels, orders);
      QuietBounded(ApplyIn(m, u), us[1..], levels, orders);
      BoundedSplits(m, [u], us[1..], levels, orders);
      ReplayOne(m, u);
    }
  }

  // ----- one request

  lemma {:induction false} MatchAddsNothing(a: Aggressor, xs: seq<Order<Owner>>, leaves: nat)
    ensures NoAdds(Match(a, xs, leaves).updates)
  {
    if leaves != 0 && xs != [] && Crosses(a.side, a.price, xs[0].price) && xs[0].qty <= leaves {
      MatchAddsNothing(a, xs[1..], leaves - xs[0].qty);
    }
  }

  lemma {:induction false} PublicPrices(xs: seq<Order<Owner>>)
    ensures |PublicSide(xs)| == |xs| && Prices(PublicSide(xs)) == Prices(xs)
  {
    forall p
      ensures p in Prices(xs) <==> p in Prices(PublicSide(xs))
    {
      if x :| x in xs && x.price == p {
        var i :| 0 <= i < |xs| && xs[i] == x;
        assert PublicSide(xs)[i] in PublicSide(xs);
      }
      if y :| y in PublicSide(xs) && y.price == p {
        var i :| 0 <= i < |xs| && PublicSide(xs)[i] == y;
        assert xs[i] in xs;
      }
    }
  }

  lemma {:induction false} PublicInWindow(b: Book<Owner>, price: nat)
    ensures InWindow(PublicBook(b), price) <==> InWindow(b, price)
  {
    forall x | InBook(PublicBook(b), x)
      ensures exists o :: InBook(b, o) && x == Public(o)
    {
      PublicComesFrom(b, x);
    }
    forall o | InBook(b, o)
      ensures InBook(PublicBook(b), Public(o))
    {
      if o in b.bids {
        var i :| 0 <= i < |b.bids| && b.bids[i] == o;
        assert PublicSide(b.bids)[i] in PublicSide(b.bids);
      } else {
        var i :| 0 <= i < |b.asks| && b.asks[i] == o;
        assert PublicSide(b.asks)[i] in PublicSide(b.asks);
      }
    }
  }

  /** The public book takes the order that comes to rest exactly when the exchange's book does. */
  lemma {:induction false} RestTaken(b: Book<Owner>, u: MarketUpdate, levels: nat, orders: nat)
    requires WellFormed(PublicBook(b)) && Fits(PublicBook(b), u) && u.Add?
    ensures Takes(PublicBook(b), u, levels, orders) <==>
      InWindow(b, u.price) && RoomFor(b, u.side, u.price, levels, orders)
  {
    UncrossedOwnsSlot(PublicBook(b), u.side, u.price);
    PublicInWindow(b, u.price);
    PublicPrices(b.bids);
    PublicPrices(b.asks);
    hide WellFormed, Fits, OwnsSlot, InWindow, Prices;
  }

  /** What is left of an order after matching joins a book within bounds, and leaves it so,
      exactly when the window and the pools have room. */
  lemma {:induction false} RestBounded(m: Market, t: nat, c: Book<Owner>, o: Order<Owner>, levels: nat, orders: nat)
    requires t < |m| && m[t] == PublicBook(c) && HoldableMarket(m, levels, orders)
    requires WellFormed(c) && WellFormed(PublicBook(c)) && MayPlace(c, o)
    requires o.priority == LastPriority(c.On(o.side), o.price) + 1
    ensures Bounded(m, [MarketUpdate.Add(t, o.id, o.side, o.price, o.qty, o.priority)], levels, orders) <==>
      InWindow(c, o.price) && RoomFor(c, o.side, o.price, levels, orders)
  {
    hide WellFormed, MayPlace, LastPriority, Fits, Takes, Holdable, Bounded, InWindow, RoomFor, PublicBook, Apply;
    var u := MarketUpdate.Add(t, o.id, o.side, o.price, o.qty, o.priority);
    RestIsPublic(t, c, o);
    RestTaken(c, u, levels, orders);
    AddHeldIff(m[t], u, levels, orders);
    BoundedOne(m, u, levels, orders);
    var n := ApplyIn(m, u);
    assert n == m[t := Apply(m[t], u)];
    assert HoldableMarket(n, levels, orders) ==> Holdable(n[t], levels, orders);
  }

  lemma {:induction false} AddBoundedIff(m: Market, t: nat, s: State, owner: Owner, side: Side, price: nat, qty: nat,
                                         levels: nat, orders: nat)
    requires t < |m| && m[t] == PublicBook(s.book) && HoldableMarket(m, levels, orders) && WellFormedMarket(m)
    requires StateOk(s) && FreshKey(s.book, owner)
    ensures Bounded(m, AddStep(s, t, owner, side, price, qty).updates, levels, orders) <==>
      MEOrderBooks.MayAdd(s.book, Aggressor(t, owner, s.nextId, side, price), qty, levels, orders)
  {
    hide StateOk, FreshKey, WellFormed, MayPlace, Match, AllFit, Replay, Bounded, HoldableMarket, LastPriority,
      PublicBook, Place, InWindow, RoomFor;
    var a := Aggressor(t, owner, s.nextId, side, price);
    var r := Match(a, s.book.On(Opposite(side)), qty);
    var c := s.book.With(Opposite(side), r.rest);
    StateBook(s);
    RestFits(s, a, qty);
    MatchReplays(m, a, s.book, qty);
    MatchAddsNothing(a, s.book.On(Opposite(side)), qty);
    QuietBounded(m, r.updates, levels, orders);
    if r.leaves > 0 {
      var n := m[t := PublicBook(c)];
      var o := Order(owner, s.nextId, side, price, r.leaves, LastPriority(c.On(side), price) + 1);
      ReplayKeeps(m, r.updates);
      assert WellFormed(n[t]);
      RestBounded(n, t, c, o, levels, orders);
      BoundedSplits(m, r.updates, [MarketUpdate.Add(t, o.id, o.side, o.price, o.qty, o.priority)], levels, orders);
    }
  }

  lemma {:induction false} CancelBounded(m: Market, t: nat, s: State, owner: Owner, levels: nat, orders: nat)
    requires HoldableMarket(m, levels, orders)
    ensures Bounded(m, CancelStep(s, t, owner).updates, levels, orders)
  {
    QuietBounded(m, CancelStep(s, t, owner).updates, levels, orders);
  }

  /** A request leaves the stream within bounds exactly when it is admitted. */
  lemma {:induction false} ServeBoundedIff(x: Exchange, r: TickerRequest, levels: nat, orders: nat)
    requires Replicated(x) && MayServe(x, r) && Bounded(EmptyMarket(|x.books|), x.updates, levels, orders)
    ensures Bounded(EmptyMarket(|x.books|), Serve(x, r).updates, levels, orders) <==> Admits(x, r, levels, orders)
  {
    var e, m, t, s := EmptyMarket(|x.books|), PublicMarket(x.books), r.ticker, x.books[r.ticker];
    assert x.updates[..|x.updates|] == x.updates;
    assert HoldableMarket(m, levels, orders);
    assert WellFormedMarket(e);
    ReplayKeeps(e, x.updates);
    hide StateOk, FreshKey, AllFit, Replay, Bounded, HoldableMarket, AddStep, CancelStep, WellFormedMarket, PublicBook;
    var step := Handle(t, s, r.request);
    BoundedSplits(e, x.updates, step.updates, levels, orders);
    match r.request {
      case NewOrder(owner, side, price, qty) => AddBoundedIff(m, t, s, owner, side, price, qty, levels, orders);
      case CancelOrder(owner) => CancelBounded(m, t, s, owner, levels, orders);
    }
  }

  // ----- whole runs

  lemma {:induction false} UpdatesOnlyGrow(x: Exchange, rs: seq<TickerRequest>, y: Exchange)
    requires Serves(x, rs, y)
    ensures x.updates <= y.updates && |y.books| == |x.books|
    decreases rs
  {
    if rs != [] {
      UpdatesOnlyGrow(Serve(x, rs[0]), rs[1..], y);
    }
  }

  lemma {:induction false} ServiceBoundedIff(x: Exchange, rs: seq<TickerRequest>, y: Exchange, levels: nat, orders: nat)
    requires Replicated(x) && Serves(x, rs, y) && Bounded(EmptyMarket(|x.books|), x.updates, levels, orders)
    ensures Bounded(EmptyMarket(|x.books|), y.updates, levels, orders) <==> ServesWithin(x, rs, y, levels, orders)
    decreases rs
  {
    hide Replicated, Admits, Bounded, Handle, Legal;
    if rs != [] {
      var z := Serve(x, rs[0]);
      ServeReplicates(x, rs[0]);
      ServeBoundedIff(x, rs[0], levels, orders);
      if Admits(x, rs[0], levels, orders) {
        ServiceBoundedIff(z, rs[1..], y, levels, orders);
      } else {
        UpdatesOnlyGrow(z, rs[1..], y);
        BoundedBefore(EmptyMarket(|x.books|), z.updates, y.updates, levels, orders);
      }
    }
  }

  /** For every run: the books stay within bounds after every update exactly when every request
      met what the linked books ask for. */
  lemma {:induction false} RunBoundedIff(n: nat, rs: seq<TickerRequest>, y: Exchange, levels: nat, orders: nat)
    requires 0 < levels && 0 < orders && Serves(Opening(n), rs, y)
    ensures Bounded(EmptyMarket(n), y.updates, levels, orders) <==> ServesWithin(Opening(n), rs, y, levels, orders)
  {
    hide Replicated, Serves, ServesWithin, Bounded;
    NothingToReplicate(n);
    EmptyHoldable(n, levels, orders);
    BoundedNow(EmptyMarket(n), levels, orders);
    ServiceBoundedIff(Opening(n), rs, y, levels, orders);
  }

  lemma {:induction false} EmptyHoldable(n: nat, levels: nat, orders: nat)
    requires 0 < levels && 0 < orders
    ensures HoldableMarket(EmptyMarket(n), levels, orders)
  {
  }
}
