/** What the market is told over a whole run is true: every update can be checked against the
    books that the updates before it make. */
module MarketViews {
  import opened Types
  import opened Orders
  import opened Messages
  import opened Matching
  import opened Runs
  import opened MarketData
  import opened Replication

  /** The order at the head of a side. */
  ghost predicate IsBest(xs: seq<Order<nat>>, id: nat, price: nat) {
    xs != [] && xs[0].id == id && xs[0].price == price
  }

  /** A trade just announced, by an incoming order of the other side at this price. */
  ghost predicate JustTraded(prev: Option<MarketUpdate>, t: nat, side: Side, price: nat) {
    prev.Some? && prev.value.Trade? && prev.value.ticker == t && prev.value.side == Opposite(side)
    && prev.value.price == price
  }

  ghost predicate Quiet(prev: Option<MarketUpdate>) {
    prev.Some? ==> !prev.value.Trade?
  }

  /** The next priority at a price is one more than the last one there, or 1. */
  ghost predicate NextThere(xs: seq<Order<nat>>, price: nat, priority: nat) {
    && (forall x :: x in xs && x.price == price ==> x.priority < priority)
    && if exists x :: x in xs && x.price == price then
         exists x :: x in xs && x.price == price && x.priority + 1 == priority
       else priority == 1
  }

  /** An update, on the books and after the update before it.

      A new order comes with an id no live order has and the next priority at its price. A trade is
      at the price of the best order it hits, and for no more than that order has. The update after
      it is about that order: a Modify with its side, price and priority and the quantity that then
      rests, or, when nothing rests, a Cancel with the quantity it had just before and no priority.
      Any other Cancel is at a client's wish: quantity 0, and the priority the order had. */
  ghost predicate Tells(m: Market, prev: Option<MarketUpdate>, u: MarketUpdate) {
    && !u.Clear? && !u.SnapshotStart? && !u.SnapshotEnd? && u.ticker < |m|
    && var b := m[u.ticker];
    match u
    case Add(_, id, side, price, qty, priority) =>
      Quiet(prev) && 0 < qty && (forall x :: InBook(b, x) ==> x.id != id) && NextThere(b.On(side), price, priority)
    case Trade(_, side, price, qty) =>
      var xs := b.On(Opposite(side));
      Quiet(prev) && xs != [] && xs[0].price == price && 0 < qty <= xs[0].qty
    case Modify(t, id, side, price, qty, priority) =>
      && JustTraded(prev, t, side, price) && IsBest(b.On(side), id, price) && priority == b.On(side)[0].priority
      && 0 < qty && qty + prev.value.qty == b.On(side)[0].qty
    case Cancel(t, id, side, price, qty, priority) =>
      if Quiet(prev) then
        exists x :: x in b.On(side) && x.id == id && x.price == price && x.priority == priority && qty == 0
      else
        && JustTraded(prev, t, side, price) && IsBest(b.On(side), id, price)
        && qty == prev.value.qty == b.On(side)[0].qty && priority == 0xFFFF_FFFF_FFFF_FFFF
  }

  ghost predicate AllTold(m: Market, prev: Option<MarketUpdate>, us: seq<MarketUpdate>)
    decreases us
  {
    us == [] || (Tells(m, prev, us[0]) && AllTold(ApplyIn(m, us[0]), Some(us[0]), us[1..]))
  }

  function LastOf(prev: Option<MarketUpdate>, us: seq<MarketUpdate>): Option<MarketUpdate> {
    if us == [] then prev else Some(us[|us| - 1])
  }

  lemma {:induction false} AllToldSplits(m: Market, prev: Option<MarketUpdate>, us: seq<MarketUpdate>,
                                         vs: seq<MarketUpdate>)
    ensures AllTold(m, prev, us + vs) <==> AllTold(m, prev, us) && AllTold(Replay(m, us), LastOf(prev, us), vs)
    ensures LastOf(prev, us + vs) == LastOf(LastOf(prev, us), vs)
    decreases us
  {
    hide Tells;
    if us == [] {
      assert us + vs == vs;
    } else {
      AllToldSplits(ApplyIn(m, us[0]), Some(us[0]), us[1..], vs);
      assert (us + vs)[0] == us[0] && (us + vs)[1..] == us[1..] + vs;
    }
  }

  lemma {:induction false} OneTold(m: Market, prev: Option<MarketUpdate>, u: MarketUpdate)
    ensures AllTold(m, prev, [u]) <==> Tells(m, prev, u)
  {
    hide Tells;
  }

  // ----- one fill

  lemma {:induction false} HitTells(m: Market, prev: Option<MarketUpdate>, a: Aggressor, b: Book<Owner>, fill: nat)
    requires a.ticker < |m| && m[a.ticker] == PublicBook(b) && Quiet(prev)
    requires var xs := b.On(Opposite(a.side)); xs != [] && 0 < fill <= xs[0].qty && xs[0].side == Opposite(a.side)
    ensures var us := FillUpdates(a, b.On(Opposite(a.side))[0], fill);
      Tells(m, prev, us[0]) && ApplyIn(m, us[0]) == m && Tells(m, Some(us[0]), us[1])
  {
    var side := Opposite(a.side);
    assert PublicBook(b).On(side)[0] == Public(b.On(side)[0]);
    assert m[a.ticker := m[a.ticker]] == m;
  }

  lemma {:induction false} HitTold(m: Market, prev: Option<MarketUpdate>, a: Aggressor, b: Book<Owner>, fill: nat)
    requires a.ticker < |m| && m[a.ticker] == PublicBook(b) && Quiet(prev)
    requires var xs := b.On(Opposite(a.side)); xs != [] && 0 < fill <= xs[0].qty && xs[0].side == Opposite(a.side)
    ensures var us := FillUpdates(a, b.On(Opposite(a.side))[0], fill);
      AllTold(m, prev, us) && Quiet(LastOf(prev, us)) && us != []
  {
    hide Tells, PublicBook, ApplyIn;
    var us := FillUpdates(a, b.On(Opposite(a.side))[0], fill);
    HitTells(m, prev, a, b, fill);
    OneTold(m, prev, us[0]);
    OneTold(m, Some(us[0]), us[1]);
    ReplayOne(m, us[0]);
    AllToldSplits(m, prev, [us[0]], [us[1]]);
    assert us == [us[0]] + [us[1]];
  }

  lemma {:induction false} BestLives(b: Book<Owner>, side: Side)
    requires WellFormed(b) && b.On(side) != []
    ensures 0 < b.On(side)[0].qty && b.On(side)[0].side == side
  {
    assert Live(side, b.On(side)[0]);
  }

  lemma {:induction false} MatchTold(m: Market, prev: Option<MarketUpdate>, a: Aggressor, b: Book<Owner>, leaves: nat)
    requires a.ticker < |m| && m[a.ticker] == PublicBook(b) && WellFormed(b) && Quiet(prev)
    ensures var us := Match(a, b.On(Opposite(a.side)), leaves).updates;
      AllTold(m, prev, us) && Quiet(LastOf(prev, us))
    decreases |b.On(Opposite(a.side))|
  {
    hide Tells, AllTold, WellFormed, FillUpdates, FillResponses, AfterHit, PublicBook, Replay;
    var side := Opposite(a.side);
    var xs := b.On(side);
    if leaves == 0 || xs == [] || !Crosses(a.side, a.price, xs[0].price) {
      NothingTold(m, prev);
    } else {
      var fill := Min(leaves, xs[0].qty);
      BestLives(b, side);
      HitTold(m, prev, a, b, fill);
      if fill == xs[0].qty {
        var us, c := FillUpdates(a, xs[0], fill), AfterHit(b, side, fill);
        TakenWhole(b, side);
        HitReplays(m, a, b, fill);
        HitKeeps(b, side, fill);
        MatchTold(m[a.ticker := PublicBook(c)], LastOf(prev, us), a, c, leaves - fill);
        AllToldSplits(m, prev, us, Match(a, xs[1..], leaves - fill).updates);
      }
    }
  }

  lemma {:induction false} NothingTold(m: Market, prev: Option<MarketUpdate>)
    ensures AllTold(m, prev, [])
  {
  }

  lemma {:induction false} TakenWhole(b: Book<Owner>, side: Side)
    requires b.On(side) != []
    ensures AfterHit(b, side, b.On(side)[0].qty) == b.With(side, b.On(side)[1..])
  {
  }

  // ----- one request

  lemma {:induction false} NextIsThere(side: Side, xs: seq<Order<Owner>>, price: nat)
    requires Sorted(side, xs)
    ensures NextThere(PublicSide(xs), price, LastPriority(xs, price) + 1)
  {
    hide LastPriority, Before, Sorted;
    LastPriorityIsLast(side, xs, price);
    LastPriorityIsThere(xs, price);
    forall x | x in PublicSide(xs)
      ensures exists y :: y in xs && x == Public(y)
    {
      var i :| 0 <= i < |xs| && PublicSide(xs)[i] == x;
      assert xs[i] in xs;
    }
    if y :| y in xs && y.price == price && y.priority == LastPriority(xs, price) {
      var i :| 0 <= i < |xs| && xs[i] == y;
      assert PublicSide(xs)[i] in PublicSide(xs);
    }
  }

  lemma {:induction false} LastPriorityIsThere(xs: seq<Order<Owner>>, price: nat)
    ensures if exists x :: x in xs && x.price == price
      then exists x :: x in xs && x.price == price && x.priority == LastPriority(xs, price)
      else LastPriority(xs, price) == 0
  {
    if xs != [] {
      LastPriorityIsThere(xs[1..], price);
      LastPriorityIsThere(xs[..|xs| - 1], price);
    }
  }

  lemma {:induction false} RestTells(m: Market, prev: Option<MarketUpdate>, t: nat, b: Book<Owner>, o: Order<Owner>)
    requires t < |m| && m[t] == PublicBook(b) && Quiet(prev) && WellFormed(b) && MayPlace(b, o)
    requires o.priority == LastPriority(b.On(o.side), o.price) + 1
    ensures Tells(m, prev, MarketUpdate.Add(t, o.id, o.side, o.price, o.qty, o.priority))
  {
    hide WellFormed, LastPriority, NextThere, Before;
    BookSorted(b, o.side);
    NextIsThere(o.side, b.On(o.side), o.price);
    forall x | InBook(PublicBook(b), x)
      ensures x.id != o.id
    {
      PublicComesFrom(b, x);
    }
  }

  lemma {:induction false} BookSorted(b: Book<Owner>, side: Side)
    requires WellFormed(b)
    ensures Sorted(side, b.On(side))
  {
  }

  lemma {:induction false} AddTold(m: Market, prev: Option<MarketUpdate>, t: nat, s: State, owner: Owner, side: Side,
                                   price: nat, qty: nat)
    requires t < |m| && m[t] == PublicBook(s.book) && StateOk(s) && FreshKey(s.book, owner) && Quiet(prev)
    ensures var us := AddStep(s, t, owner, side, price, qty).updates; AllTold(m, prev, us) && Quiet(LastOf(prev, us))
  {
    hide StateOk, FreshKey, WellFormed, MayPlace, Match, Tells, PublicBook, AllTold, Replay, LastPriority, Place;
    var a := Aggressor(t, owner, s.nextId, side, price);
    var r := Match(a, s.book.On(Opposite(side)), qty);
    var c := s.book.With(Opposite(side), r.rest);
    RestFits(s, a, qty);
    StateBook(s);
    MatchReplays(m, a, s.book, qty);
    MatchTold(m, prev, a, s.book, qty);
    if r.leaves > 0 {
      var o := Order(owner, s.nextId, side, price, r.leaves, LastPriority(c.On(side), price) + 1);
      var u := MarketUpdate.Add(t, o.id, o.side, o.price, o.qty, o.priority);
      var n := m[t := PublicBook(c)];
      RestTells(n, LastOf(prev, r.updates), t, c, o);
      OneTold(n, LastOf(prev, r.updates), u);
      AllToldSplits(m, prev, r.updates, [u]);
    }
  }

  lemma {:induction false} CancelTold(m: Market, prev: Option<MarketUpdate>, t: nat, s: State, owner: Owner)
    requires t < |m| && m[t] == PublicBook(s.book) && StateOk(s) && Quiet(prev)
    ensures var us := CancelStep(s, t, owner).updates; AllTold(m, prev, us) && Quiet(LastOf(prev, us))
  {
    hide Replay;
    FoundOwner(s.book, owner);
    var f := FindOwner(s.book, owner);
    if f.Some? {
      var o := f.value;
      var xs := s.book.On(o.side);
      var i :| 0 <= i < |xs| && xs[i] == o;
      assert PublicBook(s.book).On(o.side)[i] == Public(o);
      OneTold(m, prev, MarketUpdate.Cancel(t, o.id, o.side, o.price, 0, o.priority));
    }
  }

  lemma {:induction false} HandleTold(m: Market, prev: Option<MarketUpdate>, t: nat, s: State, r: Request)
    requires t < |m| && m[t] == PublicBook(s.book) && StateOk(s) && Legal(s, r) && Quiet(prev)
    ensures var us := Handle(t, s, r).updates; AllTold(m, prev, us) && Quiet(LastOf(prev, us))
  {
    hide StateOk, FreshKey, AllTold, AddStep, CancelStep, PublicBook;
    match r
    case NewOrder(owner, side, price, qty) => AddTold(m, prev, t, s, owner, side, price, qty);
    case CancelOrder(owner) => CancelTold(m, prev, t, s, owner);
  }

  // ----- whole runs

  ghost predicate Told(x: Exchange) {
    AllTold(EmptyMarket(|x.books|), None, x.updates) && Quiet(LastOf(None, x.updates))
  }

  lemma {:induction false} ServeTold(x: Exchange, r: TickerRequest)
    requires Replicated(x) && Told(x) && MayServe(x, r)
    ensures Told(Serve(x, r))
  {
    hide StateOk, AllFit, AllTold, Replay, Handle, PublicBook, Legal;
    var t, s, e, m := r.ticker, x.books[r.ticker], EmptyMarket(|x.books|), PublicMarket(x.books);
    var step := Handle(t, s, r.request);
    HandleTold(m, LastOf(None, x.updates), t, s, r.request);
    AllToldSplits(e, None, x.updates, step.updates);
  }

  lemma {:induction false} ServiceTold(x: Exchange, rs: seq<TickerRequest>, y: Exchange)
    requires Replicated(x) && Told(x) && Serves(x, rs, y)
    ensures Told(y)
    decreases rs
  {
    hide Replicated, Told, Legal, Handle;
    if rs != [] {
      ServeReplicates(x, rs[0]);
      ServeTold(x, rs[0]);
      ServiceTold(Serve(x, rs[0]), rs[1..], y);
    }
  }

  /** For every run of the exchange, everything the market is told is true. */
  lemma {:induction false} RunTold(n: nat, rs: seq<TickerRequest>, y: Exchange)
    requires Serves(Opening(n), rs, y)
    ensures AllTold(EmptyMarket(|y.books|), None, y.updates) && Quiet(LastOf(None, y.updates))
  {
    NothingToReplicate(n);
    ServiceTold(Opening(n), rs, y);
  }

  // ----- back to the update that announced the order

  /** An order with this id, side, price and priority was announced before update k. */
  ghost predicate Announced(us: seq<MarketUpdate>, k: nat, t: nat, id: nat, side: Side, price: nat, priority: nat) {
    exists i :: 0 <= i < k <= |us| && us[i].Add? && us[i].ticker == t && us[i].id == id && us[i].side == side
      && us[i].price == price && us[i].priority == priority
  }

  ghost predicate OrdersAnnounced(m: Market, us: seq<MarketUpdate>, k: nat) {
    forall t: nat, side: Side, x :: t < |m| && x in m[t].On(side) ==>
      x.side == side && Announced(us, k, t, x.id, side, x.price, x.priority)
  }

  lemma {:induction false} AnnouncedLater(us: seq<MarketUpdate>, k: nat, t: nat, id: nat, side: Side, price: nat,
                                          priority: nat)
    requires Announced(us, k, t, id, side, price, priority) && k < |us|
    ensures Announced(us, k + 1, t, id, side, price, priority)
  {
  }

  lemma {:induction false} InRemoved(xs: seq<Order<nat>>, id: nat, x: Order<nat>)
    requires x in Remove(xs, id)
    ensures x in xs
  {
    if xs != [] && xs[0].id != id && x != xs[0] {
      InRemoved(xs[1..], id, x);
    }
  }

  lemma {:induction false} InSetQtyOf(xs: seq<Order<nat>>, id: nat, qty: nat, x: Order<nat>) returns (y: Order<nat>)
    requires x in SetQty(xs, id, qty)
    ensures y in xs && x == y.(qty := x.qty)
  {
    SetQtyKeepsList(xs, id, qty);
    var i :| 0 <= i < |xs| && SetQty(xs, id, qty)[i] == x;
    y := xs[i];
  }

  /** An order after an update was there before it, or the update announces it. */
  lemma {:induction false} ComesFrom(b: Book<nat>, u: MarketUpdate, side: Side, x: Order<nat>)
    requires x in Apply(b, u).On(side)
    ensures (u.Add? && u.side == side && x == Listed(u.id, side, u.price, u.qty, u.priority))
      || exists y :: y in b.On(side) && x == y.(qty := x.qty)
  {
    assert x == x.(qty := x.qty);
    match u
    case Add(_, id, s, price, qty, priority) =>
      if side == s {
        InPlace(b.On(side), Listed(id, side, price, qty, priority), x);
      }
    case Modify(_, id, _, _, qty, _) =>
      var y := InSetQtyOf(b.On(side), id, qty, x);
    case Cancel(_, id, _, _, _, _) =>
      InRemoved(b.On(side), id, x);
    case _ =>
  }

  lemma {:induction false} StillAnnounced(m: Market, us: seq<MarketUpdate>, k: nat)
    requires OrdersAnnounced(m, us, k) && k < |us|
    ensures OrdersAnnounced(ApplyIn(m, us[k]), us, k + 1)
  {
    hide Apply, Announced;
    var u, n := us[k], ApplyIn(m, us[k]);
    forall t: nat, side: Side, x | t < |n| && x in n[t].On(side)
      ensures x.side == side && Announced(us, k + 1, t, x.id, side, x.price, x.priority)
    {
      if n[t] == m[t] {
        AnnouncedLater(us, k, t, x.id, side, x.price, x.priority);
      } else {
        ComesFrom(m[t], u, side, x);
        if u.Add? && u.side == side && x == Listed(u.id, side, u.price, u.qty, u.priority) {
          AnnouncedNow(us, k);
        } else {
          var y :| y in m[t].On(side) && x == y.(qty := x.qty);
          AnnouncedLater(us, k, t, x.id, side, x.price, x.priority);
        }
      }
    }
  }

  lemma {:induction false} AnnouncedNow(us: seq<MarketUpdate>, k: nat)
    requires k < |us| && us[k].Add?
    ensures Announced(us, k + 1, us[k].ticker, us[k].id, us[k].side, us[k].price, us[k].priority)
  {
  }

  lemma {:induction false} ReplayAnnounced(n: nat, us: seq<MarketUpdate>, k: nat)
    requires k <= |us|
    ensures OrdersAnnounced(Replay(EmptyMarket(n), us[..k]), us, k)
  {
    hide Announced, ApplyIn;
    if k == 0 {
      assert us[..0] == [];
    } else {
      ReplayAnnounced(n, us, k - 1);
      assert us[..k] == us[..k - 1] + [us[k - 1]];
      ReplaySplits(EmptyMarket(n), us[..k - 1], [us[k - 1]]);
      ReplayOne(Replay(EmptyMarket(n), us[..k - 1]), us[k - 1]);
      StillAnnounced(Replay(EmptyMarket(n), us[..k - 1]), us, k - 1);
    }
  }

  lemma {:induction false} ToldAt(m: Market, us: seq<MarketUpdate>, k: nat)
    requires AllTold(m, None, us) && k < |us|
    ensures Tells(Replay(m, us[..k]), LastOf(None, us[..k]), us[k])
  {
    hide Tells, Replay;
    AllToldSplits(m, None, us[..k], us[k..]);
    assert us == us[..k] + us[k..];
  }

  /** Over every run: a Modify carries the side, price and priority of the Add that announced its
      order; so does a Cancel, except that after a trade it carries no priority. */
  lemma {:induction false} ChangesNameTheirAdd(n: nat, rs: seq<TickerRequest>, y: Exchange, k: nat)
    requires Serves(Opening(n), rs, y) && k < |y.updates|
    ensures var us := y.updates; var u := us[k];
      && (u.Modify? ==> Announced(us, k, u.ticker, u.id, u.side, u.price, u.priority))
      && (u.Cancel? && Quiet(LastOf(None, us[..k])) ==> Announced(us, k, u.ticker, u.id, u.side, u.price, u.priority))
      && (u.Cancel? ==> exists p: nat :: Announced(us, k, u.ticker, u.id, u.side, u.price, p))
  {
    hide Announced, Replay;
    RunTold(n, rs, y);
    var us, e := y.updates, EmptyMarket(|y.books|);
    ToldAt(e, us, k);
    ReplayAnnounced(|y.books|, us, k);
    var u, b := us[k], Replay(e, us[..k])[us[k].ticker];
    if u.Modify? {
      assert b.On(u.side)[0] in b.On(u.side);
    } else if u.Cancel? {
      var x :| x in b.On(u.side) && x.id == u.id && x.price == u.price
        && (Quiet(LastOf(None, us[..k])) ==> x.priority == u.priority);
      assert Announced(us, k, u.ticker, u.id, u.side, u.price, x.priority);
    }
  }
}
