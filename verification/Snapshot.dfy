/** The synthesizer's table of live orders, and the snapshots made from it. */
module Snapshots {
  import opened Types
  import opened Orders
  import opened Messages
  import opened MarketData

  /** For each live order id of a ticker, the update that would add it. */
  type Table = map<nat, MarketUpdate>

  /** The asserts on an incremental: an order exists exactly when it should, on the same side. */
  predicate Expected(orders: Table, u: MarketUpdate) {
    match u
    case Add(_, id, _, _, _, _) => id !in orders
    case Modify(_, id, side, _, _, _) =>
      id in orders && orders[id].Add? && orders[id].id == id && orders[id].side == side
    case Cancel(_, id, side, _, _, _) =>
      id in orders && orders[id].Add? && orders[id].id == id && orders[id].side == side
    case _ => true
  }

  function Changed(u: MarketUpdate, price: nat, qty: nat): MarketUpdate
    requires u.Add?
  {
    Add(u.ticker, u.id, u.side, price, qty, u.priority)
  }

  function Note(orders: Table, u: MarketUpdate): Table
    requires Expected(orders, u)
  {
    match u
    case Add(_, id, _, _, _, _) => orders[id := u]
    case Modify(_, id, _, price, qty, _) => orders[id := Changed(orders[id], price, qty)]
    case Cancel(_, id, _, _, _, _) => orders - {id}
    case _ => orders
  }

  function Announce(t: nat, x: Order<nat>): MarketUpdate {
    Add(t, x.id, x.side, x.price, x.qty, x.priority)
  }

  /** The table lists exactly the live orders, with their side, price, quantity and priority. */
  ghost predicate Mirrors(orders: Table, t: nat, b: Book<nat>) {
    && (forall x :: InBook(b, x) ==> x.id in orders && orders[x.id] == Announce(t, x) && x.key == x.id)
    && (forall id :: id in orders ==> exists x :: InBook(b, x) && x.id == id)
  }

  // ----- the table follows the book

  lemma {:induction false} NamedOrder(b: Book<nat>, id: nat, side: Side, price: nat) returns (x: Order<nat>)
    requires WellFormed(b) && Names(b, id, side, price)
    ensures InBook(b, x) && x.id == id && x.side == side && x.price == price
    ensures forall y :: InBook(b, y) && y.id == id ==> y == x
  {
    x :| x in b.On(side) && x.id == id && x.price == price;
    assert Live(side, x);
    OneOrderPerId(b, x);
  }

  lemma {:induction false} OneOrderPerId(b: Book<nat>, x: Order<nat>)
    requires WellFormed(b) && InBook(b, x)
    ensures forall y :: InBook(b, y) && y.id == x.id ==> y == x
  {
  }

  lemma {:induction false} AddMirrored(orders: Table, t: nat, b: Book<nat>, x: Order<nat>)
    requires Mirrors(orders, t, b) && MayPlace(b, x) && x.key == x.id
    ensures x.id !in orders
    ensures Mirrors(orders[x.id := Announce(t, x)], t, b.With(x.side, Place(b.On(x.side), x)))
  {
    var c := b.With(x.side, Place(b.On(x.side), x));
    forall y
      ensures InBook(c, y) <==> InBook(b, y) || y == x
    {
      InPlace(b.On(x.side), x, y);
    }
    assert InBook(c, x);
  }

  lemma {:induction false} CancelMirrored(orders: Table, t: nat, b: Book<nat>, id: nat)
    requires Mirrors(orders, t, b) && WellFormed(b)
    ensures Mirrors(orders - {id}, t, Book(Remove(b.bids, id), Remove(b.asks, id)))
  {
    var c := Book(Remove(b.bids, id), Remove(b.asks, id));
    forall y
      ensures InBook(c, y) <==> InBook(b, y) && y.id != id
    {
      InRemove(b.bids, id, y);
      InRemove(b.asks, id, y);
    }
  }

  lemma {:induction false} ModifyMirrored(orders: Table, t: nat, b: Book<nat>, x: Order<nat>, qty: nat)
    requires Mirrors(orders, t, b) && WellFormed(b) && InBook(b, x)
    ensures x.id in orders && orders[x.id].Add?
    ensures Mirrors(orders[x.id := Changed(orders[x.id], x.price, qty)], t,
      Book(SetQty(b.bids, x.id, qty), SetQty(b.asks, x.id, qty)))
  {
    var c := Book(SetQty(b.bids, x.id, qty), SetQty(b.asks, x.id, qty));
    OneOrderPerId(b, x);
    var z := x.(qty := qty);
    forall y
      ensures InBook(c, y) <==> (InBook(b, y) && y.id != x.id) || y == z
    {
      InSetQty(b.bids, x.id, qty, y);
      InSetQty(b.asks, x.id, qty, y);
      assert InBook(b, x) && x in (if x in b.bids then b.bids else b.asks);
      assert forall w :: w in b.bids || w in b.asks ==> InBook(b, w);
    }
    assert InBook(c, z);
  }

  /** None of the asserts can fire on an exchange's stream, and the table stays exact. */
  lemma {:induction false} NoteMirrors(orders: Table, t: nat, b: Book<nat>, u: MarketUpdate)
    requires Mirrors(orders, t, b) && WellFormed(b) && Fits(b, u) && !u.Clear? && ForTicker(u, t)
    ensures Expected(orders, u) && Mirrors(Note(orders, u), t, Apply(b, u))
  {
    match u
    case Add(_, id, side, price, qty, priority) => AddMirrored(orders, t, b, Listed(id, side, price, qty, priority));
    case Modify(_, id, side, price, qty, _) =>
      var x := NamedOrder(b, id, side, price);
      ModifyMirrored(orders, t, b, x, qty);
    case Cancel(_, id, side, price, _, _) =>
      var x := NamedOrder(b, id, side, price);
      CancelMirrored(orders, t, b, id);
    case Trade(_, _, _, _) =>
  }

  // ----- snapshots

  /** The listed orders with ids from `lo` to before `hi`, by ascending id. */
  function Listing(orders: Table, lo: nat, hi: nat): seq<MarketUpdate>
    decreases hi - lo
  {
    if hi <= lo then [] else (if lo in orders then [orders[lo]] else []) + Listing(orders, lo + 1, hi)
  }

  function Body(tables: seq<Table>, ids: nat): seq<MarketUpdate> {
    if tables == [] then []
    else
      var t := |tables| - 1;
      Body(tables[..t], ids) + ([Clear(t)] + Listing(tables[t], 0, ids))
  }

  function Snapshot(tables: seq<Table>, ids: nat, stamp: nat): seq<MarketUpdate> {
    [SnapshotStart(stamp)] + Body(tables, ids) + [SnapshotEnd(stamp)]
  }

  /** `c` holds, in price-time order, the orders of `b` with ids below `n`. */
  ghost predicate UpTo(c: Book<nat>, b: Book<nat>, n: nat) {
    && WellFormed(c)
    && (forall x :: x in c.bids <==> x in b.bids && x.id < n)
    && (forall x :: x in c.asks <==> x in b.asks && x.id < n)
  }

  lemma {:induction false} NextFits(c: Book<nat>, b: Book<nat>, x: Order<nat>)
    requires WellFormed(b) && UpTo(c, b, x.id) && InBook(b, x) && x.key == x.id
    requires forall y :: InBook(b, y) ==> y.key == y.id
    ensures x in b.On(x.side) && 0 < x.qty && MayPlace(c, x)
  {
  }

  lemma {:induction false} NextListed(c: Book<nat>, b: Book<nat>, x: Order<nat>)
    requires WellFormed(b) && UpTo(c, b, x.id) && InBook(b, x) && x.key == x.id
    requires forall y :: InBook(b, y) ==> y.key == y.id
    ensures MayPlace(c, x) && UpTo(c.With(x.side, Place(c.On(x.side), x)), b, x.id + 1)
  {
    NextFits(c, b, x);
    PlaceKeepsBook(c, x);
    OneOrderPerId(b, x);
    forall y
      ensures y in Place(c.On(x.side), x) <==> y in c.On(x.side) || y == x
    {
      InPlace(c.On(x.side), x, y);
    }
    forall y | InBook(b, y) && y.id == x.id
      ensures y == x && y !in b.On(Opposite(x.side))
    {
      assert y in b.On(Opposite(x.side)) ==> Live(Opposite(x.side), y);
    }
  }

  lemma {:induction false} SkipId(c: Book<nat>, b: Book<nat>, orders: Table, t: nat, n: nat)
    requires Mirrors(orders, t, b) && UpTo(c, b, n) && n !in orders
    ensures UpTo(c, b, n + 1)
  {
  }

  lemma {:induction false} ListId(c: Book<nat>, b: Book<nat>, orders: Table, t: nat, n: nat)
    requires WellFormed(b) && Mirrors(orders, t, b) && UpTo(c, b, n) && n in orders
    ensures ForTicker(orders[n], t) && Fits(c, orders[n]) && UpTo(Apply(c, orders[n]), b, n + 1)
  {
    var x :| InBook(b, x) && x.id == n;
    NextListed(c, b, x);
  }

  /** Replaying the listing of a table adds the mirrored orders in the order of their ids,
      and every one of them fits. */
  lemma {:induction false} ListingRebuilds(m: Market, t: nat, b: Book<nat>, orders: Table, lo: nat, hi: nat)
    requires t < |m| && lo <= hi && WellFormed(b) && Mirrors(orders, t, b) && UpTo(m[t], b, lo)
    ensures AllFit(m, Listing(orders, lo, hi))
    ensures var r := Replay(m, Listing(orders, lo, hi)); r == m[t := r[t]] && UpTo(r[t], b, hi)
    decreases hi - lo
  {
    hide UpTo, Mirrors, WellFormed, Fits, Apply;
    if lo < hi {
      if lo in orders {
        ListId(m[t], b, orders, t, lo);
        var u, rest := orders[lo], Listing(orders, lo + 1, hi);
        ListingRebuilds(ApplyIn(m, u), t, b, orders, lo + 1, hi);
        assert ([u] + rest)[1..] == rest;
      } else {
        SkipId(m[t], b, orders, t, lo);
        ListingRebuilds(m, t, b, orders, lo + 1, hi);
        assert [] + Listing(orders, lo + 1, hi) == Listing(orders, lo + 1, hi);
      }
    }
  }

  ghost predicate IdsBelow(b: Book<nat>, n: nat) {
    forall x :: InBook(b, x) ==> x.id < n
  }

  lemma {:induction false} AllListed(c: Book<nat>, b: Book<nat>, n: nat)
    requires WellFormed(b) && UpTo(c, b, n) && IdsBelow(b, n)
    ensures c == b
  {
    assert forall x :: x in b.bids || x in b.asks ==> InBook(b, x);
    SameOrdersSameSide(Buy, c.bids, b.bids);
    SameOrdersSameSide(Sell, c.asks, b.asks);
  }

  lemma {:induction false} NothingListed(b: Book<nat>)
    ensures UpTo(Book([], []), b, 0)
  {
  }

  lemma {:induction false} TickerRebuilds(m: Market, t: nat, b: Book<nat>, orders: Table, ids: nat)
    requires t < |m| && WellFormed(b) && Mirrors(orders, t, b) && IdsBelow(b, ids)
    ensures var us := [Clear(t)] + Listing(orders, 0, ids); AllFit(m, us) && Replay(m, us) == m[t := b]
  {
    hide UpTo, Mirrors, WellFormed, IdsBelow, Listing;
    var us := [Clear(t)] + Listing(orders, 0, ids);
    var n := m[t := Book([], [])];
    NothingListed(b);
    assert us[1..] == Listing(orders, 0, ids) && ApplyIn(m, us[0]) == n;
    ListingRebuilds(n, t, b, orders, 0, ids);
    AllListed(Replay(n, us[1..])[t], b, ids);
  }

  ghost predicate TablesMirror(tables: seq<Table>, m: Market) {
    |tables| == |m| && forall t :: 0 <= t < |m| ==> Mirrors(tables[t], t, m[t])
  }

  lemma {:induction false} OneStepReplays(m: Market)
    ensures AllFit(m, []) && Replay(m, []) == m
  {
  }

  /** Replaying a snapshot body, whatever the books were, gives the mirrored books, level by
      level and queue position by queue position. */
  lemma {:induction false} BodyRebuilds(m: Market, tables: seq<Table>, ids: nat, target: Market)
    requires |m| >= |tables| && TablesMirror(tables, target) && WellFormedMarket(target)
    requires forall t :: 0 <= t < |target| ==> IdsBelow(target[t], ids)
    ensures AllFit(m, Body(tables, ids)) && Replay(m, Body(tables, ids)) == target + m[|tables|..]
    decreases tables
  {
    hide Mirrors, WellFormed, IdsBelow, Listing, AllFit, Replay;
    if tables == [] {
      OneStepReplays(m);
      assert target + m == m;
    } else {
      var t := |tables| - 1;
      BodyRebuilds(m, tables[..t], ids, target[..t]);
      var us := [Clear(t)] + Listing(tables[t], 0, ids);
      var n := target[..t] + m[t..];
      TickerRebuilds(n, t, target[t], tables[t], ids);
      AllFitSplits(m, Body(tables[..t], ids), us);
      ReplaySplits(m, Body(tables[..t], ids), us);
      assert n[t := target[t]] == target + m[t + 1..];
    }
  }

  // ----- the whole stream

  predicate Acceptable(tables: seq<Table>, u: MarketUpdate) {
    !u.SnapshotStart? && !u.SnapshotEnd? && u.ticker < |tables| && Expected(tables[u.ticker], u)
  }

  function NoteIn(tables: seq<Table>, u: MarketUpdate): (r: seq<Table>)
    requires Acceptable(tables, u)
    ensures |r| == |tables|
  {
    tables[u.ticker := Note(tables[u.ticker], u)]
  }

  /** The tables after a stream; they stand still from an update that would stop the program. */
  function After(tables: seq<Table>, us: seq<MarketUpdate>): (r: seq<Table>)
    ensures |r| == |tables|
    decreases us
  {
    if us == [] || !Acceptable(tables, us[0]) then tables else After(NoteIn(tables, us[0]), us[1..])
  }

  /** No assert fires along the whole stream. */
  predicate AllAcceptable(tables: seq<Table>, us: seq<MarketUpdate>)
    decreases us
  {
    us == [] || (Acceptable(tables, us[0]) && AllAcceptable(NoteIn(tables, us[0]), us[1..]))
  }

  function EmptyTables(n: nat): seq<Table> {
    seq(n, _ => map[])
  }

  /** On an exchange's stream no assert fires and the tables mirror the books throughout. */
  lemma {:induction false} StreamMirrors(tables: seq<Table>, m: Market, us: seq<MarketUpdate>)
    requires TablesMirror(tables, m) && WellFormedMarket(m) && AllFit(m, us) && NoClear(us)
    ensures AllAcceptable(tables, us) && TablesMirror(After(tables, us), Replay(m, us))
    decreases us
  {
    if us != [] {
      var u := us[0];
      NoteMirrors(tables[u.ticker], u.ticker, m[u.ticker], u);
      ApplyKeeps(m[u.ticker], u);
      StreamMirrors(NoteIn(tables, u), ApplyIn(m, u), us[1..]);
    }
  }

  // ----- order ids stay below the size of the table

  ghost predicate AddsBelow(us: seq<MarketUpdate>, ids: nat) {
    forall i :: 0 <= i < |us| && us[i].Add? ==> us[i].id < ids
  }

  ghost predicate MarketBelow(m: Market, ids: nat) {
    forall t :: 0 <= t < |m| ==> IdsBelow(m[t], ids)
  }

  lemma {:induction false} ApplyBelow(b: Book<nat>, u: MarketUpdate, ids: nat)
    requires WellFormed(b) && IdsBelow(b, ids) && (u.Add? ==> u.id < ids)
    ensures IdsBelow(Apply(b, u), ids)
  {
    forall x | InBook(Apply(b, u), x)
      ensures x.id < ids
    {
      match u
      case Add(_, id, side, price, qty, priority) =>
        InPlace(b.On(side), Listed(id, side, price, qty, priority), x);
        assert InBook(b, x) || x == Listed(id, side, price, qty, priority);
      case Modify(_, id, _, _, qty, _) =>
        InSetQty(b.bids, id, qty, x);
        InSetQty(b.asks, id, qty, x);
        assert forall y :: y in b.bids || y in b.asks ==> InBook(b, y);
      case Cancel(_, id, _, _, _, _) =>
        InRemove(b.bids, id, x);
        InRemove(b.asks, id, x);
        assert InBook(b, x);
      case _ =>
    }
  }

  lemma {:induction false} ReplayBelow(m: Market, us: seq<MarketUpdate>, ids: nat)
    requires WellFormedMarket(m) && AllFit(m, us) && MarketBelow(m, ids) && AddsBelow(us, ids)
    ensures MarketBelow(Replay(m, us), ids)
    decreases us
  {
    if us != [] {
      ApplyKeeps(m[us[0].ticker], us[0]);
      ApplyBelow(m[us[0].ticker], us[0], ids);
      ReplayBelow(ApplyIn(m, us[0]), us[1..], ids);
    }
  }

  /** The snapshot taken after any prefix of an exchange's stream replays, over whatever
      books, to the books after that prefix. */
  lemma {:induction false} SnapshotRebuilds(n: nat, h: seq<MarketUpdate>, ids: nat, m: Market)
    requires AllFit(EmptyMarket(n), h) && NoClear(h) && AddsBelow(h, ids) && |m| == n
    ensures var body := Body(After(EmptyTables(n), h), ids);
      AllFit(m, body) && Replay(m, body) == Replay(EmptyMarket(n), h)
  {
    var e, tables := EmptyMarket(n), EmptyTables(n);
    assert WellFormedMarket(e) && TablesMirror(tables, e) && MarketBelow(e, ids);
    StreamMirrors(tables, e, h);
    ReplayKeeps(e, h);
    ReplayBelow(e, h, ids);
    BodyRebuilds(m, After(tables, h), ids, Replay(e, h));
    assert m[n..] == [];
  }

  // ----- what the asserts and the messages mean

  /** With an exact table the asserts on an update hold exactly when the live orders allow it. */
  lemma {:induction false} ExpectedMeans(orders: Table, t: nat, b: Book<nat>, u: MarketUpdate)
    requires Mirrors(orders, t, b)
    ensures u.Add? ==> (Expected(orders, u) <==> forall x :: InBook(b, x) ==> x.id != u.id)
    ensures u.Modify? || u.Cancel? ==>
      (Expected(orders, u) <==> exists x :: InBook(b, x) && x.id == u.id && x.side == u.side)
    ensures !(u.Add? || u.Modify? || u.Cancel?) ==> Expected(orders, u)
  {
  }

  /** Every entry is the addition of its own order. */
  ghost predicate Keyed(tables: seq<Table>) {
    forall t: nat, id: nat :: t < |tables| && id in tables[t] ==>
      tables[t][id].Add? && tables[t][id].ticker == t && tables[t][id].id == id
  }

  lemma {:induction false} MirroringIsKeyed(tables: seq<Table>, m: Market)
    requires TablesMirror(tables, m)
    ensures Keyed(tables)
  {
    forall t: nat, id: nat | t < |tables| && id in tables[t]
      ensures tables[t][id].Add? && tables[t][id].ticker == t && tables[t][id].id == id
    {
      assert Mirrors(tables[t], t, m[t]);
    }
  }

  /** By ticker; for each ticker the Clear first, then its orders by id. */
  ghost predicate Precedes(u: MarketUpdate, v: MarketUpdate) {
    && (u.Clear? || u.Add?) && (v.Clear? || v.Add?)
    && (u.ticker < v.ticker || (u.ticker == v.ticker && v.Add? && (u.Clear? || u.id < v.id)))
  }

  ghost predicate Arranged(us: seq<MarketUpdate>) {
    forall i, j :: 0 <= i < j < |us| ==> Precedes(us[i], us[j])
  }

  lemma {:induction false} InListing(orders: Table, lo: nat, hi: nat, u: MarketUpdate)
    ensures u in Listing(orders, lo, hi) <==> exists id: nat :: lo <= id < hi && id in orders && orders[id] == u
    decreases hi - lo
  {
    if lo < hi {
      InListing(orders, lo + 1, hi, u);
    }
  }

  lemma {:induction false} ListingArranged(tables: seq<Table>, t: nat, lo: nat, hi: nat)
    requires Keyed(tables) && t < |tables|
    ensures Arranged(Listing(tables[t], lo, hi))
    decreases hi - lo
  {
    if lo < hi {
      var rest := Listing(tables[t], lo + 1, hi);
      ListingArranged(tables, t, lo + 1, hi);
      forall j | 0 <= j < |rest|
        ensures rest[j].Add? && rest[j].ticker == t && lo < rest[j].id
      {
        InListing(tables[t], lo + 1, hi, rest[j]);
      }
    }
  }

  ghost predicate InSomeTable(tables: seq<Table>, ids: nat, u: MarketUpdate) {
    exists t: nat, id: nat :: t < |tables| && id in tables[t] && id < ids && tables[t][id] == u
  }

  lemma {:induction false} InBody(tables: seq<Table>, ids: nat, u: MarketUpdate)
    ensures u in Body(tables, ids) <==> (u.Clear? && u.ticker < |tables|) || InSomeTable(tables, ids, u)
  {
    if tables != [] {
      var t := |tables| - 1;
      InBody(tables[..t], ids, u);
      InListing(tables[t], 0, ids, u);
      assert InSomeTable(tables[..t], ids, u) ==> InSomeTable(tables, ids, u);
    }
  }

  lemma {:induction false} ArrangedAppended(a: seq<MarketUpdate>, b: seq<MarketUpdate>)
    requires Arranged(a) && Arranged(b) && forall x, y :: x in a && y in b ==> Precedes(x, y)
    ensures Arranged(a + b)
  {
  }

  lemma {:induction false} BodyArranged(tables: seq<Table>, ids: nat)
    requires Keyed(tables)
    ensures Arranged(Body(tables, ids))
  {
    hide Listing, Precedes, Arranged;
    if tables == [] {
      NothingArranged();
    } else {
      var t := |tables| - 1;
      var before, orders := Body(tables[..t], ids), Listing(tables[t], 0, ids);
      BodyArranged(tables[..t], ids);
      ListingArranged(tables, t, 0, ids);
      TickerFollows(tables, ids);
      ClearIsArranged(t);
      ArrangedAppended([Clear(t)], orders);
      ArrangedAppended(before, [Clear(t)] + orders);
    }
  }

  lemma {:induction false} NothingArranged()
    ensures Arranged([])
  {
  }

  lemma {:induction false} ClearIsArranged(t: nat)
    ensures Arranged([Clear(t)])
  {
  }

  lemma {:induction false} TickerFollows(tables: seq<Table>, ids: nat)
    requires Keyed(tables) && tables != []
    ensures var t := |tables| - 1;
      && (forall y :: y in Listing(tables[t], 0, ids) ==> Precedes(Clear(t), y))
      && forall x, y :: x in Body(tables[..t], ids) && (y == Clear(t) || y in Listing(tables[t], 0, ids)) ==>
        Precedes(x, y)
  {
    var t := |tables| - 1;
    forall y | y in Listing(tables[t], 0, ids)
      ensures y.Add? && y.ticker == t
    {
      InListing(tables[t], 0, ids, y);
    }
    forall x | x in Body(tables[..t], ids)
      ensures (x.Clear? || x.Add?) && x.ticker < t
    {
      InBody(tables[..t], ids, x);
    }
  }

  /** A snapshot is its start, then by ticker the Clear and all live orders by id, then its end. */
  lemma {:induction false} SnapshotMeans(tables: seq<Table>, ids: nat, stamp: nat)
    requires Keyed(tables)
    ensures var s := Snapshot(tables, ids, stamp); var body := s[1..|s| - 1];
      && 2 <= |s| && s[0] == SnapshotStart(stamp) && s[|s| - 1] == SnapshotEnd(stamp) && Arranged(body)
      && forall u :: u in body <==> (u.Clear? && u.ticker < |tables|) || InSomeTable(tables, ids, u)
  {
    hide Body, InSomeTable, Arranged;
    var s := Snapshot(tables, ids, stamp);
    assert s[1..|s| - 1] == Body(tables, ids);
    BodyArranged(tables, ids);
    forall u
      ensures u in Body(tables, ids) <==> (u.Clear? && u.ticker < |tables|) || InSomeTable(tables, ids, u)
    {
      InBody(tables, ids, u);
    }
  }
}
