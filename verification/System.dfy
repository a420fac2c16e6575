/** The pieces together: what a subscriber rebuilds is the exchange's book. */
module Systems {
  import opened Types
  import opened Orders
  import opened Messages
  import opened MarketData
  import opened Replication
  import opened Snapshots
  import opened Recovery
  import opened TopOfBook
  import opened Capacity
  import opened Admission
  import opened Bounds
  import opened MarketOrderBooks
  import opened Publishers
  import opened Synthesizers

  lemma {:induction false} NoClearPrefix(us: seq<MarketUpdate>, vs: seq<MarketUpdate>)
    requires NoClear(us + vs)
    ensures NoClear(us)
  {
    assert forall i :: 0 <= i < |us| ==> us[i] == (us + vs)[i];
  }

  /** A prefix of what an exchange has published is a history subscribers can rely on. */
  lemma {:induction false} PublishedPrefix(n: nat, rs: seq<TickerRequest>, y: Exchange, ids: nat, k: nat)
    requires Replication.Serves(Opening(n), rs, y) && AddsBelow(y.updates, ids) && k <= |y.updates|
    ensures History(n, ids, y.updates[..k])
  {
    RunReplicates(n, rs, y);
    ServesKeepsTickers(Opening(n), rs, y);
    assert y.updates == y.updates[..k] + y.updates[k..];
    AllFitSplits(EmptyMarket(n), y.updates[..k], y.updates[k..]);
    NoClearPrefix(y.updates[..k], y.updates[k..]);
  }

  lemma {:induction false} ServesKeepsTickers(x: Exchange, rs: seq<TickerRequest>, y: Exchange)
    requires Serves(x, rs, y)
    ensures |y.books| == |x.books|
    decreases rs
  {
    if rs != [] {
      ServesKeepsTickers(Serve(x, rs[0]), rs[1..], y);
    }
  }

  /** For every run of the exchange and every pattern of loss, repetition and reordering on
      the way: a subscriber outside recovery has exactly the books that the exchange's first
      `nextExp - 1` updates make, and the exchange's own books once it has them all. */
  lemma {:induction false} SubscriberHasTheBooks(n: nat, ids: nat, rs: seq<TickerRequest>, y: Exchange, es: seq<Event>,
                                                 end: Net)
    requires Serves(Opening(n), rs, y) && AddsBelow(y.updates, ids)
    requires Recovery.Runs(n, ids, Net([], FRESH, 0), es, end) && end.h == y.updates && !end.c.inRecovery
    ensures 1 <= end.c.nextExp <= |y.updates| + 1 && AllFit(EmptyMarket(n), end.c.out)
    ensures Replay(EmptyMarket(n), end.c.out) == Replay(EmptyMarket(n), y.updates[..end.c.nextExp - 1])
    ensures end.c.nextExp == |y.updates| + 1 ==> Replay(EmptyMarket(n), end.c.out) == PublicMarket(y.books)
  {
    hide AllFit, Replay, SnapshotAt, History;
    StartSafe(n, ids);
    RunSafe(n, ids, Net([], FRESH, 0), es, end);
    RunReplicates(n, rs, y);
    ServesKeepsTickers(Opening(n), rs, y);
    assert y.updates[..|y.updates|] == y.updates;
  }

  lemma {:induction false} StartSafe(n: nat, ids: nat)
    ensures History(n, ids, []) && Safe(n, ids, [], FRESH, 0)
  {
  }

  // ----- publisher and synthesizer

  /** The publisher drains its queue, then the synthesizer its own: whatever the exchange has put
      there, none of the asserts on the way fires, and a snapshot is that of all published so far. */
  method PublishAndFold(publisher: MarketDataPublisher, synthesizer: SnapshotSynthesizer, due: bool) returns (ok: bool)
    requires publisher.Valid() && synthesizer.Follows(publisher.published) && publisher.snapshot.contents == []
    requires History(synthesizer.tickerOrders.Length, synthesizer.ids,
                     publisher.published + publisher.outgoing.contents)
    requires |publisher.outgoing.contents| <= publisher.snapshot.store.Length
    requires publisher.outgoing.store as object != synthesizer.tickerOrders as object
    requires publisher.snapshot.store as object != synthesizer.tickerOrders as object
    modifies publisher, publisher.outgoing, publisher.snapshot, publisher.snapshot.store
    modifies synthesizer, synthesizer.tickerOrders
    ensures ok && publisher.Valid() && publisher.outgoing.contents == [] && publisher.snapshot.contents == []
    ensures publisher.published == old(publisher.published + publisher.outgoing.contents)
    ensures synthesizer.Follows(publisher.published)
    ensures var n, h := synthesizer.tickerOrders.Length, publisher.published;
      synthesizer.sent == old(synthesizer.sent)
        + if due then Numbered(SnapshotAt(n, synthesizer.ids, h, |h|), 0) else []
  {
    hide History, SnapshotAt, Numbered, After;
    ghost var h, us := publisher.published, publisher.outgoing.contents;
    ok := publisher.Run();
    assert [] + Numbered(us, |h| + 1) == Numbered(us, |h| + 1);
    ok := synthesizer.Turn(publisher.snapshot, due, h, us);
  }

  // ----- one book a ticker

  function ForOne(us: seq<MarketUpdate>, t: nat): seq<MarketUpdate> {
    if us == [] then [] else (if ForTicker(us[0], t) then [us[0]] else []) + ForOne(us[1..], t)
  }

  function ApplyAll(b: Book<nat>, us: seq<MarketUpdate>): Book<nat>
    decreases us
  {
    if us == [] then b else ApplyAll(Apply(b, us[0]), us[1..])
  }

  /** The book of a ticker depends on the updates for that ticker only. */
  lemma {:induction false} OneTicker(m: Market, us: seq<MarketUpdate>, t: nat)
    requires t < |m|
    ensures Replay(m, us)[t] == ApplyAll(m[t], ForOne(us, t))
    decreases us
  {
    if us != [] {
      var u := us[0];
      OneTicker(ApplyIn(m, u), us[1..], t);
      if ForTicker(u, t) {
        assert ForOne(us, t)[1..] == ForOne(us[1..], t);
      } else {
        assert ForOne(us, t) == ForOne(us[1..], t);
      }
    }
  }

  // ----- the linked books of the subscriber

  /** A linked book can take these updates one after the other. */
  ghost predicate BookTakes(b: Book<nat>, us: seq<MarketUpdate>, levels: nat, orders: nat)
    decreases us
  {
    us == [] || (Fits(b, us[0]) && Takes(b, us[0], levels, orders)
      && BookTakes(Apply(b, us[0]), us[1..], levels, orders))
  }

  lemma {:induction false} OneBookTakes(m: Market, us: seq<MarketUpdate>, t: nat, levels: nat, orders: nat)
    requires AllTaken(m, us, levels, orders) && t < |m|
    ensures BookTakes(m[t], ForOne(us, t), levels, orders)
    decreases us
  {
    hide Fits, Takes, Apply;
    if us != [] {
      var u := us[0];
      OneBookTakes(ApplyIn(m, u), us[1..], t, levels, orders);
      if ForTicker(u, t) {
        assert ForOne(us, t)[1..] == ForOne(us[1..], t);
      } else {
        assert ForOne(us, t) == ForOne(us[1..], t);
      }
    }
  }

  /** When every request meets what the exchange's linked books ask for, the linked book of every
      ticker takes everything the consumer passes on: the updates of snapshot bodies, the queued
      ones and those in sequence. */
  lemma {:induction false} SubscriberBooksTake(n: nat, ids: nat, rs: seq<TickerRequest>, y: Exchange, es: seq<Event>,
                                               end: Net,
                                               levels: nat, orders: nat)
    requires 0 < levels && 0 < orders && ServesWithin(Opening(n), rs, y, levels, orders) && AddsBelow(y.updates, ids)
    requires Recovery.Runs(n, ids, Net([], FRESH, 0), es, end) && end.h == y.updates
    ensures forall t :: 0 <= t < n ==> BookTakes(Book([], []), ForOne(end.c.out, t), levels, orders)
  {
    hide AllTaken, Bounded, BookTakes, Serves, ServesWithin, History, Safe, ForOne;
    WithinServes(Opening(n), rs, y, levels, orders);
    RunBoundedIff(n, rs, y, levels, orders);
    StartSafe(n, ids);
    NothingTaken(EmptyMarket(n), levels, orders);
    RunTaken(n, ids, Net([], FRESH, 0), es, end, levels, orders);
    forall t | 0 <= t < n
      ensures BookTakes(Book([], []), ForOne(end.c.out, t), levels, orders)
    {
      OneBookTakes(EmptyMarket(n), end.c.out, t, levels, orders);
    }
  }

  /** A linked book that is given such updates follows their replay. */
  method Feed(book: MarketOrderBook, us: seq<MarketUpdate>)
    requires book.Valid()
    requires BookTakes(book.rings.Contents(), us, book.rings.levelPool.store.Length, book.rings.orderPool.store.Length)
    modifies book.rings.Repr, book`bbo
    ensures book.Valid() && book.rings.Contents() == ApplyAll(old(book.rings.Contents()), us)
    decreases us
  {
    hide Fits, Apply, OwnsSlot, RoomFor;
    if us != [] {
      book.OnMarketUpdate(us[0]);
      Feed(book, us[1..]);
    }
  }

  /** All that a linked book is to be given and to become. */
  lemma {:induction false} BookToFollow(n: nat, ids: nat, rs: seq<TickerRequest>, y: Exchange, es: seq<Event>, end: Net,
                                        t: nat, levels: nat, orders: nat)
    requires 0 < levels && 0 < orders && ServesWithin(Opening(n), rs, y, levels, orders) && AddsBelow(y.updates, ids)
    requires Recovery.Runs(n, ids, Net([], FRESH, 0), es, end) && end.h == y.updates && !end.c.inRecovery && t < n
    ensures |y.books| == n && 1 <= end.c.nextExp <= |y.updates| + 1
    ensures BookTakes(Book([], []), ForOne(end.c.out, t), levels, orders)
    ensures var b := ApplyAll(Book([], []), ForOne(end.c.out, t));
      && b == Replay(EmptyMarket(n), y.updates[..end.c.nextExp - 1])[t]
      && (end.c.nextExp == |y.updates| + 1 ==> b == PublicBook(y.books[t].book))
  {
    hide Serves, ServesWithin, History, BookTakes, AllFit, Replay, ApplyAll, ForOne;
    SubscriberBooksTake(n, ids, rs, y, es, end, levels, orders);
    WithinServes(Opening(n), rs, y, levels, orders);
    ServesKeepsTickers(Opening(n), rs, y);
    SubscriberHasTheBooks(n, ids, rs, y, es, end);
    OneTicker(EmptyMarket(n), end.c.out, t);
  }

  /** To the end of the chain: a linked book of one ticker that is given what the consumer passed
      on for it holds the exchange's book as of the last update counted, with its best bid and
      offer; and the exchange's own book once all have been counted. */
  method LinkedBookFollows(ghost n: nat, ghost ids: nat, ghost rs: seq<TickerRequest>, ghost y: Exchange,
                           ghost es: seq<Event>, ghost end: Net, ghost t: nat,
                           levels: nat, orders: nat, us: seq<MarketUpdate>)
    returns (book: MarketOrderBook)
    requires 0 < levels && 0 < orders && ServesWithin(Opening(n), rs, y, levels, orders) && AddsBelow(y.updates, ids)
    requires Recovery.Runs(n, ids, Net([], FRESH, 0), es, end) && end.h == y.updates && !end.c.inRecovery
    requires t < n && us == ForOne(end.c.out, t)
    ensures book.Valid() && 1 <= end.c.nextExp <= |y.updates| + 1 && |y.books| == n
    ensures var b := Replay(EmptyMarket(n), y.updates[..end.c.nextExp - 1])[t];
      && book.rings.Contents() == b && ExactTop(Buy, b.bids, book.bbo.bid) && ExactTop(Sell, b.asks, book.bbo.ask)
      && (end.c.nextExp == |y.updates| + 1 ==> b == PublicBook(y.books[t].book))
  {
    hide ServesWithin, Recovery.Runs, AddsBelow, BookTakes, Replay, ApplyAll, ForOne, WellFormed, KeysAreIds, BboOf,
      ExactTop;
    BookToFollow(n, ids, rs, y, es, end, t, levels, orders);
    book := new MarketOrderBook(levels, orders);
    Feed(book, us);
    BboIsExact(book.rings.Contents());
  }
}
