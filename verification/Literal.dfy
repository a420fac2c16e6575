/** The places where the source's text departs from its evident intent. The model follows the
    intent; here each literal form is written down, with the exact condition under which it
    does the same, or still does what it is for. */
module Literal {
  import opened Types
  import opened Orders
  import opened Messages
  import opened Matching
  import opened MemPools
  import opened Rings
  import opened RingRep
  import opened MarketData
  import opened TopOfBook
  import opened Snapshots
  import opened Recovery
  import opened Sequencers

  // ----- me_order_book.cpp line 83 passes the quantity and the new id in each other's place

  function AddLiteral(s: State, ticker: nat, owner: Owner, side: Side, price: nat, qty: nat): Step {
    var id := s.nextId;
    var m := Match(Aggressor(ticker, owner, qty, side, price), s.book.On(Opposite(side)), id);
    var matched := s.book.With(Opposite(side), m.rest);
    var accepted := ClientResponse.Accepted(owner.client, ticker, owner.clientOrderId, id, side, price, 0, qty);
    if m.leaves == 0 then
      Step(State(matched, id + 1), [accepted] + m.responses, m.updates)
    else
      var priority := LastPriority(matched.On(side), price) + 1;
      var o := Order(owner, id, side, price, m.leaves, priority);
      Step(State(matched.With(side, Place(matched.On(side), o)), id + 1),
           [accepted] + m.responses, m.updates + [MarketUpdate.Add(ticker, id, side, price, m.leaves, priority)])
  }

  /** Swapping the arguments is harmless exactly when they happen to be equal. */
  lemma {:induction false} SwappedArguments(s: State, ticker: nat, owner: Owner, side: Side, price: nat, qty: nat)
    ensures AddLiteral(s, ticker, owner, side, price, qty) == AddStep(s, ticker, owner, side, price, qty)
      <==> qty == s.nextId
  {
    var id, xs := s.nextId, s.book.On(Opposite(side));
    var a, b := AddStep(s, ticker, owner, side, price, qty), AddLiteral(s, ticker, owner, side, price, qty);
    if xs != [] && Crosses(side, price, xs[0].price) {
      FirstFill(Aggressor(ticker, owner, id, side, price), xs, qty);
      FirstFill(Aggressor(ticker, owner, qty, side, price), xs, id);
      assert 0 < qty ==> a.responses[1] == Match(Aggressor(ticker, owner, id, side, price), xs, qty).responses[0];
      assert 0 < id ==> b.responses[1] == Match(Aggressor(ticker, owner, qty, side, price), xs, id).responses[0];
      assert |a.responses| == 1 + |Match(Aggressor(ticker, owner, id, side, price), xs, qty).responses|;
      assert |b.responses| == 1 + |Match(Aggressor(ticker, owner, qty, side, price), xs, id).responses|;
    } else {
      assert 0 < qty ==> a.updates[0].qty == qty;
      assert 0 < id ==> b.updates[0].qty == id;
    }
  }

  lemma {:induction false} FirstFill(a: Aggressor, xs: seq<Order<Owner>>, leaves: nat)
    requires xs != [] && Crosses(a.side, a.price, xs[0].price)
    ensures var m := Match(a, xs, leaves);
      if leaves == 0 then m.responses == []
      else m.responses != [] && m.responses[0].Filled? && m.responses[0].id == a.id
  {
  }

  // ----- me_order_book.h lines 136 to 140 move the head when the new level is worse

  /** The links and the head once level node `x` stands at position `k` of a nonempty ring. */
  function LinksLiteral(nodes: seq<Node<LevelData>>, ring: seq<nat>, k: nat, x: nat): (r: seq<Node<LevelData>>)
    requires 0 < |ring| && k <= |ring| && x < |nodes|
    requires forall l :: l in ring ==> l < |nodes|
    requires forall l :: l in ring ==> Rings.InBounds(nodes, nodes[l].prev)
    ensures |r| == |nodes|
  {
    var t := ring[if k == |ring| then 0 else k];
    assert t in ring;
    var linked := LinkBefore(nodes, t, x);
    if 0 < k < |ring| && linked[t].next == ring[0] then linked[t := linked[t].(next := x)] else linked
  }

  function HeadLiteral(ring: seq<nat>, k: nat, x: nat): nat
    requires 0 < |ring|
  {
    if 0 < k < |ring| then x else ring[0]
  }

  function PriceAt(nodes: seq<Node<LevelData>>, i: nat): nat {
    if i < |nodes| then nodes[i].data.price else 0
  }

  ghost predicate Falls(nodes: seq<Node<LevelData>>, side: Side, ring: seq<nat>) {
    forall i, j :: 0 <= i < j < |ring| ==> Better(side, PriceAt(nodes, ring[i]), PriceAt(nodes, ring[j]))
  }

  /** Read from `head`, some ring that contains `x` lists its levels from best to worst. */
  ghost predicate ReadsBestFirst(nodes: seq<Node<LevelData>>, side: Side, head: nat, x: nat) {
    exists r: seq<nat> :: IsRing(nodes, r) && r != [] && r[0] == head && x in r && Falls(nodes, side, r)
  }

  /** Nothing but links changes, and the new level gets the links it should get. */
  lemma {:induction false} LiteralKeepsData(nodes: seq<Node<LevelData>>, ring: seq<nat>, k: nat, x: nat)
    requires IsRing(nodes, ring) && 0 < |ring| && k <= |ring| && x < |nodes| && x !in ring
    ensures forall l :: l in ring ==> l < |nodes| && Rings.InBounds(nodes, nodes[l].prev)
    ensures var after := LinksLiteral(nodes, ring, k, x);
      && (forall i :: 0 <= i < |nodes| ==> after[i].data == nodes[i].data)
      && (0 < k < |ring| ==> after[x].prev == ring[k - 1])
  {
    forall l | l in ring
      ensures l < |nodes| && Rings.InBounds(nodes, nodes[l].prev)
    {
      var i :| 0 <= i < |ring| && ring[i] == l;
      assert Linked(nodes, ring, i);
    }
    if k < |ring| {
      assert Linked(nodes, ring, k);
      assert ring[k] in ring;
    }
  }

  lemma {:induction false} WorstIsRead(nodes: seq<Node<LevelData>>, side: Side, ring: seq<nat>, x: nat)
    requires IsRing(nodes, ring) && 0 < |ring| && x < |nodes| && x !in ring && Falls(nodes, side, ring)
    requires forall j :: 0 <= j < |ring| ==> Better(side, PriceAt(nodes, ring[j]), PriceAt(nodes, x))
    requires ring[0] < |nodes| && Rings.InBounds(nodes, nodes[ring[0]].prev)
    ensures ReadsBestFirst(LinkBefore(nodes, ring[0], x), side, ring[0], x)
  {
    LinkedBefore(nodes, ring, 0, x);
    var after, r := LinkBefore(nodes, ring[0], x), ring + [x];
    assert r[|ring|] == x;
    forall i, j | 0 <= i < j < |r|
      ensures Better(side, PriceAt(after, r[i]), PriceAt(after, r[j]))
    {
      assert r[i] == ring[i] && (j < |ring| ==> r[j] == ring[j]);
    }
  }

  lemma {:induction false} FirstIsBest(nodes: seq<Node<LevelData>>, side: Side, r: seq<nat>, l: nat)
    requires Falls(nodes, side, r) && r != [] && l in r && l != r[0]
    ensures Better(side, PriceAt(nodes, r[0]), PriceAt(nodes, l))
  {
  }

  lemma {:induction false} NotBestFirst(nodes: seq<Node<LevelData>>, side: Side, ring: seq<nat>, k: nat, x: nat,
                                        r: seq<nat>, after: seq<Node<LevelData>>)
    requires IsRing(nodes, ring) && k < |ring| && x < |nodes| == |after| && x !in ring && ring[k] < |nodes|
    requires forall i :: 0 <= i < |nodes| ==> after[i].data == nodes[i].data
    requires 0 < k ==> after[x].prev == ring[k - 1] && ring[k - 1] < |nodes|
    requires 0 < k ==> Better(side, PriceAt(nodes, ring[k - 1]), PriceAt(nodes, x))
    requires k == 0 ==> Better(side, PriceAt(nodes, x), PriceAt(nodes, ring[0]))
    requires IsRing(after, r) && r != [] && r[0] == HeadLiteral(ring, k, x) && x in r
    ensures !Falls(after, side, r)
  {
    var other := if k == 0 then x else ring[k - 1];
    Neighbours(after, r, 0);
    assert ring[0] in ring;
    assert k > 0 ==> ring[k - 1] in ring;
    if Falls(after, side, r) {
      FirstIsBest(after, side, r, other);
    }
  }

  /** The literal form keeps the side readable exactly when the new price is worse than all
      prices already there. */
  lemma {:induction false} HeadMovesWrongly(nodes: seq<Node<LevelData>>, side: Side, ring: seq<nat>, k: nat, x: nat)
    requires IsRing(nodes, ring) && 0 < |ring| && k <= |ring| && x < |nodes| && x !in ring && Falls(nodes, side, ring)
    requires forall j :: 0 <= j < k ==> Better(side, PriceAt(nodes, ring[j]), PriceAt(nodes, x))
    requires forall j :: k <= j < |ring| ==> Better(side, PriceAt(nodes, x), PriceAt(nodes, ring[j]))
    ensures forall l :: l in ring ==> l < |nodes| && Rings.InBounds(nodes, nodes[l].prev)
    ensures ReadsBestFirst(LinksLiteral(nodes, ring, k, x), side, HeadLiteral(ring, k, x), x) <==>
      forall l :: l in ring ==> Better(side, PriceAt(nodes, l), PriceAt(nodes, x))
  {
    LiteralKeepsData(nodes, ring, k, x);
    var after, head := LinksLiteral(nodes, ring, k, x), HeadLiteral(ring, k, x);
    if k == |ring| {
      WorstIsRead(nodes, side, ring, x);
    } else {
      assert ring[k] in ring;
      forall r: seq<nat> | IsRing(after, r) && r != [] && r[0] == head && x in r
        ensures !Falls(after, side, r)
      {
        NotBestFirst(nodes, side, ring, k, x, r, after);
      }
    }
  }

  // ----- market_data_consumer.cpp lines 95 to 98: incrementals are not kept in recovery, and
  // ----- only their arrival asks whether recovery is over

  function EnqueueLiteral(c: Recovery.Consumer, isSnapshot: bool, seqNum: nat, u: MarketUpdate): Recovery.Consumer {
    if isSnapshot then
      var q := if seqNum in c.snapshots then map[] else c.snapshots;
      c.(snapshots := q[seqNum := u])
    else
      CheckSync(c)
  }

  /** In recovery the literal form never keeps an incremental. Handling one right therefore takes
      a complete snapshot that covers it; while the snapshot is still awaited or collected, or when
      the incremental is a later one, it is lost. */
  lemma {:induction false} IncrementalIsLost(c: Recovery.Consumer, k: nat, u: MarketUpdate)
    requires c.inRecovery && c.incrementals == map[]
    ensures EnqueueLiteral(c, false, k, u).incrementals == map[]
    ensures EnqueueLiteral(c, false, k, u) == Enqueue(c, false, k, u) <==>
      Complete(c.snapshots) && k <= c.snapshots[|c.snapshots| - 1].stamp
  {
    hide Events, FirstMissing, NoGap;
    if Complete(c.snapshots) {
      LaterIsLost(c, k, u);
    } else {
      assert k in Enqueue(c, false, k, u).incrementals;
    }
  }

  /** With a complete snapshot waiting, only what it covers may go. */
  lemma {:induction false} LaterIsLost(c: Recovery.Consumer, k: nat, u: MarketUpdate)
    requires c.inRecovery && c.incrementals == map[] && Complete(c.snapshots)
    ensures EnqueueLiteral(c, false, k, u) == Enqueue(c, false, k, u) <==> k <= c.snapshots[|c.snapshots| - 1].stamp
  {
    hide Complete, Unbroken, Events;
    NotBroken(c.snapshots);
    var from := c.snapshots[|c.snapshots| - 1].stamp + 1;
    var q: Queue := map[][k := u];
    OneQueued(k, u, from);
    NothingQueued(from);
    if k < from {
      NoEvents(q, from);
      NoEvents(map[], from);
    }
  }

  /** A snapshot message is handled right exactly when the queue it joins is unbroken and not
      yet complete: otherwise the literal form neither ends recovery nor drops the queue. */
  lemma {:induction false} SnapshotIsNotLookedAt(c: Recovery.Consumer, k: nat, u: MarketUpdate)
    requires c.inRecovery
    ensures var q: Queue := (if k in c.snapshots then map[] else c.snapshots)[k := u];
      EnqueueLiteral(c, true, k, u) == Enqueue(c, true, k, u) <==> Unbroken(q) && !Complete(q)
  {
    hide Events, FirstMissing, NoGap;
    var q: Queue := (if k in c.snapshots then map[] else c.snapshots)[k := u];
    assert k in q;
    assert EnqueueLiteral(c, true, k, u).snapshots == q;
  }

  lemma {:induction false} NotBroken(q: Queue)
    requires Complete(q)
    ensures q != map[] && Unbroken(q) && |q| - 1 in q && q[|q| - 1].SnapshotEnd?
  {
  }

  lemma {:induction false} OneQueued(k: nat, u: MarketUpdate, from: nat)
    ensures var q: Queue := map[][k := u];
      && FirstMissing(q, from) == (if k == from then from + 1 else from)
      && (NoGap(q, from) <==> k <= from)
  {
    var q: Queue := map[][k := u];
    var to := FirstMissing(q, from);
    assert k in q && forall j :: j in q ==> j == k;
    assert k == from ==> to > from;
    assert to > from + 1 ==> from in q && from + 1 in q;
    assert k != from ==> from !in q;
  }

  lemma {:induction false} NothingQueued(from: nat)
    ensures FirstMissing(map[], from) == from && NoGap(map[], from)
  {
  }

  lemma {:induction false} NoEvents(q: Queue, from: nat)
    ensures Events(q, from, from) == []
  {
  }

  // ----- market_order_book.cpp lines 21 and 22: which updates refresh the best bid and offer

  predicate TouchesLiteral(xs: seq<Order<nat>>, price: nat) {
    xs != [] && price >= xs[0].price
  }

  /** The cache after an update whose side is refreshed when the literal guard says so. */
  function BboLiteral(b: Book<nat>, u: MarketUpdate): BBO
    requires ChangesOne(u)
  {
    var c := Apply(b, u);
    var touched := TouchesLiteral(b.On(u.side), u.price);
    BBO(if touched && u.side.Buy? then TopOf(c.bids) else TopOf(b.bids),
        if touched && u.side.Sell? then TopOf(c.asks) else TopOf(b.asks))
  }

  /** A first order on a side is missed, unless its top is what an empty side shows. */
  lemma {:induction false} FirstOrderIsMissed(b: Book<nat>, u: MarketUpdate)
    requires Fits(b, u) && ChangesOne(u) && b.On(u.side) == []
    ensures !TouchesLiteral(b.On(u.side), u.price)
    ensures u.Add? && TopOf(Apply(b, u).On(u.side)) == Top(u.price, u.qty % QTY_MODULUS)
  {
    var o := Listed(u.id, u.side, u.price, u.qty, u.priority);
    var none: seq<Order<nat>> := [];
    assert Apply(b, u).On(u.side) == [o];
    assert Leading([o], o.price) == [o] && SumQty([o]) == o.qty by {
      assert [o][1..] == none;
    }
  }

  /** So is a better ask. */
  lemma {:induction false} BetterAskIsMissed(b: Book<nat>, u: MarketUpdate)
    requires WellFormed(b) && Fits(b, u) && ChangesOne(u) && u.side.Sell? && b.asks != [] && u.price < b.asks[0].price
    ensures !TouchesLiteral(b.asks, u.price) && BboOf(Apply(b, u)).ask != BboOf(b).ask
  {
    if !u.Add? {
      NamedBehindBest(b, u);
    }
  }

  /** The price a Modify or Cancel names is never better than the best. */
  lemma {:induction false} NamedBehindBest(b: Book<nat>, u: MarketUpdate)
    requires WellFormed(b) && Fits(b, u) && (u.Modify? || u.Cancel?)
    ensures b.On(u.side) != [] && !Better(u.side, u.price, b.On(u.side)[0].price)
  {
    var xs := b.On(u.side);
    var x :| x in xs && x.id == u.id && x.price == u.price;
    PricesFall(u.side, xs);
  }

  /** The literal cache is exact after an update exactly when there was an order on its side,
      and, for asks, none that the update betters. A first order is right only by chance: when
      its price and quantity are those that stand for an empty side. */
  lemma {:induction false} LiteralCacheExactIff(b: Book<nat>, u: MarketUpdate)
    requires WellFormed(b) && Fits(b, u) && ChangesOne(u)
    ensures BboLiteral(b, u) == BboOf(Apply(b, u)) <==>
      if b.On(u.side) == [] then Top(u.price, u.qty % QTY_MODULUS) == NO_TOP
      else u.side.Sell? ==> b.asks[0].price <= u.price
  {
    hide WellFormed, TopOf, Apply, Fits;
    RefreshTouched(b, u);
    if b.On(u.side) == [] {
      FirstOrderIsMissed(b, u);
      EmptyTop(b.On(u.side));
    } else if u.side.Sell? && u.price < b.asks[0].price {
      BetterAskIsMissed(b, u);
    }
  }

  lemma {:induction false} EmptyTop(xs: seq<Order<nat>>)
    requires xs == []
    ensures TopOf(xs) == NO_TOP
  {
  }

  // ----- market_order_book.cpp lines 46 to 68: CLEAR does not walk the levels, keeps the
  // ----- price index and leaves the cached best bid and offer alone

  /** Lines 52 to 57, and 59 to 64 for the asks: `l` never moves on. `stopped` is the assert of
      the pool on a block that is not in use. */
  method FreeLevelsLiteral(pool: MemPool<Node<LevelData>>, head: int, ghost ring: seq<nat>) returns (stopped: bool)
    requires pool.Valid() && IsRing(pool.items, ring) && head == (if ring == [] then NULL else ring[0])
    requires forall l :: l in ring ==> l in pool.live
    modifies pool, pool.store
    ensures pool.Valid() && pool.items == old(pool.items)
    ensures stopped <==> 2 <= |ring|
    ensures !stopped ==> forall l :: l in pool.live <==> l in old(pool.live) && l !in ring
  {
    if head == NULL {
      return false;
    }
    Neighbours(pool.items, ring, 0);
    assert forall l :: l in ring <==> l == ring[0] || l in ring[1..];
    assert 2 <= |ring| ==> ring[1] in ring && ring[1] != ring[0];
    var l := pool.At(head).next;
    while l != head
      invariant pool.Valid() && pool.items == old(pool.items) && head in pool.live && 0 <= l < pool.store.Length
      invariant l == ring[if 2 <= |ring| then 1 else 0] && pool.live <= old(pool.live)
      invariant |ring| == 1 ==> pool.live == old(pool.live)
      decreases pool.live
    {
      if pool.store[l].isFree {
        return true;
      }
      pool.Deallocate(l);
    }
    pool.Deallocate(head);
    return false;
  }

  function ClearLiteral<K>(r: Rep<K>): Rep<K> {
    r.(liveLevels := {}, liveOrders := {}, bids := [], asks := [], queue := map[], index := map[],
      bidsHead := NULL, asksHead := NULL)
  }

  /** Where the program goes on, the book that is left is an intact representation exactly
      when there was nothing to clear: the price index keeps its pointers. */
  lemma {:induction false} ClearLeavesPointers<K(!new)>(r: Rep<K>)
    requires Inv(r)
    ensures Inv(ClearLiteral(r)) <==> r.liveLevels == {}
  {
    var s := ClearLiteral(r);
    if r.liveLevels == {} {
      forall j | 0 <= j < PRICE_LEVELS
        ensures s.priceIndex[j] == NULL
      {
        assert SlotOk(r, j);
      }
    } else {
      var l :| l in r.liveLevels;
      assert LevelNodeOk(r, l);
      var j := Slot(r.levels[l].data.price);
      assert s.priceIndex[j] == l != NULL && (Bounded(s) ==> !SlotOk(s, j));
    }
  }

  /** The cache, exact before and not refreshed, is exact after a CLEAR exactly when both tops
      were those of empty sides; for prices below the reserved one, when the book was empty. */
  lemma {:induction false} ClearLeavesCache(b: Book<nat>, t: nat)
    ensures BboOf(b) == BboOf(Apply(b, MarketUpdate.Clear(t))) <==> BboOf(b) == BBO(NO_TOP, NO_TOP)
    ensures (forall o :: InBook(b, o) ==> o.price < PRICE_INVALID) ==>
      (BboOf(b) == BboOf(Apply(b, MarketUpdate.Clear(t))) <==> b == Book([], []))
  {
    assert b.bids != [] ==> InBook(b, b.bids[0]);
    assert b.asks != [] ==> InBook(b, b.asks[0]);
  }

  // ----- fifo_sequencer.h lines 31 to 39: the number of pending requests is never reset

  /** Runs without the reset: a flush sorts what is pending and leaves it pending. */
  ghost predicate RunsLiteral(pending: seq<Pending>, es: seq<Sequencers.Event>)
    decreases es
  {
    es == [] ||
    match es[0]
    case Accepted(p) => |pending| < MAX_PENDING_REQUESTS && RunsLiteral(pending + [p], es[1..])
    case Flushed(batch) => Sorts(pending, batch) && RunsLiteral(batch, es[1..])
  }

  /** At no point of such a run has a request been published more often than accepted; all
      that was accepted is still pending. */
  ghost predicate NeverTwice(pending: seq<Pending>, out: seq<Pending>, es: seq<Sequencers.Event>)
    decreases es
  {
    && multiset(out) <= multiset(pending)
    && (es == [] ||
        match es[0]
        case Accepted(p) => NeverTwice(pending + [p], out, es[1..])
        case Flushed(batch) => NeverTwice(batch, out + batch, es[1..]))
  }

  ghost predicate NoFlush(es: seq<Sequencers.Event>) {
    forall i :: 0 <= i < |es| ==> es[i].Accepted?
  }

  /** No flush comes after a flush that had something pending. */
  ghost predicate LastFlush(es: seq<Sequencers.Event>, something: bool)
    decreases es
  {
    es == [] ||
    match es[0]
    case Accepted(_) => LastFlush(es[1..], true)
    case Flushed(_) => if something then NoFlush(es[1..]) else LastFlush(es[1..], false)
  }

  lemma {:induction false} Publishes(out: seq<Pending>, pending: seq<Pending>, batch: seq<Pending>)
    requires Sorts(pending, batch)
    ensures |batch| == |pending|
    ensures multiset(out + batch) <= multiset(batch) <==> out == []
  {
    assert |multiset(batch)| == |batch| && |multiset(pending)| == |pending|;
    if multiset(out + batch) <= multiset(batch) {
      assert |multiset(batch) - multiset(out + batch)| == |batch| - |out + batch|;
    }
    assert out == [] ==> out + batch == batch;
  }

  /** Once something has been published, any flush publishes it again. */
  lemma {:induction false} NoMoreFlushes(pending: seq<Pending>, out: seq<Pending>, es: seq<Sequencers.Event>)
    requires RunsLiteral(pending, es) && out != [] && multiset(out) <= multiset(pending)
    ensures NeverTwice(pending, out, es) <==> NoFlush(es)
    decreases es
  {
    if es != [] {
      assert NoFlush(es) <==> es[0].Accepted? && NoFlush(es[1..]);
      match es[0] {
        case Accepted(p) => NoMoreFlushes(pending + [p], out, es[1..]);
        case Flushed(batch) => Publishes(out, pending, batch);
      }
    }
  }

  lemma {:induction false} PublishedAgainFrom(pending: seq<Pending>, es: seq<Sequencers.Event>)
    requires RunsLiteral(pending, es)
    ensures NeverTwice(pending, [], es) <==> LastFlush(es, pending != [])
    decreases es
  {
    if es != [] {
      match es[0] {
        case Accepted(p) => PublishedAgainFrom(pending + [p], es[1..]);
        case Flushed(batch) =>
          Publishes([], pending, batch);
          assert [] + batch == batch;
          if pending == [] {
            PublishedAgainFrom(batch, es[1..]);
          } else {
            NoMoreFlushes(batch, batch, es[1..]);
          }
      }
    }
  }

  /** Without the reset, a run publishes each accepted request at most once exactly when no
      flush comes after a flush that had something pending. */
  lemma {:induction false} PublishedAgain(es: seq<Sequencers.Event>)
    requires RunsLiteral([], es)
    ensures NeverTwice([], [], es) <==> LastFlush(es, false)
  {
    PublishedAgainFrom([], es);
  }

  // ----- queued snapshot messages from two snapshots: the stamps are not compared

  /** One order, then less of it. */
  const TWO_UPDATES: seq<MarketUpdate> := [MarketUpdate.Add(0, 1, Buy, 10, 5, 1), Modify(0, 1, Buy, 10, 3, 1)]

  /** The start and the body of the first snapshot, the end of the second. */
  const MIXED: Queue := map[
    0 := SnapshotStart(1), 1 := MarketUpdate.Clear(0), 2 := MarketUpdate.Add(0, 1, Buy, 10, 5, 1), 3 := SnapshotEnd(2)]

  /** The messages of MIXED as they arrive on the snapshot channel. */
  const MIXED_MESSAGES: seq<(nat, MarketUpdate)> := [(0, MIXED[0]), (1, MIXED[1]), (2, MIXED[2]), (3, MIXED[3])]

  lemma {:induction false} MixedEvents()
    ensures Complete(MIXED) && |MIXED| == 4
    ensures Events(MIXED, 0, 4) == [MarketUpdate.Clear(0), MarketUpdate.Add(0, 1, Buy, 10, 5, 1)]
  {
  }

  lemma {:induction false} AppliedTwice()
    ensures var e, x := EmptyMarket(1), Listed(1, Buy, 10, 5, 1);
      && ApplyIn(e, TWO_UPDATES[0]) == [Book([x], [])]
      && ApplyIn([Book([x], [])], TWO_UPDATES[1]) == [Book([x.(qty := 3)], [])]
  {
    var x, none: Book<nat> := Listed(1, Buy, 10, 5, 1), Book([], []);
    assert Place([], x) == [x] && Apply(none, TWO_UPDATES[0]) == Book([x], []);
    assert SetQty([x], 1, 3) == [x.(qty := 3)];
    assert SetQty(none.asks, 1, 3) == [];
    assert Apply(Book([x], []), TWO_UPDATES[1]) == Book([x.(qty := 3)], []);
  }

  /** What the two updates make, step by step. */
  lemma {:induction false} TwoUpdatesApplied()
    ensures var e, x := EmptyMarket(1), Listed(1, Buy, 10, 5, 1);
      && Replay(e, TWO_UPDATES[..1]) == [Book([x], [])]
      && Replay(e, TWO_UPDATES) == [Book([x.(qty := 3)], [])]
  {
    var e, x := EmptyMarket(1), Listed(1, Buy, 10, 5, 1);
    assert TWO_UPDATES[1..] == [TWO_UPDATES[1]] && TWO_UPDATES[..1] == [TWO_UPDATES[0]];
    AppliedTwice();
    ReplayOne([Book([x], [])], TWO_UPDATES[1]);
    ReplayOne(e, TWO_UPDATES[0]);
  }

  lemma {:induction false} TwoUpdatesFit(ids: nat)
    requires 2 <= ids
    ensures History(1, ids, TWO_UPDATES)
  {
  }

  function TableAt(qty: nat): Table {
    map[1 := MarketUpdate.Add(0, 1, Buy, 10, qty, 1)]
  }

  lemma {:induction false} TablesOfTwo()
    ensures After(EmptyTables(1), TWO_UPDATES[..1]) == [TableAt(5)]
      && After(EmptyTables(1), TWO_UPDATES[..2]) == [TableAt(3)]
  {
    var e := EmptyTables(1);
    assert TWO_UPDATES[..1] == [TWO_UPDATES[0]] && TWO_UPDATES[..2] == TWO_UPDATES
      && TWO_UPDATES[1..] == [TWO_UPDATES[1]];
    assert [TWO_UPDATES[0]][1..] == [] && [TWO_UPDATES[1]][1..] == [];
    assert Note(map[], TWO_UPDATES[0]) == TableAt(5) && Note(TableAt(5), TWO_UPDATES[1]) == TableAt(3);
    assert NoteIn(e, TWO_UPDATES[0]) == [TableAt(5)] && NoteIn([TableAt(5)], TWO_UPDATES[1]) == [TableAt(3)];
  }

  lemma {:induction false} BodyOfOne(qty: nat)
    ensures Body([TableAt(qty)], 2) == [MarketUpdate.Clear(0), MarketUpdate.Add(0, 1, Buy, 10, qty, 1)]
  {
  }

  /** Both parts really are messages of snapshots of the same history. */
  lemma {:induction false} MixedIsDeliverable()
    ensures History(1, 2, TWO_UPDATES)
    ensures forall k :: k in MIXED ==> FromSnapshot(SnapshotAt(1, 2, TWO_UPDATES, if k < 3 then 1 else 2), k, MIXED[k])
  {
    TwoUpdatesFit(2);
    TablesOfTwo();
    BodyOfOne(5);
    BodyOfOne(3);
    forall k | k in MIXED
      ensures FromSnapshot(SnapshotAt(1, 2, TWO_UPDATES, if k < 3 then 1 else 2), k, MIXED[k])
    {
      assert k == 0 || k == 1 || k == 2 || k == 3;
    }
  }

  /** The consumer once `n` of the messages are queued; incremental 1 was lost. */
  function Holding(n: nat): Recovery.Consumer {
    Recovery.Consumer(1, true, map k | k in MIXED && k < n :: MIXED[k], map[2 := TWO_UPDATES[1]], [])
  }

  /** A queue that has not seen its SNAPSHOT_END waits. */
  lemma {:induction false} StillWaiting(n: nat)
    requires n < 3
    ensures Receive(Holding(n), true, n, MIXED[n]) == Holding(n + 1)
  {
    hide Events, FirstMissing, NoGap;
    var q, r := Holding(n).snapshots, Holding(n + 1).snapshots;
    assert n !in q && q[n := MIXED[n]] == r;
    HoldingCount(n + 1);
    assert r[|r| - 1] == MIXED[n] && !MIXED[n].SnapshotEnd?;
    assert Unbroken(r) && !Complete(r);
  }

  lemma {:induction false} HoldingCount(n: nat)
    requires n <= 4
    ensures |Holding(n).snapshots| == n && forall k :: k in Holding(n).snapshots <==> 0 <= k < n
  {
    var keys := Holding(n).snapshots.Keys;
    assert n == 0 ==> keys == {};
    assert n == 1 ==> keys == {0};
    assert n == 2 ==> keys == {0, 1};
    assert n == 3 ==> keys == {0, 1, 2};
    assert n == 4 ==> keys == {0, 1, 2, 3};
  }

  /** The last message ends recovery, with the stamp of the other snapshot. */
  lemma {:induction false} MixedCompletes()
    ensures var c := Receive(Holding(3), true, 3, MIXED[3]);
      !c.inRecovery && c.nextExp == 3 && c.out == [MarketUpdate.Clear(0), MarketUpdate.Add(0, 1, Buy, 10, 5, 1)]
  {
    MixedEvents();
    assert 3 !in Holding(3).snapshots && Holding(3).snapshots[3 := MIXED[3]] == MIXED;
    OneQueued(2, TWO_UPDATES[1], 3);
    NoEvents(map[2 := TWO_UPDATES[1]], 3);
  }

  /** A run from a fresh consumer: incremental 1 is lost, incremental 2 arrives, then the head
      of one snapshot and the end of another. Every test passes, and the subscriber is left
      out of recovery with books that are not the exchange's. */
  lemma {:induction false} MixedSnapshots()
    ensures var c := ReceiveAll(Receive(FRESH, false, 2, TWO_UPDATES[1]), true, MIXED_MESSAGES);
      !c.inRecovery && c.nextExp == 3
        && Replay(EmptyMarket(1), c.out) != Replay(EmptyMarket(1), TWO_UPDATES[..c.nextExp - 1])
  {
    hide Enqueue, Apply;
    StartsHolding();
    StillWaiting(0);
    StillWaiting(1);
    StillWaiting(2);
    MixedCompletes();
    ReceivesFour(Holding(0), MIXED_MESSAGES);
    TwoUpdatesApplied();
    assert [MarketUpdate.Clear(0), TWO_UPDATES[0]] == [MarketUpdate.Clear(0)] + [TWO_UPDATES[0]];
    assert TWO_UPDATES[..2] == TWO_UPDATES && TWO_UPDATES[..1] == [TWO_UPDATES[0]];
    ReplaySplits(EmptyMarket(1), [MarketUpdate.Clear(0)], [TWO_UPDATES[0]]);
    ClearOfNothing();
  }

  lemma {:induction false} StartsHolding()
    ensures Receive(FRESH, false, 2, TWO_UPDATES[1]) == Holding(0)
  {
    assert Holding(0).snapshots == map[];
  }

  lemma {:induction false} ReceivesFour(c: Recovery.Consumer, msgs: seq<(nat, MarketUpdate)>)
    requires |msgs| == 4
    ensures ReceiveAll(c, true, msgs) == Receive(Receive(Receive(Receive(c, true, msgs[0].0, msgs[0].1),
      true, msgs[1].0, msgs[1].1), true, msgs[2].0, msgs[2].1), true, msgs[3].0, msgs[3].1)
  {
    hide Receive;
    var c1 := Receive(c, true, msgs[0].0, msgs[0].1);
    var c2 := Receive(c1, true, msgs[1].0, msgs[1].1);
    var c3 := Receive(c2, true, msgs[2].0, msgs[2].1);
    assert msgs[1..][1..] == msgs[2..] && msgs[2..][1..] == msgs[3..] && msgs[3..][1..] == [];
    assert ReceiveAll(c3, true, msgs[3..]) == Receive(c3, true, msgs[3].0, msgs[3].1);
    assert ReceiveAll(c2, true, msgs[2..]) == ReceiveAll(c3, true, msgs[3..]);
    assert ReceiveAll(c1, true, msgs[1..]) == ReceiveAll(c2, true, msgs[2..]);
  }

  lemma {:induction false} ClearOfNothing()
    ensures Replay(EmptyMarket(1), [MarketUpdate.Clear(0)]) == EmptyMarket(1)
  {
  }
}
