/** Replaying what the exchange publishes rebuilds the exchange's books. */
module Replication {
  import opened Types
  import opened Orders
  import opened Levels
  import opened Messages
  import opened Matching
  import opened Runs
  import opened MarketData

  /** The part of an order the market is told. */
  function Public(o: Order<Owner>): Order<nat> {
    Listed(o.id, o.side, o.price, o.qty, o.priority)
  }

  function PublicSide(xs: seq<Order<Owner>>): (ys: seq<Order<nat>>) {
    seq(|xs|, i requires 0 <= i < |xs| => Public(xs[i]))
  }

  function PublicBook(b: Book<Owner>): Book<nat> {
    Book(PublicSide(b.bids), PublicSide(b.asks))
  }

  lemma {:induction false} PublicSplits(xs: seq<Order<Owner>>, ys: seq<Order<Owner>>)
    ensures PublicSide(xs + ys) == PublicSide(xs) + PublicSide(ys)
    ensures xs != [] ==> PublicSide(xs)[1..] == PublicSide(xs[1..])
  {
  }

  lemma {:induction false} PublicPlace(xs: seq<Order<Owner>>, o: Order<Owner>)
    ensures PublicSide(Place(xs, o)) == Place(PublicSide(xs), Public(o))
  {
    if xs != [] && !Better(o.side, o.price, xs[0].price) {
      PublicPlace(xs[1..], o);
      PublicSplits([xs[0]], Place(xs[1..], o));
      PublicSplits(xs, []);
    } else {
      PublicSplits([o], xs);
    }
  }

  lemma {:induction false} PublicRemove(xs: seq<Order<Owner>>, id: nat)
    ensures PublicSide(Remove(xs, id)) == Remove(PublicSide(xs), id)
  {
    PublicSplits(xs, []);
    if xs != [] && xs[0].id != id {
      PublicRemove(xs[1..], id);
      PublicSplits([xs[0]], Remove(xs[1..], id));
    }
  }

  lemma {:induction false} PublicLastPriority(xs: seq<Order<Owner>>, o: Order<Owner>)
    requires Sorted(o.side, xs) && o.priority == LastPriority(xs, o.price) + 1
    ensures forall x :: x in PublicSide(xs) && x.price == o.price ==> x.priority < o.priority
  {
    LastPriorityIsLast(o.side, xs, o.price);
    forall x | x in PublicSide(xs) && x.price == o.price
      ensures x.priority < o.priority
    {
      var i :| 0 <= i < |xs| && PublicSide(xs)[i] == x;
      assert xs[i] in xs;
    }
  }

  /** Other orders do not have the id of the best one. */
  lemma {:induction false} BestIdUnique(b: Book<Owner>, side: Side)
    requires WellFormed(b) && b.On(side) != []
    ensures forall x :: x in b.On(side)[1..] || x in b.On(Opposite(side)) ==> x.id != b.On(side)[0].id
  {
  }

  lemma {:induction false} PublicKeeps(xs: seq<Order<Owner>>, id: nat, qty: nat)
    requires forall x :: x in xs ==> x.id != id
    ensures Remove(PublicSide(xs), id) == PublicSide(xs) == SetQty(PublicSide(xs), id, qty)
  {
    forall y | y in PublicSide(xs)
      ensures y.id != id
    {
      var i :| 0 <= i < |xs| && PublicSide(xs)[i] == y;
      assert xs[i] in xs;
    }
    NothingToRemove(PublicSide(xs), id, qty);
  }

  /** The best order leaves: nothing else of the public book carries its id. */
  lemma {:induction false} DropFirstIsPublic(b: Book<Owner>, side: Side)
    requires WellFormed(b) && b.On(side) != []
    ensures var x := b.On(side)[0]; var c := PublicBook(b);
      Book(Remove(c.bids, x.id), Remove(c.asks, x.id)) == PublicBook(b.With(side, b.On(side)[1..]))
  {
    BestIdUnique(b, side);
    hide WellFormed;
    var xs := b.On(side);
    PublicKeeps(b.On(Opposite(side)), xs[0].id, 0);
    PublicSplits(xs, []);
  }

  lemma {:induction false} ReduceFirstIsPublic(b: Book<Owner>, side: Side, qty: nat)
    requires WellFormed(b) && b.On(side) != []
    ensures var x := b.On(side)[0]; var c := PublicBook(b);
      Book(SetQty(c.bids, x.id, qty), SetQty(c.asks, x.id, qty))
        == PublicBook(b.With(side, [x.(qty := qty)] + b.On(side)[1..]))
  {
    BestIdUnique(b, side);
    hide WellFormed;
    var xs := b.On(side);
    PublicKeeps(b.On(Opposite(side)), xs[0].id, qty);
    PublicSplits(xs, []);
    PublicSplits([xs[0].(qty := qty)], xs[1..]);
  }

  /** The update that follows a trade tells exactly what the trade did to the best order. */
  lemma {:induction false} HitIsPublic(a: Aggressor, b: Book<Owner>, fill: nat)
    requires WellFormed(b) && b.On(Opposite(a.side)) != [] && fill <= b.On(Opposite(a.side))[0].qty
    ensures var side := Opposite(a.side); var u := FillUpdates(a, b.On(side)[0], fill)[1];
      Fits(PublicBook(b), u) && Apply(PublicBook(b), u) == PublicBook(AfterHit(b, side, fill))
  {
    var side := Opposite(a.side);
    var xs := b.On(side);
    assert Live(side, xs[0]);
    assert PublicSide(xs)[0] in PublicBook(b).On(side);
    hide WellFormed, PublicSide;
    if fill == xs[0].qty {
      DropFirstIsPublic(b, side);
    } else {
      ReduceFirstIsPublic(b, side, xs[0].qty - fill);
    }
  }

  lemma {:induction false} HitReplays(m: Market, a: Aggressor, b: Book<Owner>, fill: nat)
    requires a.ticker < |m| && m[a.ticker] == PublicBook(b)
    requires WellFormed(b) && b.On(Opposite(a.side)) != [] && fill <= b.On(Opposite(a.side))[0].qty
    ensures var us := FillUpdates(a, b.On(Opposite(a.side))[0], fill);
      AllFit(m, us) && Replay(m, us) == m[a.ticker := PublicBook(AfterHit(b, Opposite(a.side), fill))]
  {
    hide WellFormed, AfterHit, PublicBook, AllFit, Replay;
    HitIsPublic(a, b, fill);
    var us := FillUpdates(a, b.On(Opposite(a.side))[0], fill);
    assert us == [us[0]] + [us[1]] && m[a.ticker := m[a.ticker]] == m;
    OneReplays(m, a.ticker, us[0]);
    OneReplays(m, a.ticker, us[1]);
    AllFitSplits(m, [us[0]], [us[1]]);
    ReplaySplits(m, [us[0]], [us[1]]);
  }

  lemma {:induction false} MatchReplays(m: Market, a: Aggressor, b: Book<Owner>, leaves: nat)
    requires a.ticker < |m| && m[a.ticker] == PublicBook(b) && WellFormed(b)
    ensures var r := Match(a, b.On(Opposite(a.side)), leaves);
      AllFit(m, r.updates) && Replay(m, r.updates) == m[a.ticker := PublicBook(b.With(Opposite(a.side), r.rest))]
    decreases |b.On(Opposite(a.side))|
  {
    var side := Opposite(a.side);
    var xs := b.On(side);
    if leaves == 0 || xs == [] || !Crosses(a.side, a.price, xs[0].price) {
      assert b.With(side, xs) == b;
    } else {
      var fill := Min(leaves, xs[0].qty);
      var us, c := FillUpdates(a, xs[0], fill), AfterHit(b, side, fill);
      HitReplays(m, a, b, fill);
      if fill == xs[0].qty {
        HitKeeps(b, side, fill);
        var n, t := m[a.ticker := PublicBook(c)], Match(a, xs[1..], leaves - fill);
        MatchReplays(n, a, c, leaves - fill);
        AllFitSplits(m, us, t.updates);
        ReplaySplits(m, us, t.updates);
      }
    }
  }

  lemma {:induction false} OneReplays(m: Market, t: nat, u: MarketUpdate)
    requires t < |m| && ForTicker(u, t) && Fits(m[t], u)
    ensures AllFit(m, [u]) && Replay(m, [u]) == m[t := Apply(m[t], u)]
  {
  }

  lemma {:induction false} RestFitsPublic(b: Book<Owner>, o: Order<Owner>)
    requires WellFormed(b) && MayPlace(b, o) && o.priority == LastPriority(b.On(o.side), o.price) + 1
    ensures MayPlace(PublicBook(b), Public(o))
  {
    PublicLastPriority(b.On(o.side), o);
    hide WellFormed, LastPriority, Before, Sorted;
    forall x | InBook(PublicBook(b), x)
      ensures x.id < o.id && x.key != o.id
    {
      PublicComesFrom(b, x);
    }
  }

  lemma {:induction false} RestIsPublic(t: nat, b: Book<Owner>, o: Order<Owner>)
    requires WellFormed(b) && MayPlace(b, o) && o.priority == LastPriority(b.On(o.side), o.price) + 1
    ensures var u := Add(t, o.id, o.side, o.price, o.qty, o.priority);
      Fits(PublicBook(b), u) && Apply(PublicBook(b), u) == PublicBook(b.With(o.side, Place(b.On(o.side), o)))
  {
    hide WellFormed, MayPlace, LastPriority, Place;
    RestFitsPublic(b, o);
    PublicPlace(b.On(o.side), o);
  }

  lemma {:induction false} PublicComesFrom(b: Book<Owner>, x: Order<nat>)
    requires InBook(PublicBook(b), x)
    ensures exists o :: InBook(b, o) && x == Public(o)
  {
  }

  lemma {:induction false} AddReplays(m: Market, t: nat, s: State, owner: Owner, side: Side, price: nat, qty: nat)
    requires t < |m| && m[t] == PublicBook(s.book) && StateOk(s) && FreshKey(s.book, owner)
    ensures var step := AddStep(s, t, owner, side, price, qty);
      AllFit(m, step.updates) && Replay(m, step.updates) == m[t := PublicBook(step.state.book)]
  {
    hide StateOk, FreshKey, WellFormed, MayPlace, Match, Fits, Apply, PublicBook, AllFit, Replay, LastPriority, Place;
    var a := Aggressor(t, owner, s.nextId, side, price);
    var r := Match(a, s.book.On(Opposite(side)), qty);
    var c := s.book.With(Opposite(side), r.rest);
    RestFits(s, a, qty);
    StateBook(s);
    MatchReplays(m, a, s.book, qty);
    if r.leaves > 0 {
      var o := Order(owner, s.nextId, side, price, r.leaves, LastPriority(c.On(side), price) + 1);
      var u := Add(t, o.id, o.side, o.price, o.qty, o.priority);
      RestIsPublic(t, c, o);
      OneReplays(m[t := PublicBook(c)], t, u);
      AllFitSplits(m, r.updates, [u]);
      ReplaySplits(m, r.updates, [u]);
    }
  }

  lemma {:induction false} StateBook(s: State)
    requires StateOk(s)
    ensures WellFormed(s.book)
  {
  }

  lemma {:induction false} CancelIsPublic(t: nat, b: Book<Owner>, o: Order<Owner>)
    requires WellFormed(b) && o in b.On(o.side)
    ensures var u := Cancel(t, o.id, o.side, o.price, 0, o.priority);
      Fits(PublicBook(b), u) && Apply(PublicBook(b), u) == PublicBook(b.With(o.side, Remove(b.On(o.side), o.id)))
  {
    var xs, ys := b.On(o.side), b.On(Opposite(o.side));
    OnlyThere(b, o);
    PublicKeeps(ys, o.id, 0);
    PublicRemove(xs, o.id);
    var i :| 0 <= i < |xs| && xs[i] == o;
    assert PublicSide(xs)[i] in PublicBook(b).On(o.side);
  }

  lemma {:induction false} CancelReplays(m: Market, t: nat, s: State, owner: Owner)
    requires t < |m| && m[t] == PublicBook(s.book) && StateOk(s)
    ensures var step := CancelStep(s, t, owner);
      AllFit(m, step.updates) && Replay(m, step.updates) == m[t := PublicBook(step.state.book)]
  {
    FoundOwner(s.book, owner);
    var f := FindOwner(s.book, owner);
    if f.None? {
      assert m[t := m[t]] == m;
    } else {
      var o := f.value;
      CancelIsPublic(t, s.book, o);
      OneReplays(m, t, Cancel(t, o.id, o.side, o.price, 0, o.priority));
    }
  }

  lemma {:induction false} OnlyThere(b: Book<Owner>, o: Order<Owner>)
    requires WellFormed(b) && o in b.On(o.side)
    ensures forall y :: y in b.On(Opposite(o.side)) ==> y.id != o.id
  {
  }

  // ----- runs over all tickers

  datatype TickerRequest = TickerRequest(ticker: nat, request: Request)

  /** One book a ticker, and everything published so far. */
  datatype Exchange = Exchange(books: seq<State>, updates: seq<MarketUpdate>)

  function Serve(x: Exchange, r: TickerRequest): Exchange
    requires r.ticker < |x.books|
  {
    var step := Handle(r.ticker, x.books[r.ticker], r.request);
    Exchange(x.books[r.ticker := step.state], x.updates + step.updates)
  }

  ghost predicate MayServe(x: Exchange, r: TickerRequest) {
    r.ticker < |x.books| && Legal(x.books[r.ticker], r.request)
  }

  /** Exchange states reachable from empty books by legal requests. */
  ghost predicate Serves(x: Exchange, rs: seq<TickerRequest>, y: Exchange)
    decreases rs
  {
    if rs == [] then x == y else MayServe(x, rs[0]) && Serves(Serve(x, rs[0]), rs[1..], y)
  }

  function Opening(n: nat): Exchange {
    Exchange(seq(n, _ => EMPTY_STATE), [])
  }

  function PublicMarket(books: seq<State>): Market {
    seq(|books|, t requires 0 <= t < |books| => PublicBook(books[t].book))
  }

  /** A subscriber who has every update has every book. */
  ghost predicate Replicated(x: Exchange) {
    && (forall t :: 0 <= t < |x.books| ==> StateOk(x.books[t]))
    && NoClear(x.updates)
    && AllFit(EmptyMarket(|x.books|), x.updates)
    && Replay(EmptyMarket(|x.books|), x.updates) == PublicMarket(x.books)
  }

  lemma {:induction false} MatchSendsNoClear(a: Aggressor, xs: seq<Order<Owner>>, leaves: nat)
    ensures NoClear(Match(a, xs, leaves).updates)
  {
    if leaves != 0 && xs != [] && Crosses(a.side, a.price, xs[0].price) && xs[0].qty <= leaves {
      MatchSendsNoClear(a, xs[1..], leaves - xs[0].qty);
    }
  }

  lemma {:induction false} HandleReplays(m: Market, t: nat, s: State, r: Request)
    requires t < |m| && m[t] == PublicBook(s.book) && StateOk(s) && Legal(s, r)
    ensures StateOk(Handle(t, s, r).state) && NoClear(Handle(t, s, r).updates)
    ensures AllFit(m, Handle(t, s, r).updates)
    ensures Replay(m, Handle(t, s, r).updates) == m[t := PublicBook(Handle(t, s, r).state.book)]
  {
    HandleKeeps(t, s, r);
    match r {
      case NewOrder(owner, side, price, qty) =>
        AddReplays(m, t, s, owner, side, price, qty);
        MatchSendsNoClear(Aggressor(t, owner, s.nextId, side, price), s.book.On(Opposite(side)), qty);
      case CancelOrder(owner) => CancelReplays(m, t, s, owner);
    }
  }

  lemma {:induction false} ServeReplicates(x: Exchange, r: TickerRequest)
    requires Replicated(x) && MayServe(x, r)
    ensures Replicated(Serve(x, r))
  {
    hide StateOk, AllFit, Replay, Handle, PublicBook, Legal;
    var t, s, e, m := r.ticker, x.books[r.ticker], EmptyMarket(|x.books|), PublicMarket(x.books);
    HandleReplays(m, t, s, r.request);
    var step := Handle(t, s, r.request);
    AllFitSplits(e, x.updates, step.updates);
    ReplaySplits(e, x.updates, step.updates);
    assert PublicMarket(Serve(x, r).books) == m[t := PublicBook(step.state.book)];
  }

  lemma {:induction false} ServiceReplicates(x: Exchange, rs: seq<TickerRequest>, y: Exchange)
    requires Replicated(x) && Serves(x, rs, y)
    ensures Replicated(y)
    decreases rs
  {
    if rs != [] {
      ServeReplicates(x, rs[0]);
      ServiceReplicates(Serve(x, rs[0]), rs[1..], y);
    }
  }

  /** For every run: what a subscriber rebuilds from the updates is the exchange's books. */
  lemma {:induction false} RunReplicates(n: nat, rs: seq<TickerRequest>, y: Exchange)
    requires Serves(Opening(n), rs, y)
    ensures Replicated(y)
  {
    NothingToReplicate(n);
    ServiceReplicates(Opening(n), rs, y);
  }

  lemma {:induction false} NothingToReplicate(n: nat)
    ensures Replicated(Opening(n))
  {
    assert PublicBook(EMPTY_STATE.book) == Book([], []);
    assert PublicMarket(Opening(n).books) == EmptyMarket(n);
  }

  // ----- equal sides have equal levels

  function PublicLevel(l: Level<Owner>): Level<nat> {
    Level(l.price, PublicSide(l.orders))
  }

  function PublicLevels(ls: seq<Level<Owner>>): (ms: seq<Level<nat>>) {
    seq(|ls|, i requires 0 <= i < |ls| => PublicLevel(ls[i]))
  }

  lemma {:induction false} FlattenPublic(ls: seq<Level<Owner>>)
    ensures Flatten(PublicLevels(ls)) == PublicSide(Flatten(ls))
  {
    if ls != [] {
      FlattenPublic(ls[1..]);
      PublicSplits(ls[0].orders, Flatten(ls[1..]));
      assert PublicLevels(ls)[1..] == PublicLevels(ls[1..]);
    }
  }

  /** When a side replicates, the subscriber has the same levels in the same order, and in
      each level the same orders, quantities, priorities and queue positions. */
  lemma {:induction false} SameLevels(side: Side, a: seq<Level<Owner>>, b: seq<Level<nat>>)
    requires LevelsOk(side, a) && LevelsOk(side, b) && Flatten(b) == PublicSide(Flatten(a))
    ensures b == PublicLevels(a)
  {
    var c := PublicLevels(a);
    forall i | 0 <= i < |c|
      ensures LevelOk(side, c[i])
    {
      assert LevelOk(side, a[i]);
      forall o | o in c[i].orders
        ensures o.side == side && o.price == c[i].price
      {
        var j :| 0 <= j < |c[i].orders| && c[i].orders[j] == o;
        assert a[i].orders[j] in a[i].orders;
      }
    }
    FlattenPublic(a);
    FlattenInjective(side, c, b);
  }
}
