/** Whole runs of one order book. */
module Runs {
  import opened Types
  import opened Orders
  import opened Matching

  datatype Request =
    | NewOrder(owner: Owner, side: Side, price: nat, qty: nat)
    | CancelOrder(owner: Owner)

  const EMPTY_STATE := State(Book([], []), 1)

  function Handle(ticker: nat, s: State, r: Request): Step {
    match r
    case NewOrder(owner, side, price, qty) => AddStep(s, ticker, owner, side, price, qty)
    case CancelOrder(owner) => CancelStep(s, ticker, owner)
  }

  /** A client does not reuse the id of a live order. */
  ghost predicate Legal(s: State, r: Request) {
    r.NewOrder? ==> FreshKey(s.book, r.owner)
  }

  function Run(ticker: nat, rs: seq<Request>): Step {
    if rs == [] then Step(EMPTY_STATE, [], [])
    else
      var before := Run(ticker, rs[..|rs| - 1]);
      var last := Handle(ticker, before.state, rs[|rs| - 1]);
      Step(last.state, before.responses + last.responses, before.updates + last.updates)
  }

  ghost predicate LegalRun(ticker: nat, rs: seq<Request>) {
    forall i :: 0 <= i < |rs| ==> Legal(Run(ticker, rs[..i]).state, rs[i])
  }

  lemma {:induction false} LegalPrefix(ticker: nat, rs: seq<Request>, n: nat)
    requires LegalRun(ticker, rs) && n <= |rs|
    ensures LegalRun(ticker, rs[..n])
  {
    assert forall i :: 0 <= i < n ==> rs[..n][..i] == rs[..i] && rs[..n][i] == rs[i];
  }

  lemma {:induction false} HandleKeeps(ticker: nat, s: State, r: Request)
    requires StateOk(s) && Legal(s, r)
    ensures StateOk(Handle(ticker, s, r).state)
  {
    match r
    case NewOrder(owner, side, price, qty) => AddKeeps(s, ticker, owner, side, price, qty);
    case CancelOrder(owner) => CancelKeeps(s, ticker, owner);
  }

  /** After every run the book is sorted, uncrossed, and keyed without collision. */
  lemma {:induction false} RunOk(ticker: nat, rs: seq<Request>)
    requires LegalRun(ticker, rs)
    ensures StateOk(Run(ticker, rs).state)
  {
    if rs != [] {
      var n := |rs| - 1;
      LegalPrefix(ticker, rs, n);
      RunOk(ticker, rs[..n]);
      HandleKeeps(ticker, Run(ticker, rs[..n]).state, rs[n]);
    }
  }
}

/** Quantity is conserved, order by order. */
module Conservation {
  import opened Types
  import opened Orders
  import opened Messages
  import opened Matching
  import opened Runs
  import opened PriceTime

  datatype Account = Taken | Executed | Returned

  /** What one response says about order `id`. */
  function Amount(what: Account, r: ClientResponse, id: nat): nat {
    match r
    case Accepted(_, _, _, i, _, _, _, leaves) => if what.Taken? && i == id then leaves else 0
    case Filled(_, _, _, i, _, _, exec, _) => if what.Executed? && i == id then exec else 0
    case Canceled(_, _, _, i, _, _, leaves) => if what.Returned? && i == id then leaves else 0
    case CancelRejected(_, _, _) => 0
  }

  function Total(what: Account, rs: seq<ClientResponse>, id: nat): nat {
    if rs == [] then 0 else Amount(what, rs[0], id) + Total(what, rs[1..], id)
  }

  function QtyOf(xs: seq<Order<Owner>>, id: nat): nat {
    if xs == [] then 0 else (if xs[0].id == id then xs[0].qty else 0) + QtyOf(xs[1..], id)
  }

  function Resting(b: Book<Owner>, id: nat): nat {
    QtyOf(b.bids, id) + QtyOf(b.asks, id)
  }

  lemma {:induction false} TotalSplits(what: Account, rs: seq<ClientResponse>, ts: seq<ClientResponse>, id: nat)
    ensures Total(what, rs + ts, id) == Total(what, rs, id) + Total(what, ts, id)
  {
    if rs == [] {
      assert rs + ts == ts;
    } else {
      TotalSplits(what, rs[1..], ts, id);
      assert (rs + ts)[1..] == rs[1..] + ts;
    }
  }

  lemma {:induction false} TotalOfFill(what: Account, a: Aggressor, o: Order<Owner>, fill: nat, leaves: nat, id: nat)
    requires fill <= o.qty
    ensures Total(what, FillResponses(a, o, fill, leaves), id)
      == if what.Executed? then (if id == a.id then fill else 0) + (if id == o.id then fill else 0) else 0
  {
    var rs := FillResponses(a, o, fill, leaves);
    assert rs[1..][1..] == [];
    assert Total(what, rs[1..], id) == Amount(what, rs[1], id);
  }

  lemma {:induction false} NothingTotalled(what: Account, id: nat)
    ensures Total(what, [], id) == 0
  {
  }

  lemma {:induction false} QtyOfFirst(o: Order<Owner>, xs: seq<Order<Owner>>, id: nat)
    ensures QtyOf([o] + xs, id) == (if o.id == id then o.qty else 0) + QtyOf(xs, id)
  {
  }

  /** Matching executes on the incoming order exactly what it takes from the side. */
  lemma {:induction false} MatchConserves(what: Account, a: Aggressor, xs: seq<Order<Owner>>, leaves: nat, id: nat)
    ensures var m := Match(a, xs, leaves);
      && m.leaves <= leaves
      && Total(what, m.responses, id) + (if what.Executed? then QtyOf(m.rest, id) else 0)
         == if what.Executed? then (if id == a.id then leaves - m.leaves else 0) + QtyOf(xs, id) else 0
  {
    hide Total, QtyOf, FillResponses, FillUpdates, Crosses;
    if leaves == 0 || xs == [] || !Crosses(a.side, a.price, xs[0].price) {
      NothingTotalled(what, id);
    } else {
      var fill := Min(leaves, xs[0].qty);
      var rs := FillResponses(a, xs[0], fill, leaves - fill);
      TotalOfFill(what, a, xs[0], fill, leaves - fill, id);
      assert [xs[0]] + xs[1..] == xs;
      QtyOfFirst(xs[0], xs[1..], id);
      if fill < xs[0].qty {
        QtyOfFirst(xs[0].(qty := xs[0].qty - fill), xs[1..], id);
      } else {
        MatchConserves(what, a, xs[1..], leaves - fill, id);
        TotalSplits(what, rs, Match(a, xs[1..], leaves - fill).responses, id);
      }
    }
  }

  /** The opposite side shrinks by exactly the quantity filled. */
  lemma {:induction false} SideShrinksByFills(a: Aggressor, xs: seq<Order<Owner>>, leaves: nat)
    ensures var m := Match(a, xs, leaves); SumQty(xs) + m.leaves == SumQty(m.rest) + leaves
  {
    if leaves != 0 && xs != [] && Crosses(a.side, a.price, xs[0].price) && xs[0].qty <= leaves {
      SideShrinksByFills(a, xs[1..], leaves - xs[0].qty);
    }
  }

  /** Fill k is told three times, to both clients and to the market, with one price and quantity. */
  ghost predicate FillAgrees(one: ClientResponse, other: ClientResponse, trade: MarketUpdate) {
    && trade.Trade? && one.Filled? && other.Filled?
    && one.price == other.price == trade.price
    && one.execQty == other.execQty == trade.qty
    && one.side == trade.side
  }

  ghost predicate FillsAgree(rs: seq<ClientResponse>, trades: seq<MarketUpdate>) {
    && |rs| == 2 * |trades|
    && forall k :: 0 <= k < |trades| ==> FillAgrees(rs[2 * k], rs[2 * k + 1], trades[k])
  }

  lemma {:induction false} FillsAgreeAppended(rs: seq<ClientResponse>, ts: seq<MarketUpdate>, rs': seq<ClientResponse>,
                                              ts': seq<MarketUpdate>)
    requires FillsAgree(rs, ts) && FillsAgree(rs', ts')
    ensures FillsAgree(rs + rs', ts + ts')
  {
  }

  lemma {:induction false} MatchFillsAgree(a: Aggressor, xs: seq<Order<Owner>>, leaves: nat)
    ensures FillsAgree(Match(a, xs, leaves).responses, TradesIn(Match(a, xs, leaves).updates))
  {
    if leaves != 0 && xs != [] && Crosses(a.side, a.price, xs[0].price) {
      var fill := Min(leaves, xs[0].qty);
      var rs, us := FillResponses(a, xs[0], fill, leaves - fill), FillUpdates(a, xs[0], fill);
      TradeOfFill(a, xs[0], fill);
      assert FillsAgree(rs, TradesIn(us));
      if fill == xs[0].qty {
        var t := Match(a, xs[1..], leaves - fill);
        MatchFillsAgree(a, xs[1..], leaves - fill);
        TradesSplit(us, t.updates);
        FillsAgreeAppended(rs, TradesIn(us), t.responses, TradesIn(t.updates));
      }
    }
  }

  lemma {:induction false} QtyOfPlace(xs: seq<Order<Owner>>, o: Order<Owner>, id: nat)
    ensures QtyOf(Place(xs, o), id) == QtyOf(xs, id) + if o.id == id then o.qty else 0
  {
    if xs != [] && !Better(o.side, o.price, xs[0].price) {
      QtyOfPlace(xs[1..], o, id);
    }
  }

  lemma {:induction false} QtyOfRemove(xs: seq<Order<Owner>>, o: Order<Owner>, id: nat)
    requires o in xs && forall i, j :: 0 <= i < j < |xs| ==> Differ(xs[i], xs[j])
    ensures QtyOf(xs, id) == QtyOf(Remove(xs, o.id), id) + if o.id == id then o.qty else 0
  {
    if xs[0].id == o.id {
      OnlyOne(xs, xs[0], o);
    } else {
      QtyOfRemove(xs[1..], o, id);
    }
  }

  ghost predicate Balanced(s: State, rs: seq<ClientResponse>, t: State, id: nat) {
    Total(Taken, rs, id) + Resting(s.book, id)
      == Total(Executed, rs, id) + Total(Returned, rs, id) + Resting(t.book, id)
  }

  lemma {:induction false} AddBalances(s: State, ticker: nat, owner: Owner, side: Side, price: nat, qty: nat, id: nat)
    ensures Balanced(s, AddStep(s, ticker, owner, side, price, qty).responses,
      AddStep(s, ticker, owner, side, price, qty).state, id)
  {
    var a := Aggressor(ticker, owner, s.nextId, side, price);
    var xs := s.book.On(Opposite(side));
    var m := Match(a, xs, qty);
    var accepted := Accepted(owner.client, ticker, owner.clientOrderId, s.nextId, side, price, 0, qty);
    forall what: Account
      ensures Total(what, [accepted] + m.responses, id) == Amount(what, accepted, id) + Total(what, m.responses, id)
    {
      assert ([accepted] + m.responses)[1..] == m.responses;
    }
    MatchConserves(Taken, a, xs, qty, id);
    MatchConserves(Executed, a, xs, qty, id);
    MatchConserves(Returned, a, xs, qty, id);
    if m.leaves > 0 {
      var ys := s.book.With(Opposite(side), m.rest).On(side);
      QtyOfPlace(ys, Order(owner, s.nextId, side, price, m.leaves, LastPriority(ys, price) + 1), id);
    }
  }

  lemma {:induction false} CancelBalances(s: State, ticker: nat, owner: Owner, id: nat)
    requires StateOk(s)
    ensures Balanced(s, CancelStep(s, ticker, owner).responses, CancelStep(s, ticker, owner).state, id)
  {
    FoundOwner(s.book, owner);
    var o := FindOwner(s.book, owner);
    var rs := CancelStep(s, ticker, owner).responses;
    assert forall what :: Total(what, rs[1..], id) == 0;
    if o.Some? {
      QtyOfRemove(s.book.On(o.value.side), o.value, id);
    }
  }

  /** For every order of every run: what was accepted is what was executed, plus what was
      handed back at cancel, plus what still rests. */
  lemma {:induction false} RunConserves(ticker: nat, rs: seq<Request>, id: nat)
    requires LegalRun(ticker, rs)
    ensures var e := Run(ticker, rs);
      Total(Taken, e.responses, id)
        == Total(Executed, e.responses, id) + Total(Returned, e.responses, id) + Resting(e.state.book, id)
  {
    if rs != [] {
      var n := |rs| - 1;
      LegalPrefix(ticker, rs, n);
      RunConserves(ticker, rs[..n], id);
      RunOk(ticker, rs[..n]);
      var before := Run(ticker, rs[..n]);
      var last := Handle(ticker, before.state, rs[n]);
      match rs[n] {
        case NewOrder(owner, side, price, qty) => AddBalances(before.state, ticker, owner, side, price, qty, id);
        case CancelOrder(owner) => CancelBalances(before.state, ticker, owner, id);
      }
      TotalSplits(Taken, before.responses, last.responses, id);
      TotalSplits(Executed, before.responses, last.responses, id);
      TotalSplits(Returned, before.responses, last.responses, id);
    }
  }
}
