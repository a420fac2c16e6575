/** Every request is answered, in order: what the responses that are not fills say, and to whom. */
module Answers {
  import opened Types
  import opened Orders
  import opened Messages
  import opened Matching
  import opened Runs

  /** The responses that are not fills. */
  function NotFills(rs: seq<ClientResponse>): seq<ClientResponse> {
    if rs == [] then [] else (if rs[0].Filled? then [] else [rs[0]]) + NotFills(rs[1..])
  }

  /** How many of the requests are new orders. */
  function NewOrders(rs: seq<Request>): nat {
    if rs == [] then 0 else NewOrders(rs[..|rs| - 1]) + if rs[|rs| - 1].NewOrder? then 1 else 0
  }

  /** The answer to a request, on the book it meets and after so many new orders. A new order is
      accepted with everything it asked for, nothing executed, and the next market id. A cancel
      gives back the whole of the live order it names, or names what it could not find. */
  ghost predicate Answers(ticker: nat, b: Book<Owner>, before: nat, r: Request, a: ClientResponse) {
    match r
    case NewOrder(owner, side, price, qty) =>
      && a.Accepted? && a.client == owner.client && a.ticker == ticker && a.clientOrderId == owner.clientOrderId
      && a.id == before + 1 && a.side == side && a.price == price && a.execQty == 0 && a.leavesQty == qty
    case CancelOrder(owner) =>
      if FreshKey(b, owner) then
        a.CancelRejected? && a.client == owner.client && a.ticker == ticker && a.clientOrderId == owner.clientOrderId
      else
        && a.Canceled? && a.client == owner.client && a.ticker == ticker && a.clientOrderId == owner.clientOrderId
        && exists x :: (
          && InBook(b, x) && x.key == owner
          && a.id == x.id && a.side == x.side && a.price == x.price && a.leavesQty == x.qty)
  }

  lemma {:induction false} NotFillsSplits(a: seq<ClientResponse>, b: seq<ClientResponse>)
    ensures NotFills(a + b) == NotFills(a) + NotFills(b)
  {
    if a == [] {
      assert a + b == b;
    } else {
      var first := if a[0].Filled? then [] else [a[0]];
      calc {
        NotFills(a + b);
        { assert (a + b)[0] == a[0] && (a + b)[1..] == a[1..] + b; }
        first + NotFills(a[1..] + b);
        { NotFillsSplits(a[1..], b); }
        first + (NotFills(a[1..]) + NotFills(b));
        (first + NotFills(a[1..])) + NotFills(b);
        NotFills(a) + NotFills(b);
      }
    }
  }

  lemma {:induction false} MatchOnlyFills(a: Aggressor, xs: seq<Order<Owner>>, leaves: nat)
    ensures NotFills(Match(a, xs, leaves).responses) == []
  {
    if leaves != 0 && xs != [] && Crosses(a.side, a.price, xs[0].price) {
      var fill := Min(leaves, xs[0].qty);
      var rs := FillResponses(a, xs[0], fill, leaves - fill);
      FillsOnly(a, xs[0], fill, leaves - fill);
      if fill == xs[0].qty {
        MatchOnlyFills(a, xs[1..], leaves - fill);
        NotFillsSplits(rs, Match(a, xs[1..], leaves - fill).responses);
      }
    }
  }

  lemma {:induction false} FillsOnly(a: Aggressor, o: Order<Owner>, fill: nat, leaves: nat)
    requires fill <= o.qty
    ensures NotFills(FillResponses(a, o, fill, leaves)) == []
  {
    var rs := FillResponses(a, o, fill, leaves);
    assert rs[1..][1..] == [];
    assert NotFills(rs[1..]) == [];
  }

  lemma {:induction false} OneNotFill(a: ClientResponse)
    requires !a.Filled?
    ensures NotFills([a]) == [a]
  {
    assert [a][1..] == [];
  }

  /** One request, one answer; a new order uses up one market id. */
  lemma {:induction false} HandleAnswers(ticker: nat, s: State, r: Request)
    requires StateOk(s) && 1 <= s.nextId
    ensures var step := Handle(ticker, s, r); var said := NotFills(step.responses);
      && |said| == 1 && step.responses != [] && said[0] == step.responses[0]
      && Answers(ticker, s.book, s.nextId - 1, r, said[0])
      && step.state.nextId == s.nextId + if r.NewOrder? then 1 else 0
  {
    match r
    case NewOrder(owner, side, price, qty) =>
      var a := Aggressor(ticker, owner, s.nextId, side, price);
      var xs := s.book.On(Opposite(side));
      var accepted := Accepted(owner.client, ticker, owner.clientOrderId, s.nextId, side, price, 0, qty);
      MatchOnlyFills(a, xs, qty);
      OneNotFill(accepted);
      NotFillsSplits([accepted], Match(a, xs, qty).responses);
    case CancelOrder(owner) =>
      FoundOwner(s.book, owner);
      var f := FindOwner(s.book, owner);
      OneNotFill(CancelStep(s, ticker, owner).responses[0]);
      if f.Some? {
        FoundInBook(s.book, owner);
      }
  }

  lemma {:induction false} FoundInBook(b: Book<Owner>, owner: Owner)
    requires WellFormed(b) && FindOwner(b, owner).Some?
    ensures InBook(b, FindOwner(b, owner).value) && FindOwner(b, owner).value.key == owner
  {
    FoundKey(b.bids, owner);
    FoundKey(b.asks, owner);
  }

  /** The k-th answer is to the k-th request. */
  ghost predicate AllAnswered(ticker: nat, rs: seq<Request>, said: seq<ClientResponse>) {
    && |said| == |rs|
    && forall k :: 0 <= k < |rs| ==>
      Answers(ticker, Run(ticker, rs[..k]).state.book, NewOrders(rs[..k]), rs[k], said[k])
  }

  lemma {:induction false} OneMoreAnswered(ticker: nat, rs: seq<Request>, said: seq<ClientResponse>, a: ClientResponse)
    requires rs != [] && AllAnswered(ticker, rs[..|rs| - 1], said)
    requires var before := rs[..|rs| - 1];
      Answers(ticker, Run(ticker, before).state.book, NewOrders(before), rs[|rs| - 1], a)
    ensures AllAnswered(ticker, rs, said + [a])
  {
    hide Answers, Run, NewOrders;
    var n := |rs| - 1;
    assert forall k :: 0 <= k < n ==> rs[..n][..k] == rs[..k] && rs[..n][k] == rs[k];
  }

  /** For every run: one answer to each request, in order and to the client who made it; market ids
      are given out as 1, 2, 3, ... */
  lemma {:induction false} RunAnswered(ticker: nat, rs: seq<Request>)
    requires LegalRun(ticker, rs)
    ensures AllAnswered(ticker, rs, NotFills(Run(ticker, rs).responses))
    ensures Run(ticker, rs).state.nextId == NewOrders(rs) + 1
  {
    hide StateOk, Answers, AllAnswered, Handle, LegalRun, NotFills;
    if rs == [] {
      NoneAnswered(ticker);
    } else {
      var n := |rs| - 1;
      LegalPrefix(ticker, rs, n);
      RunAnswered(ticker, rs[..n]);
      RunOk(ticker, rs[..n]);
      var before := Run(ticker, rs[..n]);
      var last := Handle(ticker, before.state, rs[n]);
      HandleAnswers(ticker, before.state, rs[n]);
      NotFillsSplits(before.responses, last.responses);
      OneMoreAnswered(ticker, rs, NotFills(before.responses), last.responses[0]);
      assert NotFills(last.responses) == [last.responses[0]];
    }
  }

  lemma {:induction false} NoneAnswered(ticker: nat)
    ensures AllAnswered(ticker, [], NotFills([]))
  {
  }
}
