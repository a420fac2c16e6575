/** What the clients are told over a whole run is true. */
module ClientViews {
  import opened Types
  import opened Orders
  import opened Messages
  import opened Matching
  import opened Runs
  import opened Conservation

  /** What should be left of order `id`, by the responses sent so far. */
  function Balance(rs: seq<ClientResponse>, id: nat): int {
    Total(Taken, rs, id) - Total(Executed, rs, id) - Total(Returned, rs, id)
  }

  /** The response that acknowledged order `id`. */
  function Acknowledged(rs: seq<ClientResponse>, id: nat): Option<ClientResponse> {
    if rs == [] then None
    else if rs[0].Accepted? && rs[0].id == id then Some(rs[0])
    else Acknowledged(rs[1..], id)
  }

  /** `r` is about the order acknowledged by `ack`: same client, same ids, same side. */
  ghost predicate SameClientOrder(ack: ClientResponse, r: ClientResponse)
    requires ack.Accepted? && (r.Filled? || r.Canceled?)
  {
    ack.client == r.client && ack.ticker == r.ticker && ack.clientOrderId == r.clientOrderId && ack.id == r.id
      && ack.side == r.side
  }

  /** A response sent after `before` is true: it is about an order acknowledged earlier, to
      the client who made it; a fill respects the limit; and the quantity left is what was
      accepted less what was executed, this fill included. */
  ghost predicate True(before: seq<ClientResponse>, r: ClientResponse) {
    match r
    case Accepted(_, _, _, id, _, _, exec, _) => exec == 0 && Acknowledged(before, id) == None
    case Filled(_, _, _, id, side, price, exec, leaves) =>
      var ack := Acknowledged(before, id);
      && ack.Some? && ack.value.Accepted? && SameClientOrder(ack.value, r)
      && Crosses(side, ack.value.price, price) && leaves == Balance(before, id) - exec
    case Canceled(_, _, _, id, _, price, leaves) =>
      var ack := Acknowledged(before, id);
      && ack.Some? && ack.value.Accepted? && SameClientOrder(ack.value, r)
      && ack.value.price == price && leaves == Balance(before, id)
    case CancelRejected(_, _, _) => true
  }

  ghost predicate AllTrue(rs: seq<ClientResponse>) {
    forall k :: 0 <= k < |rs| ==> True(rs[..k], rs[k])
  }

  lemma {:induction false} OneMoreTrue(rs: seq<ClientResponse>, r: ClientResponse)
    requires AllTrue(rs) && True(rs, r)
    ensures AllTrue(rs + [r])
  {
    var all := rs + [r];
    forall k | 0 <= k < |all|
      ensures True(all[..k], all[k])
    {
      assert k < |rs| ==> all[..k] == rs[..k];
      assert k == |rs| ==> all[..k] == rs;
    }
  }

  lemma {:induction false} OneMoreBalance(rs: seq<ClientResponse>, r: ClientResponse, id: nat)
    ensures Balance(rs + [r], id)
      == Balance(rs, id) + Amount(Taken, r, id) - Amount(Executed, r, id) - Amount(Returned, r, id)
  {
    forall what: Account
      ensures Total(what, rs + [r], id) == Total(what, rs, id) + Amount(what, r, id)
    {
      TotalSplits(what, rs, [r], id);
      assert [r][1..] == [];
    }
  }

  lemma {:induction false} OneMoreAcknowledged(rs: seq<ClientResponse>, r: ClientResponse, id: nat)
    ensures Acknowledged(rs + [r], id) ==
      if Acknowledged(rs, id).Some? then Acknowledged(rs, id)
      else if r.Accepted? && r.id == id then Some(r) else None
  {
    if rs == [] {
      assert (rs + [r])[1..] == [];
    } else {
      assert (rs + [r])[1..] == rs[1..] + [r];
      OneMoreAcknowledged(rs[1..], r, id);
    }
  }

  /** A live order is what its acknowledgement and the responses since make of it. */
  ghost predicate Known(rs: seq<ClientResponse>, ticker: nat, o: Order<Owner>) {
    var ack := Acknowledged(rs, o.id);
    && ack.Some? && ack.value.Accepted?
    && ack.value.client == o.key.client && ack.value.clientOrderId == o.key.clientOrderId && ack.value.ticker == ticker
    && ack.value.id == o.id && ack.value.side == o.side && ack.value.price == o.price
    && o.qty == Balance(rs, o.id)
  }

  /** The incoming order while it trades. */
  ghost predicate KnownAggressor(rs: seq<ClientResponse>, a: Aggressor, leaves: nat) {
    Known(rs, a.ticker, Order(a.owner, a.id, a.side, a.price, leaves, 0))
  }

  /** Nothing said between `rs` and `after` concerns order `id`. */
  ghost predicate Unmentioned(rs: seq<ClientResponse>, after: seq<ClientResponse>, id: nat) {
    Acknowledged(after, id) == Acknowledged(rs, id) && Balance(after, id) == Balance(rs, id)
  }

  lemma {:induction false} StillKnown(rs: seq<ClientResponse>, after: seq<ClientResponse>, ticker: nat, o: Order<Owner>)
    requires Known(rs, ticker, o) && Unmentioned(rs, after, o.id)
    ensures Known(after, ticker, o)
  {
  }

  /** Both clients of a fill are told the truth. */
  lemma {:induction false} FillTrue(rs: seq<ClientResponse>, a: Aggressor, o: Order<Owner>, fill: nat, leaves: nat)
    requires AllTrue(rs) && KnownAggressor(rs, a, leaves) && Known(rs, a.ticker, o) && o.id != a.id
    requires fill <= leaves && fill <= o.qty && o.side == Opposite(a.side) && Crosses(a.side, a.price, o.price)
    ensures var after := rs + FillResponses(a, o, fill, leaves - fill);
      && AllTrue(after) && KnownAggressor(after, a, leaves - fill) && Known(after, a.ticker, o.(qty := o.qty - fill))
      && forall id: nat :: id != a.id && id != o.id ==> Unmentioned(rs, after, id)
  {
    hide Balance, Acknowledged, AllTrue, Total;
    var two := FillResponses(a, o, fill, leaves - fill);
    var mid := rs + [two[0]];
    var after := mid + [two[1]];
    assert after == rs + two;
    OneMoreTrue(rs, two[0]);
    forall id: nat
      ensures Acknowledged(mid, id) == Acknowledged(rs, id) && Acknowledged(after, id) == Acknowledged(rs, id)
      ensures Balance(mid, id) == Balance(rs, id) - (if id == a.id then fill else 0)
      ensures Balance(after, id) == Balance(mid, id) - (if id == o.id then fill else 0)
    {
      OneMoreAcknowledged(rs, two[0], id);
      OneMoreAcknowledged(mid, two[1], id);
      OneMoreBalance(rs, two[0], id);
      OneMoreBalance(mid, two[1], id);
    }
    OneMoreTrue(mid, two[1]);
  }

  /** Resting orders that can be told apart from each other and from the incoming one. */
  ghost predicate Resters(rs: seq<ClientResponse>, a: Aggressor, xs: seq<Order<Owner>>) {
    && (forall i :: 0 <= i < |xs| ==> Known(rs, a.ticker, xs[i]) && xs[i].id != a.id && xs[i].side == Opposite(a.side))
    && (forall i, j :: 0 <= i < j < |xs| ==> xs[i].id != xs[j].id)
  }

  ghost predicate NotAmong(xs: seq<Order<Owner>>, id: nat) {
    forall i :: 0 <= i < |xs| ==> xs[i].id != id
  }

  lemma {:induction false} MatchTrue(rs: seq<ClientResponse>, a: Aggressor, xs: seq<Order<Owner>>, leaves: nat)
    requires AllTrue(rs) && KnownAggressor(rs, a, leaves) && Resters(rs, a, xs)
    ensures var m := Match(a, xs, leaves); var after := rs + m.responses;
      && AllTrue(after) && KnownAggressor(after, a, m.leaves) && Resters(after, a, m.rest)
      && forall id: nat :: id != a.id && NotAmong(xs, id) ==> Unmentioned(rs, after, id)
    decreases |xs|
  {
    hide Known, AllTrue, Balance, Acknowledged, FillResponses, FillUpdates;
    if leaves == 0 || xs == [] || !Crosses(a.side, a.price, xs[0].price) {
      assert rs + [] == rs;
      SameUnmentioned(rs);
    } else {
      var o, fill := xs[0], Min(leaves, xs[0].qty);
      var mid := rs + FillResponses(a, o, fill, leaves - fill);
      FillTrue(rs, a, o, fill, leaves);
      RestKnown(rs, mid, a, xs);
      if fill < o.qty {
        FirstRemains(mid, a, xs, fill);
      } else {
        var t := Match(a, xs[1..], leaves - fill);
        MatchTrue(mid, a, xs[1..], leaves - fill);
        assert mid + t.responses == rs + (FillResponses(a, o, fill, leaves - fill) + t.responses);
        forall id: nat | id != a.id && NotAmong(xs, id)
          ensures Unmentioned(rs, mid + t.responses, id)
        {
          assert NotAmong(xs[1..], id) && Unmentioned(rs, mid, id);
          BothUnmentioned(rs, mid, mid + t.responses, id);
        }
      }
    }
  }

  lemma {:induction false} SameUnmentioned(rs: seq<ClientResponse>)
    ensures forall id: nat :: Unmentioned(rs, rs, id)
  {
  }

  lemma {:induction false} BothUnmentioned(rs: seq<ClientResponse>, mid: seq<ClientResponse>,
                                           after: seq<ClientResponse>, id: nat)
    requires Unmentioned(rs, mid, id) && Unmentioned(mid, after, id)
    ensures Unmentioned(rs, after, id)
  {
  }

  lemma {:induction false} RestKnown(rs: seq<ClientResponse>, mid: seq<ClientResponse>, a: Aggressor,
                                     xs: seq<Order<Owner>>)
    requires Resters(rs, a, xs) && xs != [] && forall id: nat :: id != a.id && id != xs[0].id ==>
      Unmentioned(rs, mid, id)
    ensures Resters(mid, a, xs[1..])
  {
    hide Known, Unmentioned;
    forall i | 0 < i < |xs|
      ensures Known(mid, a.ticker, xs[i])
    {
      StillKnown(rs, mid, a.ticker, xs[i]);
    }
  }

  lemma {:induction false} FirstRemains(mid: seq<ClientResponse>, a: Aggressor, xs: seq<Order<Owner>>, fill: nat)
    requires xs != [] && fill <= xs[0].qty && Resters(mid, a, xs[1..])
      && Known(mid, a.ticker, xs[0].(qty := xs[0].qty - fill))
    requires xs[0].id != a.id && xs[0].side == Opposite(a.side) && forall i :: 0 < i < |xs| ==> xs[i].id != xs[0].id
    ensures Resters(mid, a, [xs[0].(qty := xs[0].qty - fill)] + xs[1..])
  {
    hide Known;
    var ys := [xs[0].(qty := xs[0].qty - fill)] + xs[1..];
    assert forall i :: 0 < i < |ys| ==> ys[i] == xs[1..][i - 1];
  }

  // ----- whole runs

  /** After the responses `rs`, the engine knows its orders as the clients do. */
  ghost predicate Honest(ticker: nat, s: State, rs: seq<ClientResponse>) {
    && AllTrue(rs)
    && (forall o :: InBook(s.book, o) ==> Known(rs, ticker, o))
    && (forall id: nat :: s.nextId <= id ==> Acknowledged(rs, id) == None && Balance(rs, id) == 0)
  }

  /** The other side's orders rest against an incoming one with a new id. */
  lemma {:induction false} SideRests(ticker: nat, s: State, rs: seq<ClientResponse>, a: Aggressor)
    requires StateOk(s) && a.id == s.nextId && a.ticker == ticker
    requires forall o :: InBook(s.book, o) ==> Known(rs, ticker, o)
    ensures Resters(rs, a, s.book.On(Opposite(a.side)))
  {
    hide Known;
    var side := Opposite(a.side);
    var xs := s.book.On(side);
    forall i | 0 <= i < |xs|
      ensures InBook(s.book, xs[i]) && xs[i].side == side
    {
      assert Live(side, xs[i]) && xs[i] in xs;
    }
    forall i, j | 0 <= i < j < |xs|
      ensures xs[i].id != xs[j].id
    {
      assert Differ(xs[i], xs[j]);
    }
  }

  lemma {:induction false} AcceptTrue(ticker: nat, s: State, rs: seq<ClientResponse>, a: Aggressor, qty: nat)
    requires StateOk(s) && Honest(ticker, s, rs) && a.id == s.nextId && a.ticker == ticker
    ensures var r :=
        ClientResponse.Accepted(a.owner.client, ticker, a.owner.clientOrderId, a.id, a.side, a.price, 0, qty);
      var after := rs + [r];
      && AllTrue(after) && KnownAggressor(after, a, qty)
      && (forall o :: InBook(s.book, o) ==> Known(after, ticker, o))
      && (forall id: nat :: s.nextId < id ==> Acknowledged(after, id) == None && Balance(after, id) == 0)
  {
    hide Balance, Acknowledged, AllTrue, Total;
    var r := ClientResponse.Accepted(a.owner.client, ticker, a.owner.clientOrderId, a.id, a.side, a.price, 0, qty);
    OneMoreTrue(rs, r);
    forall id: nat
      ensures id != a.id ==> Unmentioned(rs, rs + [r], id)
      ensures id == a.id ==> Acknowledged(rs + [r], id) == Some(r) && Balance(rs + [r], id) == qty
    {
      OneMoreAcknowledged(rs, r, id);
      OneMoreBalance(rs, r, id);
    }
    forall o | InBook(s.book, o)
      ensures Known(rs + [r], ticker, o)
    {
      StillKnown(rs, rs + [r], ticker, o);
    }
  }

  /** Orders that matching does not concern, and ids not given out yet, are as before. */
  lemma {:induction false} OthersKept(ticker: nat, s: State, a: Aggressor, rs: seq<ClientResponse>,
                                      after: seq<ClientResponse>)
    requires StateOk(s) && a.id == s.nextId
    requires forall o :: InBook(s.book, o) ==> Known(rs, ticker, o)
    requires forall id: nat :: s.nextId < id ==> Acknowledged(rs, id) == None && Balance(rs, id) == 0
    requires forall id: nat :: id != a.id && NotAmong(s.book.On(Opposite(a.side)), id) ==> Unmentioned(rs, after, id)
    ensures forall o :: o in s.book.On(a.side) ==> Known(after, ticker, o)
    ensures forall id: nat :: s.nextId < id ==> Acknowledged(after, id) == None && Balance(after, id) == 0
  {
    hide Known, Balance, Acknowledged;
    var side := Opposite(a.side);
    var xs, ys := s.book.On(side), s.book.On(a.side);
    assert forall i :: 0 <= i < |xs| ==> InBook(s.book, xs[i]);
    DifferFlip(s.book.bids, s.book.asks);
    forall o | o in ys
      ensures Known(after, ticker, o)
    {
      var j :| 0 <= j < |ys| && ys[j] == o;
      assert forall i :: 0 <= i < |xs| ==> Differ(ys[j], xs[i]);
      assert NotAmong(xs, o.id) && InBook(s.book, o);
      StillKnown(rs, after, ticker, o);
    }
    forall id: nat | s.nextId < id
      ensures Acknowledged(after, id) == None && Balance(after, id) == 0
    {
      assert NotAmong(xs, id);
      assert Unmentioned(rs, after, id);
    }
  }

  lemma {:induction false} AddTrue(ticker: nat, s: State, rs: seq<ClientResponse>, owner: Owner, side: Side,
                                   price: nat, qty: nat)
    requires StateOk(s) && Honest(ticker, s, rs)
    ensures var step := AddStep(s, ticker, owner, side, price, qty); Honest(ticker, step.state, rs + step.responses)
  {
    hide Balance, Acknowledged, AllTrue, Total, StateOk, Match, Known;
    var a := Aggressor(ticker, owner, s.nextId, side, price);
    var accepted := ClientResponse.Accepted(owner.client, ticker, owner.clientOrderId, a.id, side, price, 0, qty);
    var first := rs + [accepted];
    AcceptTrue(ticker, s, rs, a, qty);
    SideRests(ticker, s, first, a);
    var xs := s.book.On(Opposite(side));
    MatchTrue(first, a, xs, qty);
    var m := Match(a, xs, qty);
    var after := first + m.responses;
    assert after == rs + ([accepted] + m.responses);
    OthersKept(ticker, s, a, first, after);
    var step := AddStep(s, ticker, owner, side, price, qty);
    var c := s.book.With(Opposite(side), m.rest);
    forall o | InBook(step.state.book, o)
      ensures Known(after, ticker, o)
    {
      var priority := LastPriority(c.On(side), price) + 1;
      InPlace(c.On(side), Order(owner, a.id, side, price, m.leaves, priority), o);
      RestingKnown(after, a, m.leaves, priority);
      assert o in m.rest ==> exists i :: 0 <= i < |m.rest| && m.rest[i] == o;
    }
  }

  lemma {:induction false} RestingKnown(rs: seq<ClientResponse>, a: Aggressor, leaves: nat, priority: nat)
    requires KnownAggressor(rs, a, leaves)
    ensures Known(rs, a.ticker, Order(a.owner, a.id, a.side, a.price, leaves, priority))
  {
  }

  /** A cancel takes one live order, and no other with its id is left. */
  lemma {:induction false} CancelMeans(s: State, ticker: nat, owner: Owner)
    requires StateOk(s)
    ensures var step, f := CancelStep(s, ticker, owner), FindOwner(s.book, owner);
      && (forall y :: InBook(step.state.book, y) ==> InBook(s.book, y) && (f.Some? ==> y.id != f.value.id))
      && (f.Some? ==> InBook(s.book, f.value) && f.value.key == owner)
  {
    FoundOwner(s.book, owner);
    FoundKey(s.book.bids, owner);
    FoundKey(s.book.asks, owner);
    var f := FindOwner(s.book, owner);
    if f.Some? {
      var o := f.value;
      var side := o.side;
      RemoveKeepsBook(s.book, side, o.id);
      DifferFlip(s.book.bids, s.book.asks);
      var xs, ys := s.book.On(side), s.book.On(Opposite(side));
      var i :| 0 <= i < |xs| && xs[i] == o;
      assert forall j :: 0 <= j < |ys| ==> Differ(xs[i], ys[j]);
    }
  }

  lemma {:induction false} OneSaid(rs: seq<ClientResponse>, r: ClientResponse)
    requires !r.Accepted?
    ensures forall id: nat :: Acknowledged(rs + [r], id) == Acknowledged(rs, id)
    ensures forall id: nat :: (r.CancelRejected? || id != r.id) ==> Unmentioned(rs, rs + [r], id)
  {
    forall id: nat
      ensures Acknowledged(rs + [r], id) == Acknowledged(rs, id)
      ensures r.CancelRejected? || id != r.id ==> Unmentioned(rs, rs + [r], id)
    {
      OneMoreAcknowledged(rs, r, id);
      OneMoreBalance(rs, r, id);
    }
  }

  lemma {:induction false} CancelTrue(ticker: nat, s: State, rs: seq<ClientResponse>, owner: Owner)
    requires StateOk(s) && Honest(ticker, s, rs)
    ensures var step := CancelStep(s, ticker, owner); Honest(ticker, step.state, rs + step.responses)
  {
    hide Balance, Acknowledged, AllTrue, FindOwner, WellFormed, Remove;
    var step := CancelStep(s, ticker, owner);
    var r := step.responses[0];
    assert step.responses == [r];
    CancelMeans(s, ticker, owner);
    OneSaid(rs, r);
    OneMoreTrue(rs, r);
    forall o | InBook(step.state.book, o)
      ensures Known(rs + [r], ticker, o)
    {
      StillKnown(rs, rs + [r], ticker, o);
    }
    forall id: nat | s.nextId <= id
      ensures Acknowledged(rs + [r], id) == None && Balance(rs + [r], id) == 0
    {
      assert Unmentioned(rs, rs + [r], id);
    }
    assert step.state.nextId == s.nextId;
  }

  /** Over every run, every client is told the truth about its orders: each response is about
      an order the client made, fills respect the limit, and the quantity said to be left is
      the quantity accepted less what has been executed. */
  lemma {:induction false} RunTrue(ticker: nat, rs: seq<Request>)
    requires LegalRun(ticker, rs)
    ensures AllTrue(Run(ticker, rs).responses) && Honest(ticker, Run(ticker, rs).state, Run(ticker, rs).responses)
  {
    hide AllTrue, Known, Balance, Acknowledged, AddStep, CancelStep, StateOk;
    if rs == [] {
      NothingSaid(ticker);
    } else {
      var n := |rs| - 1;
      LegalPrefix(ticker, rs, n);
      RunTrue(ticker, rs[..n]);
      RunOk(ticker, rs[..n]);
      var before := Run(ticker, rs[..n]);
      match rs[n] {
        case NewOrder(owner, side, price, qty) =>
          AddTrue(ticker, before.state, before.responses, owner, side, price, qty);
        case CancelOrder(owner) => CancelTrue(ticker, before.state, before.responses, owner);
      }
    }
  }

  lemma {:induction false} NothingSaid(ticker: nat)
    ensures Honest(ticker, EMPTY_STATE, [])
  {
  }
}
