/** The exchange's order book as the source keeps it, proved against the pure book. */
module MEOrderBooks {
  import opened Types
  import opened Orders
  import opened Levels
  import opened Messages
  import opened Matching
  import opened Rings
  import opened RingRep
  import opened RingBooks
  import opened Capacity
  import opened Windows
  import opened PoolUse

  ghost predicate KnownClients(b: Book<Owner>) {
    forall o :: InBook(b, o) ==> o.key.client < MAX_CLIENTS
  }

  /** What the matching loop needs to know about the best order and the state it leaves. */
  lemma {:induction false} BestOrderFacts(s: State, side: Side, fill: nat)
    requires StateOk(s) && KnownClients(s.book) && s.book.On(side) != [] && fill <= s.book.On(side)[0].qty
    ensures var xs := s.book.On(side); var x := xs[0];
      && x.side == side && UniqueId(xs, x)
      && AfterHit(s.book, side, fill)
         == s.book.With(side, if fill == x.qty then Remove(xs, x.id) else SetQty(xs, x.id, x.qty - fill))
    ensures StateOk(s.(book := AfterHit(s.book, side, fill))) && KnownClients(AfterHit(s.book, side, fill))
  {
    var xs := s.book.On(side);
    assert Live(side, xs[0]);
    assert forall i, j :: 0 <= i < j < |xs| ==> Differ(xs[i], xs[j]);
    HitKeeps(s.book, side, fill);
  }

  /** What has been sent in all, before and while matching `xs`. */
  datatype Sent = Sent(responses: seq<ClientResponse>, updates: seq<MarketUpdate>) {
    function Plus(rs: seq<ClientResponse>, us: seq<MarketUpdate>): Sent {
      Sent(responses + rs, updates + us)
    }
  }

  /** What is left of matching `xs` is matching `ys`; `start` and `now` were sent before and so far. */
  ghost predicate SoFar(a: Aggressor, xs: seq<Order<Owner>>, qty: nat, start: Sent, ys: seq<Order<Owner>>, leaves: nat,
                        now: Sent) {
    var m0, m := Match(a, xs, qty), Match(a, ys, leaves);
    m0.rest == m.rest && m0.leaves == m.leaves
      && start.Plus(m0.responses, m0.updates) == now.Plus(m.responses, m.updates)
  }

  lemma {:induction false} StartsSoFar(a: Aggressor, xs: seq<Order<Owner>>, qty: nat, start: Sent)
    ensures SoFar(a, xs, qty, start, xs, qty, start)
  {
  }

  /** One turn of matching is a fill and the matching of what is left. */
  lemma {:induction false} MatchUnfolds(a: Aggressor, b: Book<Owner>, leaves: nat)
    requires var ys := b.On(Opposite(a.side)); 0 < leaves && ys != [] && Crosses(a.side, a.price, ys[0].price)
    ensures var ys := b.On(Opposite(a.side));
      var fill := Min(leaves, ys[0].qty);
      var m := Match(a, ys, leaves);
      var n := Match(a, AfterHit(b, Opposite(a.side), fill).On(Opposite(a.side)), leaves - fill);
      && m.rest == n.rest && m.leaves == n.leaves
      && m.responses == FillResponses(a, ys[0], fill, leaves - fill) + n.responses
      && m.updates == FillUpdates(a, ys[0], fill) + n.updates
  {
  }

  lemma {:induction false} FillSoFar(a: Aggressor, xs: seq<Order<Owner>>, qty: nat, start: Sent,
                                     b: Book<Owner>, leaves: nat, now: Sent)
    requires var ys := b.On(Opposite(a.side)); 0 < leaves && ys != [] && Crosses(a.side, a.price, ys[0].price)
    requires SoFar(a, xs, qty, start, b.On(Opposite(a.side)), leaves, now)
    ensures var o := b.On(Opposite(a.side))[0]; var fill := Min(leaves, o.qty);
      SoFar(a, xs, qty, start, AfterHit(b, Opposite(a.side), fill).On(Opposite(a.side)), leaves - fill,
            now.Plus(FillResponses(a, o, fill, leaves - fill), FillUpdates(a, o, fill)))
  {
    hide Match, FillResponses, FillUpdates, AfterHit, Crosses;
    MatchUnfolds(a, b, leaves);
  }

  lemma {:induction false} EndsSoFar(a: Aggressor, xs: seq<Order<Owner>>, qty: nat, start: Sent,
                                     ys: seq<Order<Owner>>, leaves: nat, now: Sent)
    requires SoFar(a, xs, qty, start, ys, leaves, now)
    requires leaves == 0 || ys == [] || !Crosses(a.side, a.price, ys[0].price)
    ensures var m := Match(a, xs, qty); m.rest == ys && m.leaves == leaves && now == start.Plus(m.responses, m.updates)
  {
  }

  lemma {:induction false} BestIsPositive(s: State, side: Side)
    requires StateOk(s) && s.book.On(side) != []
    ensures 0 < s.book.On(side)[0].qty
  {
  }

  /** After matching, what is left of the incoming order may rest. */
  lemma {:induction false} MayRest(s: State, a: Aggressor, qty: nat)
    requires StateOk(s) && FreshKey(s.book, a.owner) && KnownClients(s.book) && a.id == s.nextId
    ensures var m := Match(a, s.book.On(Opposite(a.side)), qty);
      var c := s.book.With(Opposite(a.side), m.rest);
      && WellFormed(c) && FreshKey(c, a.owner) && KnownClients(c)
      && (0 < m.leaves && InWindow(c, a.price) ==> OwnsSlot(c, a.side, a.price))
  {
    MatchKeeps(a, s.book, qty);
    var m := Match(a, s.book.On(Opposite(a.side)), qty);
    var c := s.book.With(Opposite(a.side), m.rest);
    WithinKeeps(c, s.book, s.nextId, a.owner, a.side, a.price);
    if 0 < m.leaves {
      UncrossedOwnsSlot(c, a.side, a.price);
    }
  }

  /** The three parts of an add: acknowledge, match, and rest when something is left. */
  lemma {:induction false} AddUnfolds(s: State, a: Aggressor, qty: nat, m: Matched, c: Book<Owner>, priority: nat)
    requires m == Match(a, s.book.On(Opposite(a.side)), qty) && a.id == s.nextId
    requires c == s.book.With(Opposite(a.side), m.rest) && priority == LastPriority(c.On(a.side), a.price) + 1
    ensures var step := AddStep(s, a.ticker, a.owner, a.side, a.price, qty);
      var accepted := [Accepted(a.owner.client, a.ticker, a.owner.clientOrderId, a.id, a.side, a.price, 0, qty)];
      && step.responses == accepted + m.responses
      && step.updates == m.updates
          + (if m.leaves == 0 then [] else [MarketUpdate.Add(a.ticker, a.id, a.side, a.price, m.leaves, priority)])
      && step.state.nextId == s.nextId + 1
      && step.state.book == if m.leaves == 0 then c
          else c.With(a.side, Place(c.On(a.side), Order(a.owner, a.id, a.side, a.price, m.leaves, priority)))
  {
  }

  lemma {:induction false} AddKeepsKnown(s: State, ticker: nat, owner: Owner, side: Side, price: nat, qty: nat)
    requires StateOk(s) && KnownClients(s.book) && owner.client < MAX_CLIENTS
    ensures KnownClients(AddStep(s, ticker, owner, side, price, qty).state.book)
  {
    var a := Aggressor(ticker, owner, s.nextId, side, price);
    MatchKeeps(a, s.book, qty);
    var m := Match(a, s.book.On(Opposite(side)), qty);
    var c := s.book.With(Opposite(side), m.rest);
    if m.leaves > 0 {
      var o := Order(owner, s.nextId, side, price, m.leaves, LastPriority(c.On(side), price) + 1);
      forall x | InBook(c.With(side, Place(c.On(side), o)), x)
        ensures x.key.client < MAX_CLIENTS
      {
        InPlace(c.On(side), o, x);
        assert InBook(c, x) || x == o;
      }
    }
  }

  lemma {:induction false} CancelFacts(s: State, ticker: nat, owner: Owner, x: Order<Owner>)
    requires StateOk(s) && KnownClients(s.book) && InBook(s.book, x) && x.key == owner
    ensures UniqueId(s.book.On(x.side), x)
    ensures CancelStep(s, ticker, owner) ==
      Step(s.(book := s.book.With(x.side, Remove(s.book.On(x.side), x.id))),
           [Canceled(owner.client, ticker, owner.clientOrderId, x.id, x.side, x.price, x.qty)],
           [MarketUpdate.Cancel(ticker, x.id, x.side, x.price, 0, x.priority)])
    ensures StateOk(CancelStep(s, ticker, owner).state) && KnownClients(CancelStep(s, ticker, owner).state.book)
  {
    FoundOwner(s.book, owner);
    CancelKeeps(s, ticker, owner);
    assert Live(if x in s.book.bids then Buy else Sell, x);
    var xs := s.book.On(x.side);
    assert forall i, j :: 0 <= i < j < |xs| ==> Differ(xs[i], xs[j]);
    RemoveKeepsBook(s.book, x.side, x.id);
    assert forall y :: InBook(CancelStep(s, ticker, owner).state.book, y) ==> InBook(s.book, y);
  }

  lemma {:induction false} CancelUnknown(s: State, ticker: nat, owner: Owner)
    requires StateOk(s) && KnownClients(s.book) && (owner.client < MAX_CLIENTS ==> FreshKey(s.book, owner))
    ensures CancelStep(s, ticker, owner) == Step(s, [CancelRejected(owner.client, ticker, owner.clientOrderId)], [])
  {
    FoundOwner(s.book, owner);
  }

  /** What is taken for granted of a new order: its client id and order id are not in use, and
      when something is left to rest, the index entry of its price and the pools are free for it. */
  ghost predicate MayAdd(b: Book<Owner>, a: Aggressor, qty: nat, levels: nat, orders: nat) {
    var m := Match(a, b.On(Opposite(a.side)), qty);
    var c := b.With(Opposite(a.side), m.rest);
    FreshKey(b, a.owner) && (0 < m.leaves ==> InWindow(c, a.price) && RoomFor(c, a.side, a.price, levels, orders))
  }

  class MEOrderBook {
    const ticker: nat
    const rings: RingBook<Owner>
    var nextId: nat
    var responses: seq<ClientResponse>
    var updates: seq<MarketUpdate>

    ghost predicate Valid()
      reads this, rings, rings.Repr, rings.levelPool, rings.levelPool.store, rings.orderPool, rings.orderPool.store,
        rings.priceOrders
    {
      && rings.Valid() && this !in rings.Repr
      && StateOk(Abs()) && KnownClients(rings.Contents())
    }

    ghost function Abs(): State
      requires rings.Valid()
      reads this, rings, rings.Repr, rings.levelPool, rings.levelPool.store, rings.orderPool, rings.orderPool.store,
        rings.priceOrders
    {
      State(rings.Contents(), nextId)
    }

    function Output(): Sent
      reads this
    {
      Sent(responses, updates)
    }

    constructor (ticker: nat, levels: nat, orders: nat)
      requires 0 < levels && 0 < orders
      ensures rings.levelPool.store.Length == levels && rings.orderPool.store.Length == orders
      ensures Valid() && fresh(rings.Repr)
      ensures Abs() == State(Book([], []), 1) && responses == [] && updates == []
    {
      hide Inv, StateOk, KnownClients;
      this.ticker := ticker;
      rings := new RingBook(levels, orders, Order(Owner(0, 0), 0, Buy, 0, 0, 0));
      nextId, responses, updates := 1, [], [];
      new;
      NothingYet();
    }

    static lemma {:induction false} NothingYet()
      ensures StateOk(State(Book([], []), 1)) && KnownClients(Book([], []))
    {
    }

    /** The best order of `side` gives up `fill`, and leaves the book when nothing is left. */
    method TakeFromBest(itr: nat, side: Side, fill: nat, ghost s: State)
      requires Valid() && s == Abs() && itr in rings.orderPool.live && s.book.On(side) != []
      requires rings.orderPool.items[itr].data == s.book.On(side)[0] && fill <= s.book.On(side)[0].qty
      modifies rings.Repr
      ensures Valid() && Abs() == s.(book := AfterHit(s.book, side, fill))
    {
      hide Inv, StateOk, KnownClients, UniqueId, AfterHit;
      BestOrderFacts(s, side, fill);
      var order := rings.orderPool.At(itr).data;
      if order.qty == fill {
        rings.RemoveOrder(itr);
      } else {
        rings.SetOrderQty(itr, order.qty - fill);
      }
    }

    /** One fill against the best opposite order. */
    method MatchBest(itr: nat, a: Aggressor, leaves: nat, ghost s: State) returns (left: nat)
      requires Valid() && s == Abs() && itr in rings.orderPool.live && s.book.On(Opposite(a.side)) != []
      requires rings.orderPool.items[itr].data == s.book.On(Opposite(a.side))[0]
      modifies rings.Repr, this`responses, this`updates
      ensures var o := s.book.On(Opposite(a.side))[0];
        var fill := Min(leaves, o.qty);
        && left == leaves - fill
        && Valid() && Abs() == s.(book := AfterHit(s.book, Opposite(a.side), fill))
        && Output() == old(Output()).Plus(FillResponses(a, o, fill, left), FillUpdates(a, o, fill))
    {
      hide Inv, StateOk, KnownClients, AfterHit, FillResponses, FillUpdates;
      var order := rings.orderPool.At(itr).data;
      var fill := Min(leaves, order.qty);
      left := leaves - fill;
      responses := responses + FillResponses(a, order, fill, left);
      updates := updates + FillUpdates(a, order, fill);
      TakeFromBest(itr, Opposite(a.side), fill, s);
    }

    /** `o` is the best order of `side`, null when the side is empty. */
    ghost predicate IsBest(o: int, side: Side)
      requires Valid()
      reads this, rings, rings.Repr, rings.levelPool, rings.levelPool.store, rings.orderPool, rings.orderPool.store,
        rings.priceOrders
    {
      var xs := rings.Contents().On(side);
      if xs == [] then o == NULL
      else o != NULL && o in rings.orderPool.live && rings.orderPool.items[o].data == xs[0]
    }

    /** One turn of the matching loop. */
    method MatchOnce(itr: nat, a: Aggressor, leaves: nat, ghost xs: seq<Order<Owner>>, ghost qty: nat,
                     ghost start: Sent)
      returns (left: nat, next: int)
      requires Valid() && IsBest(itr, Opposite(a.side)) && 0 < leaves
      requires var ys := Abs().book.On(Opposite(a.side));
        ys != [] && Crosses(a.side, a.price, ys[0].price) && SoFar(a, xs, qty, start, ys, leaves, Output())
      modifies rings.Repr, this`responses, this`updates
      ensures left < leaves && Valid() && IsBest(next, Opposite(a.side))
      ensures Abs() == old(Abs()).(book := old(Abs()).book.With(Opposite(a.side), Abs().book.On(Opposite(a.side))))
      ensures SoFar(a, xs, qty, start, Abs().book.On(Opposite(a.side)), left, Output())
    {
      hide Inv, StateOk, KnownClients, FillResponses, FillUpdates, SoFar, Match;
      ghost var s := Abs();
      BestIsPositive(s, Opposite(a.side));
      FillSoFar(a, xs, qty, start, s.book, leaves, Output());
      left := MatchBest(itr, a, leaves, s);
      next := rings.BestOrder(Opposite(a.side));
    }

    /** Fill against the opposite side while it crosses and quantity is left. */
    method CheckForMatch(a: Aggressor, qty: nat, ghost s: State) returns (leaves: nat)
      requires Valid() && s == Abs()
      modifies rings.Repr, this`responses, this`updates
      ensures var m := Match(a, s.book.On(Opposite(a.side)), qty);
        && leaves == m.leaves
        && Valid() && Abs() == s.(book := s.book.With(Opposite(a.side), m.rest))
        && Output() == old(Output()).Plus(m.responses, m.updates)
    {
      hide Inv, StateOk, KnownClients, SoFar, Match;
      ghost var side, start := Opposite(a.side), Output();
      ghost var xs := s.book.On(side);
      leaves := qty;
      StartsSoFar(a, xs, qty, start);
      var itr := rings.BestOrder(Opposite(a.side));
      while leaves != 0 && itr != NULL
        invariant Valid() && IsBest(itr, side)
        invariant Abs() == s.(book := s.book.With(side, Abs().book.On(side)))
        invariant SoFar(a, xs, qty, start, Abs().book.On(side), leaves, Output())
        decreases leaves
      {
        if !Crosses(a.side, a.price, rings.orderPool.At(itr).data.price) {
          break;
        }
        leaves, itr := MatchOnce(itr, a, leaves, xs, qty, start);
      }
      EndsSoFar(a, xs, qty, start, Abs().book.On(side), leaves, Output());
    }

    ghost predicate RingsOnly(s: State)
      reads this, rings, rings.Repr, rings.levelPool, rings.levelPool.store, rings.orderPool, rings.orderPool.store,
        rings.priceOrders
    {
      rings.Valid() && this !in rings.Repr && Abs() == s
    }

    /** What is left of the order joins its level, behind the orders already there. */
    method Rest(owner: Owner, id: nat, side: Side, price: nat, leaves: nat, ghost s: State)
      requires RingsOnly(s) && FreshKey(s.book, owner) && OwnsSlot(s.book, side, price)
      requires RoomFor(s.book, side, price, rings.levelPool.store.Length, rings.orderPool.store.Length)
      modifies rings.Repr, this`updates
      ensures var priority := LastPriority(s.book.On(side), price) + 1;
        && RingsOnly(s.(book := s.book.With(side,
          Place(s.book.On(side), Order(owner, id, side, price, leaves, priority)))))
        && updates == old(updates) + [MarketUpdate.Add(ticker, id, side, price, leaves, priority)]
    {
      hide Inv, FreshKey, OwnsSlot, LastPriority, Place, RoomFor;
      var priority := rings.NextPriority(side, price);
      var order := Order(owner, id, side, price, leaves, priority);
      AcceptsFresh(rings, order);
      rings.AddOrder(order);
      updates := updates + [MarketUpdate.Add(ticker, id, side, price, leaves, priority)];
    }

    /** Take a market order id, acknowledge, and match. */
    method Accept(a: Aggressor, qty: nat, ghost s: State) returns (leaves: nat)
      requires Valid() && s == Abs() && a.id == nextId
      modifies rings.Repr, this`nextId, this`responses, this`updates
      ensures var m := Match(a, s.book.On(Opposite(a.side)), qty);
        && leaves == m.leaves
        && RingsOnly(State(s.book.With(Opposite(a.side), m.rest), s.nextId + 1))
        && Output() == old(Output()).Plus(
            [Accepted(a.owner.client, a.ticker, a.owner.clientOrderId, a.id, a.side, a.price, 0, qty)]
              + m.responses, m.updates)
    {
      hide Inv, Match;
      nextId := nextId + 1;
      responses := responses
        + [Accepted(a.owner.client, a.ticker, a.owner.clientOrderId, a.id, a.side, a.price, 0, qty)];
      leaves := CheckForMatch(a, qty, Abs());
    }

    method Add(client: nat, clientOrderId: nat, side: Side, price: nat, qty: nat)
      requires Valid() && client < MAX_CLIENTS && clientOrderId < MAX_ORDER_IDS
      requires MayAdd(Abs().book, Aggressor(ticker, Owner(client, clientOrderId), nextId, side, price), qty,
                      rings.levelPool.store.Length, rings.orderPool.store.Length)
      modifies rings.Repr, this`nextId, this`responses, this`updates
      ensures Valid()
      ensures var step := AddStep(old(Abs()), ticker, Owner(client, clientOrderId), side, price, qty);
        Abs() == step.state && Output() == old(Output()).Plus(step.responses, step.updates)
    {
      hide Inv, Match, StateOk, KnownClients, AddStep, FreshKey, InWindow, LastPriority, Place, RoomFor;
      ghost var s := Abs();
      var owner := Owner(client, clientOrderId);
      var a := Aggressor(ticker, owner, nextId, side, price);
      AddKeeps(s, ticker, owner, side, price, qty);
      AddKeepsKnown(s, ticker, owner, side, price, qty);
      MayRest(s, a, qty);
      ghost var m := Match(a, s.book.On(Opposite(side)), qty);
      ghost var c := s.book.With(Opposite(side), m.rest);
      AddUnfolds(s, a, qty, m, c, LastPriority(c.On(side), price) + 1);
      var leaves := Accept(a, qty, s);
      if leaves != 0 {
        Rest(owner, a.id, side, price, leaves, Abs());
      }
    }

    method Cancel(client: nat, orderId: nat)
      requires Valid() && orderId < MAX_ORDER_IDS
      modifies rings.Repr, this`responses, this`updates
      ensures Valid()
      ensures var step := CancelStep(old(Abs()), ticker, Owner(client, orderId));
        Abs() == step.state && Output() == old(Output()).Plus(step.responses, step.updates)
    {
      hide Inv, StateOk, KnownClients, CancelStep, UniqueId;
      ghost var s := Abs();
      var owner, found := Owner(client, orderId), NULL;
      if client < MAX_CLIENTS {
        found := rings.Find(owner);
      }
      if found == NULL {
        CancelUnknown(s, ticker, owner);
        responses := responses + [CancelRejected(client, ticker, orderId)];
      } else {
        var x := rings.orderPool.At(found).data;
        CancelFacts(s, ticker, owner, x);
        responses := responses + [Canceled(client, ticker, orderId, x.id, x.side, x.price, x.qty)];
        updates := updates + [MarketUpdate.Cancel(ticker, x.id, x.side, x.price, 0, x.priority)];
        rings.RemoveOrder(found);
      }
    }
  }
}
