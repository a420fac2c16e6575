/** The matching engine on the pure book: what `add` and `cancel` do and say. */
module Matching {
  import opened Types
  import opened Orders
  import opened Messages

  datatype Owner = Owner(client: nat, clientOrderId: nat)

  /** The incoming order while it trades. */
  datatype Aggressor = Aggressor(ticker: nat, owner: Owner, id: nat, side: Side, price: nat)

  datatype Matched = Matched(
    rest: seq<Order<Owner>>, leaves: nat, responses: seq<ClientResponse>, updates: seq<MarketUpdate>)

  function FillResponses(a: Aggressor, o: Order<Owner>, fill: nat, leaves: nat): seq<ClientResponse>
    requires fill <= o.qty
  {
    [Filled(a.owner.client, a.ticker, a.owner.clientOrderId, a.id, a.side, o.price, fill, leaves),
     Filled(o.key.client, a.ticker, o.key.clientOrderId, o.id, o.side, o.price, fill, o.qty - fill)]
  }

  function FillUpdates(a: Aggressor, o: Order<Owner>, fill: nat): seq<MarketUpdate>
    requires fill <= o.qty
  {
    [Trade(a.ticker, a.side, o.price, fill),
     if fill == o.qty then Cancel(a.ticker, o.id, o.side, o.price, o.qty, PRIORITY_INVALID)
     else Modify(a.ticker, o.id, o.side, o.price, o.qty - fill, o.priority)]
  }

  /** Trade against the opposite side, best order first, while the limit allows. */
  function Match(a: Aggressor, xs: seq<Order<Owner>>, leaves: nat): Matched {
    if leaves == 0 || xs == [] || !Crosses(a.side, a.price, xs[0].price) then
      Matched(xs, leaves, [], [])
    else
      var o := xs[0];
      var fill := Min(leaves, o.qty);
      var rs, us := FillResponses(a, o, fill, leaves - fill), FillUpdates(a, o, fill);
      if fill < o.qty then
        Matched([o.(qty := o.qty - fill)] + xs[1..], leaves - fill, rs, us)
      else
        var t := Match(a, xs[1..], leaves - fill);
        Matched(t.rest, t.leaves, rs + t.responses, us + t.updates)
  }

  datatype State = State(book: Book<Owner>, nextId: nat)

  datatype Step = Step(state: State, responses: seq<ClientResponse>, updates: seq<MarketUpdate>)

  function AddStep(s: State, ticker: nat, owner: Owner, side: Side, price: nat, qty: nat): Step {
    var id := s.nextId;
    var m := Match(Aggressor(ticker, owner, id, side, price), s.book.On(Opposite(side)), qty);
    var matched := s.book.With(Opposite(side), m.rest);
    var accepted := Accepted(owner.client, ticker, owner.clientOrderId, id, side, price, 0, qty);
    if m.leaves == 0 then
      Step(State(matched, id + 1), [accepted] + m.responses, m.updates)
    else
      var priority := LastPriority(matched.On(side), price) + 1;
      var o := Order(owner, id, side, price, m.leaves, priority);
      Step(State(matched.With(side, Place(matched.On(side), o)), id + 1),
           [accepted] + m.responses, m.updates + [Add(ticker, id, side, price, m.leaves, priority)])
  }

  function FindKey<K(==)>(xs: seq<Order<K>>, key: K): Option<Order<K>> {
    if xs == [] then None else if xs[0].key == key then Some(xs[0]) else FindKey(xs[1..], key)
  }

  function FindOwner(b: Book<Owner>, owner: Owner): Option<Order<Owner>> {
    var o := FindKey(b.bids, owner);
    if o.Some? then o else FindKey(b.asks, owner)
  }

  function CancelStep(s: State, ticker: nat, owner: Owner): Step {
    match FindOwner(s.book, owner)
    case None => Step(s, [CancelRejected(owner.client, ticker, owner.clientOrderId)], [])
    case Some(o) =>
      Step(s.(book := s.book.With(o.side, Remove(s.book.On(o.side), o.id))),
           [Canceled(owner.client, ticker, owner.clientOrderId, o.id, o.side, o.price, o.qty)],
           [Cancel(ticker, o.id, o.side, o.price, 0, o.priority)])
  }

  // ----- what every step keeps

  ghost predicate StateOk(s: State) {
    WellFormed(s.book) && forall o :: InBook(s.book, o) ==> o.id < s.nextId
  }

  /** The same order, possibly with another quantity left. */
  ghost predicate SameOrder(x: Order<Owner>, y: Order<Owner>) {
    y == x.(qty := y.qty)
  }

  /** Every order of `c` is an order of `b`, possibly with less left. */
  ghost predicate Within(c: Book<Owner>, b: Book<Owner>) {
    forall y :: InBook(c, y) ==> exists x :: InBook(b, x) && SameOrder(x, y)
  }

  lemma {:induction false} WithinKeeps(c: Book<Owner>, b: Book<Owner>, n: nat, owner: Owner, side: Side, price: nat)
    requires Within(c, b)
    ensures (forall x :: InBook(b, x) ==> x.id < n) ==> forall y :: InBook(c, y) ==> y.id < n
    ensures FreshKey(b, owner) ==> FreshKey(c, owner)
    ensures OwnsSlot(b, side, price) ==> OwnsSlot(c, side, price)
  {
  }

  lemma {:induction false} WithinTransitive(d: Book<Owner>, c: Book<Owner>, b: Book<Owner>)
    requires Within(d, c) && Within(c, b)
    ensures Within(d, b)
  {
  }

  lemma {:induction false} DropFirstKeeps(b: Book<Owner>, side: Side)
    requires WellFormed(b) && b.On(side) != []
    ensures var c := b.With(side, b.On(side)[1..]); WellFormed(c) && Within(c, b)
  {
    var c := b.With(side, b.On(side)[1..]);
    forall y | InBook(c, y)
      ensures InBook(b, y) && SameOrder(y, y)
    {
    }
  }

  /** `ys` is `xs` with other positive quantities. */
  ghost predicate SameQueue(xs: seq<Order<Owner>>, ys: seq<Order<Owner>>) {
    |ys| == |xs| && forall i :: 0 <= i < |xs| ==> SameOrder(xs[i], ys[i]) && 0 < ys[i].qty
  }

  lemma {:induction false} SameQueueKeeps(side: Side, xs: seq<Order<Owner>>, ys: seq<Order<Owner>>,
                                          zs: seq<Order<Owner>>)
    requires Sorted(side, xs) && AllDiffer(xs, zs) && SameQueue(xs, ys)
    ensures Sorted(side, ys) && AllDiffer(ys, zs)
  {
  }

  lemma {:induction false} SameQueueWithin(b: Book<Owner>, side: Side, ys: seq<Order<Owner>>)
    requires SameQueue(b.On(side), ys)
    ensures Within(b.With(side, ys), b)
  {
    forall y | InBook(b.With(side, ys), y)
      ensures exists x :: InBook(b, x) && SameOrder(x, y)
    {
      if y in ys {
        var i :| 0 <= i < |ys| && ys[i] == y;
        assert b.On(side)[i] in b.On(side) && InBook(b, b.On(side)[i]);
      } else {
        assert InBook(b, y) && SameOrder(y, y);
      }
    }
  }

  lemma {:induction false} ReduceFirstKeeps(b: Book<Owner>, side: Side, qty: nat)
    requires WellFormed(b) && b.On(side) != [] && 0 < qty
    ensures var c := b.With(side, [b.On(side)[0].(qty := qty)] + b.On(side)[1..]); WellFormed(c) && Within(c, b)
  {
    var xs := b.On(side);
    var ys := [xs[0].(qty := qty)] + xs[1..];
    assert Sorted(side, xs) && SameQueue(xs, ys);
    hide Sorted, AllDiffer, Within;
    DifferFlip(b.bids, b.asks);
    SameQueueKeeps(side, xs, ys, b.On(Opposite(side)));
    DifferFlip(ys, b.On(Opposite(side)));
    SameQueueWithin(b, side, ys);
  }

  /** One fill as a change of the book: the best order leaves, or keeps its place with less. */
  function AfterHit(b: Book<Owner>, side: Side, fill: nat): Book<Owner>
    requires b.On(side) != [] && fill <= b.On(side)[0].qty
  {
    var xs := b.On(side);
    if fill == xs[0].qty then b.With(side, xs[1..]) else b.With(side, [xs[0].(qty := xs[0].qty - fill)] + xs[1..])
  }

  lemma {:induction false} HitKeeps(b: Book<Owner>, side: Side, fill: nat)
    requires WellFormed(b) && b.On(side) != [] && fill <= b.On(side)[0].qty
    ensures WellFormed(AfterHit(b, side, fill)) && Within(AfterHit(b, side, fill), b)
  {
    if fill == b.On(side)[0].qty {
      DropFirstKeeps(b, side);
    } else {
      ReduceFirstKeeps(b, side, b.On(side)[0].qty - fill);
    }
  }

  /** Matching keeps the book well formed, only consumes, and stops for one of its reasons. */
  lemma {:induction false} MatchKeeps(a: Aggressor, b: Book<Owner>, leaves: nat)
    requires WellFormed(b)
    ensures var m := Match(a, b.On(Opposite(a.side)), leaves);
      var c := b.With(Opposite(a.side), m.rest);
      && WellFormed(c) && Within(c, b) && m.leaves <= leaves
      && (0 < m.leaves ==> NothingCrosses(c, a.side, a.price))
    decreases |b.On(Opposite(a.side))|
  {
    var side := Opposite(a.side);
    var xs := b.On(side);
    if leaves != 0 && xs != [] && Crosses(a.side, a.price, xs[0].price) {
      var fill := Min(leaves, xs[0].qty);
      var c := AfterHit(b, side, fill);
      HitKeeps(b, side, fill);
      if fill == xs[0].qty {
        MatchKeeps(a, c, leaves - fill);
        WithinTransitive(c.With(side, Match(a, xs[1..], leaves - fill).rest), c, b);
      }
    } else {
      assert b.With(side, xs) == b;
      assert forall y :: InBook(b, y) ==> SameOrder(y, y);
    }
  }

  /** What an add leaves to rest comes last in time and crosses nothing. */
  lemma {:induction false} RestFits(s: State, a: Aggressor, qty: nat)
    requires StateOk(s) && FreshKey(s.book, a.owner) && a.id == s.nextId
    ensures var m := Match(a, s.book.On(Opposite(a.side)), qty);
      var c := s.book.With(Opposite(a.side), m.rest);
      var o := Order(a.owner, a.id, a.side, a.price, m.leaves, LastPriority(c.On(a.side), a.price) + 1);
      && WellFormed(c) && (forall x :: InBook(c, x) ==> x.id < s.nextId)
      && (0 < m.leaves ==> MayPlace(c, o))
  {
    MatchKeeps(a, s.book, qty);
    var m := Match(a, s.book.On(Opposite(a.side)), qty);
    var c := s.book.With(Opposite(a.side), m.rest);
    WithinKeeps(c, s.book, s.nextId, a.owner, a.side, a.price);
    LastPriorityIsLast(a.side, c.On(a.side), a.price);
  }

  lemma {:induction false} AddKeeps(s: State, ticker: nat, owner: Owner, side: Side, price: nat, qty: nat)
    requires StateOk(s) && FreshKey(s.book, owner)
    ensures StateOk(AddStep(s, ticker, owner, side, price, qty).state)
  {
    hide WellFormed, MayPlace, FreshKey, Match, Place, LastPriority;
    var a := Aggressor(ticker, owner, s.nextId, side, price);
    RestFits(s, a, qty);
    var m := Match(a, s.book.On(Opposite(side)), qty);
    var c := s.book.With(Opposite(side), m.rest);
    if m.leaves > 0 {
      var o := Order(owner, s.nextId, side, price, m.leaves, LastPriority(c.On(side), price) + 1);
      PlaceKeepsBook(c, o);
      PlaceKeepsIds(c, o, s.nextId);
    }
  }

  lemma {:induction false} PlaceKeepsIds(b: Book<Owner>, o: Order<Owner>, n: nat)
    requires (forall x :: InBook(b, x) ==> x.id < n) && o.id == n
    ensures forall x :: InBook(b.With(o.side, Place(b.On(o.side), o)), x) ==> x.id < n + 1
  {
    forall x | InBook(b.With(o.side, Place(b.On(o.side), o)), x)
      ensures x.id < n + 1
    {
      InPlace(b.On(o.side), o, x);
      assert InBook(b, x) || x == o;
    }
  }

  lemma {:induction false} FoundKey<K>(xs: seq<Order<K>>, key: K)
    ensures FindKey(xs, key).Some? ==> FindKey(xs, key).value in xs && FindKey(xs, key).value.key == key
    ensures FindKey(xs, key) == None <==> forall x :: x in xs ==> x.key != key
  {
    if xs != [] && xs[0].key != key {
      FoundKey(xs[1..], key);
    }
  }

  /** The owner's live order, or no such order: the key decides. */
  lemma {:induction false} FoundOwner(b: Book<Owner>, owner: Owner)
    requires WellFormed(b)
    ensures FindOwner(b, owner) == None <==> FreshKey(b, owner)
    ensures forall x :: InBook(b, x) && x.key == owner ==> FindOwner(b, owner) == Some(x)
    ensures FindOwner(b, owner).Some? ==> FindOwner(b, owner).value in b.On(FindOwner(b, owner).value.side)
  {
    FoundKey(b.bids, owner);
    FoundKey(b.asks, owner);
    forall x | InBook(b, x) && x.key == owner
      ensures FindOwner(b, owner) == Some(x)
    {
      if x in b.bids {
        OnlyOne(b.bids, x, FindKey(b.bids, owner).value);
      } else {
        var i :| 0 <= i < |b.asks| && b.asks[i] == x;
        assert forall k :: 0 <= k < |b.bids| ==> Differ(b.bids[k], b.asks[i]);
        OnlyOne(b.asks, x, FindKey(b.asks, owner).value);
      }
    }
  }

  lemma {:induction false} CancelKeeps(s: State, ticker: nat, owner: Owner)
    requires StateOk(s)
    ensures StateOk(CancelStep(s, ticker, owner).state)
  {
    var o := FindOwner(s.book, owner);
    if o.Some? {
      RemoveKeepsBook(s.book, o.value.side, o.value.id);
      assert forall x :: InBook(CancelStep(s, ticker, owner).state.book, x) ==> InBook(s.book, x);
    }
  }
}
