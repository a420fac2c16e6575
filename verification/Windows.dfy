/** The window of live prices, within which the shared price index is unambiguous. */
module Windows {
  import opened Types
  import opened Orders

  /** All live prices lie among 256 consecutive ones. */
  ghost predicate Windowed<K(!new)>(b: Book<K>, low: nat) {
    forall o :: InBook(b, o) ==> low <= o.price < low + PRICE_LEVELS
  }

  /** Live prices that share the slot of `price` are equal to it. */
  ghost predicate InWindow<K(!new)>(b: Book<K>, price: nat) {
    forall o :: InBook(b, o) && Slot(o.price) == Slot(price) ==> o.price == price
  }

  /** No two different live prices share a slot. */
  ghost predicate Unshared<K(!new)>(b: Book<K>) {
    forall x, y :: InBook(b, x) && InBook(b, y) && Slot(x.price) == Slot(y.price) ==> x.price == y.price
  }

  /** The slot of a price that does not cross belongs to that price on that side, or to nothing,
      exactly when no other live price shares it. */
  lemma {:induction false} UncrossedOwnsSlot<K(!new)>(b: Book<K>, side: Side, price: nat)
    requires WellFormed(b) && NothingCrosses(b, side, price)
    ensures OwnsSlot(b, side, price) <==> InWindow(b, price)
  {
    NothingCrossesAny(b, side, price);
    forall o | InBook(b, o) && o.price == price
      ensures o.side == side
    {
      assert o in b.On(side) ==> Live(side, o);
    }
  }

  /** In a window that takes in the price that is so. */
  lemma {:induction false} WindowOwnsSlot<K(!new)>(b: Book<K>, low: nat, side: Side, price: nat)
    requires WellFormed(b) && Windowed(b, low) && low <= price < low + PRICE_LEVELS
    ensures InWindow(b, price)
    ensures NothingCrosses(b, side, price) ==> OwnsSlot(b, side, price)
  {
    forall o | InBook(b, o) && Slot(o.price) == Slot(price)
      ensures o.price == price
    {
      SlotsInWindow(low, o.price, price);
    }
    if NothingCrosses(b, side, price) {
      UncrossedOwnsSlot(b, side, price);
    }
  }

  /** A price is live on at most one side. */
  lemma {:induction false} OneSideOnly<K>(b: Book<K>, x: Order<K>, y: Order<K>)
    requires WellFormed(b) && InBook(b, x) && InBook(b, y) && x.price == y.price
    ensures x.side == y.side && (x in b.bids <==> y in b.bids)
  {
  }
}
