/** Names shared by every component. Prices, ids, priorities and quantities are
    unsigned in the source; the one place where a sum can leave its type, the cached
    best quantity, states the wrap-around explicitly. */
module Types {

  // The third enumerator, INVALID, never names a side of a book.
  datatype Side = Buy | Sell

  datatype Option<+T> = None | Some(value: T)

  const PRICE_LEVELS: nat := 256

  // Client ids and client order ids index arrays of these sizes.
  const MAX_CLIENTS: nat := 256

  const MAX_ORDER_IDS: nat := 1024 * 1024

  const QTY_MODULUS: nat := 0x1_0000_0000

  const PRICE_INVALID: nat := 0xFFFF_FFFF_FFFF_FFFF

  const PRIORITY_INVALID: nat := 0xFFFF_FFFF_FFFF_FFFF

  const QTY_INVALID: nat := 0xFFFF_FFFF

  const ORDER_ID_INVALID: nat := 0xFFFF_FFFF_FFFF_FFFF

  const TICKER_ID_INVALID: nat := 0xFFFF_FFFF

  function Opposite(side: Side): Side {
    if side.Buy? then Sell else Buy
  }

  /** Price p is strictly more aggressive than price q. */
  predicate Better(side: Side, p: nat, q: nat) {
    if side.Buy? then p > q else p < q
  }

  /** An incoming order on `side` limited at `limit` may trade at `price`. */
  predicate Crosses(side: Side, limit: nat, price: nat) {
    if side.Buy? then price <= limit else limit <= price
  }

  function Min(a: nat, b: nat): nat {
    if a <= b then a else b
  }

  /** The entry of the price index shared by all prices with this remainder. */
  function Slot(price: nat): nat {
    price % PRICE_LEVELS
  }

  /** It is the remainder after division by 256. */
  lemma {:induction false} SlotIsRemainder(price: nat)
    ensures Slot(price) < 256 && price == 256 * (price / 256) + Slot(price)
  {
  }

  /** Inside a window of 256 consecutive prices a slot stands for one price. */
  lemma {:induction false} SlotsInWindow(low: nat, p: nat, q: nat)
    requires low <= p < low + PRICE_LEVELS && low <= q < low + PRICE_LEVELS
    ensures Slot(p) == Slot(q) <==> p == q
  {
  }
}
