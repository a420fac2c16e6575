/** What the exchange says: to clients, and on the market data stream. */
module Messages {
  import opened Types

  datatype ClientResponse =
    | Accepted(client: nat, ticker: nat, clientOrderId: nat, id: nat, side: Side, price: nat, execQty: nat,
      leavesQty: nat)
    | Filled(client: nat, ticker: nat, clientOrderId: nat, id: nat, side: Side, price: nat, execQty: nat,
      leavesQty: nat)
    | Canceled(client: nat, ticker: nat, clientOrderId: nat, id: nat, side: Side, price: nat, leavesQty: nat)
    | CancelRejected(client: nat, ticker: nat, clientOrderId: nat)

  // The fields an update does not set are absent. The stamp of a snapshot travels in the
  // order id of its first and last message.
  datatype MarketUpdate =
    | Clear(ticker: nat)
    | Add(ticker: nat, id: nat, side: Side, price: nat, qty: nat, priority: nat)
    | Modify(ticker: nat, id: nat, side: Side, price: nat, qty: nat, priority: nat)
    | Cancel(ticker: nat, id: nat, side: Side, price: nat, qty: nat, priority: nat)
    | Trade(ticker: nat, side: Side, price: nat, qty: nat)
    | SnapshotStart(stamp: nat)
    | SnapshotEnd(stamp: nat)

  /** Messages of one stream with their sequence numbers, counted from `first`. */
  function Numbered<T>(us: seq<T>, first: nat): (r: seq<(nat, T)>)
    ensures |r| == |us|
  {
    seq(|us|, i requires 0 <= i < |us| => (first + i, us[i]))
  }

  lemma {:induction false} NumberedSplits<T>(us: seq<T>, vs: seq<T>, first: nat)
    ensures Numbered(us + vs, first) == Numbered(us, first) + Numbered(vs, first + |us|)
  {
  }
}
