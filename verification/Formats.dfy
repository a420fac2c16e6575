/** The records on the wire and what they mean to the engine and to its subscribers. */
module Formats {
  import opened Types
  import opened Messages
  import opened Matching
  import opened Runs
  import opened Replication
  import opened Wire
  import opened Protocol

  // A numbered market update: sequence number, type, order id, ticker, side, price,
  // quantity, priority.
  const UPDATE: seq<nat> := [8, 1, 8, 4, 1, 8, 4, 8]

  /** A side is one signed byte: 1 for buy, -1 for sell, 0 for none. */
  function SideCode(side: Side): nat {
    if side.Buy? then 1 else 255
  }

  function SideOf(code: nat): Side {
    if code == 1 then Buy else Sell
  }

  // ----- requests

  function RequestFields(r: TickerRequest): Message {
    match r.request
    case NewOrder(owner, side, price, qty) =>
      [1, owner.client, r.ticker, owner.clientOrderId, SideCode(side), price, qty]
    case CancelOrder(owner) =>
      [2, owner.client, r.ticker, owner.clientOrderId, 0, PRICE_INVALID, QTY_INVALID]
  }

  /** The engine looks at the type first; any type but these two stops the program, and a
      side is taken for granted. */
  function RequestOf(m: Message): Option<TickerRequest>
    requires |m| + 1 == |REQUEST|
  {
    if m[0] == 1 then Some(TickerRequest(m[2], NewOrder(Owner(m[1], m[3]), SideOf(m[4]), m[5], m[6])))
    else if m[0] == 2 then Some(TickerRequest(m[2], CancelOrder(Owner(m[1], m[3]))))
    else None
  }

  // ----- responses

  function ResponseFields(r: ClientResponse): Message {
    match r
    case Accepted(client, ticker, coid, id, side, price, exec, leaves) =>
      [1, client, ticker, coid, id, SideCode(side), price, exec, leaves]
    case Canceled(client, ticker, coid, id, side, price, leaves) =>
      [2, client, ticker, coid, id, SideCode(side), price, QTY_INVALID, leaves]
    case Filled(client, ticker, coid, id, side, price, exec, leaves) =>
      [3, client, ticker, coid, id, SideCode(side), price, exec, leaves]
    case CancelRejected(client, ticker, coid) =>
      [4, client, ticker, coid, ORDER_ID_INVALID, 0, PRICE_INVALID, QTY_INVALID, QTY_INVALID]
  }

  function ResponseOf(m: Message): Option<ClientResponse>
    requires |m| + 1 == |RESPONSE|
  {
    if m[0] == 1 then Some(Accepted(m[1], m[2], m[3], m[4], SideOf(m[5]), m[6], m[7], m[8]))
    else if m[0] == 2 then Some(Canceled(m[1], m[2], m[3], m[4], SideOf(m[5]), m[6], m[8]))
    else if m[0] == 3 then Some(Filled(m[1], m[2], m[3], m[4], SideOf(m[5]), m[6], m[7], m[8]))
    else if m[0] == 4 then Some(CancelRejected(m[1], m[2], m[3]))
    else None
  }

  // ----- market updates

  function UpdateFields(u: MarketUpdate): Message {
    match u
    case Clear(t) => [1, ORDER_ID_INVALID, t, 0, PRICE_INVALID, QTY_INVALID, PRIORITY_INVALID]
    case Add(t, id, side, price, qty, priority) => [2, id, t, SideCode(side), price, qty, priority]
    case Modify(t, id, side, price, qty, priority) => [3, id, t, SideCode(side), price, qty, priority]
    case Cancel(t, id, side, price, qty, priority) => [4, id, t, SideCode(side), price, qty, priority]
    case Trade(t, side, price, qty) => [5, ORDER_ID_INVALID, t, SideCode(side), price, qty, PRIORITY_INVALID]
    case SnapshotStart(stamp) => [6, stamp, TICKER_ID_INVALID, 0, PRICE_INVALID, QTY_INVALID, PRIORITY_INVALID]
    case SnapshotEnd(stamp) => [7, stamp, TICKER_ID_INVALID, 0, PRICE_INVALID, QTY_INVALID, PRIORITY_INVALID]
  }

  function UpdateOf(m: Message): Option<MarketUpdate>
    requires |m| + 1 == |UPDATE|
  {
    if m[0] == 1 then Some(Clear(m[2]))
    else if m[0] == 2 then Some(Add(m[2], m[1], SideOf(m[3]), m[4], m[5], m[6]))
    else if m[0] == 3 then Some(Modify(m[2], m[1], SideOf(m[3]), m[4], m[5], m[6]))
    else if m[0] == 4 then Some(Cancel(m[2], m[1], SideOf(m[3]), m[4], m[5], m[6]))
    else if m[0] == 5 then Some(Trade(m[2], SideOf(m[3]), m[4], m[5]))
    else if m[0] == 6 then Some(SnapshotStart(m[1]))
    else if m[0] == 7 then Some(SnapshotEnd(m[1]))
    else None
  }

  // ----- encoding and decoding

  lemma {:induction false} FrameReadsBack(k: nat, m: Message, widths: seq<nat>)
    requires Fits([k] + m, widths) && widths != []
    ensures |m| + 1 == |widths| && Read(Frame(k, m, widths), widths) == (k, m)
  {
    assert |[k] + m| == |widths|;
    DecodeEncode([k] + m, widths);
    assert ([k] + m)[1..] == m;
  }

  /** A request that fits its layout is decoded to the same request. */
  lemma {:induction false} RequestRoundTrip(k: nat, r: TickerRequest)
    requires Fits([k] + RequestFields(r), REQUEST)
    ensures |RequestFields(r)| + 1 == |REQUEST|
    ensures var back := Read(Frame(k, RequestFields(r), REQUEST), REQUEST);
      back.0 == k && |back.1| + 1 == |REQUEST| && RequestOf(back.1) == Some(r)
  {
    FrameReadsBack(k, RequestFields(r), REQUEST);
  }

  lemma {:induction false} ResponseMeans(r: ClientResponse)
    ensures |ResponseFields(r)| + 1 == |RESPONSE| && ClientOf(ResponseFields(r)) == r.client
    ensures ResponseOf(ResponseFields(r)) == Some(r)
  {
  }

  lemma {:induction false} ResponseRoundTrip(k: nat, r: ClientResponse)
    requires Fits([k] + ResponseFields(r), RESPONSE)
    ensures |ResponseFields(r)| + 1 == |RESPONSE| && ClientOf(ResponseFields(r)) == r.client
    ensures var back := Read(Frame(k, ResponseFields(r), RESPONSE), RESPONSE);
      back.0 == k && |back.1| + 1 == |RESPONSE| && ResponseOf(back.1) == Some(r)
  {
    hide ResponseFields, ResponseOf, Fits;
    ResponseMeans(r);
    FrameReadsBack(k, ResponseFields(r), RESPONSE);
  }

  lemma {:induction false} UpdateRoundTrip(k: nat, u: MarketUpdate)
    requires Fits([k] + UpdateFields(u), UPDATE)
    ensures |UpdateFields(u)| + 1 == |UPDATE|
    ensures var back := Read(Frame(k, UpdateFields(u), UPDATE), UPDATE);
      back.0 == k && |back.1| + 1 == |UPDATE| && UpdateOf(back.1) == Some(u)
  {
    FrameReadsBack(k, UpdateFields(u), UPDATE);
  }
}
