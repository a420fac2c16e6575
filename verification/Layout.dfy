/** Where the fields of the packed records lie, byte by byte, and how a number is spread over its
    bytes. */
module Layouts {
  import opened Messages
  import opened Replication
  import opened Wire
  import opened Protocol
  import opened Formats

  /** The unsigned numbers of 8, 32 and 64 bits at an offset, least significant byte first. */
  function U8(bs: Bytes, o: nat): nat
    requires o + 1 <= |bs|
  {
    bs[o]
  }

  function U32(bs: Bytes, o: nat): nat
    requires o + 4 <= |bs|
  {
    var b0: nat, b1: nat, b2: nat, b3: nat := bs[o], bs[o + 1], bs[o + 2], bs[o + 3];
    b0 + 0x100 * b1 + 0x1_0000 * b2 + 0x100_0000 * b3
  }

  function U64(bs: Bytes, o: nat): nat
    requires o + 8 <= |bs|
  {
    U32(bs, o) + 0x1_0000_0000 * U32(bs, o + 4)
  }

  function Offset(widths: seq<nat>, i: nat): nat
    requires i <= |widths|
  {
    if i == 0 then 0 else widths[0] + Offset(widths[1..], i - 1)
  }

  /** A field lies behind the widths of the fields before it. */
  lemma {:induction false} FieldBytes(fields: seq<nat>, widths: seq<nat>, i: nat)
    requires Wire.Fits(fields, widths) && i < |widths|
    ensures var o := Offset(widths, i);
      && o + widths[i] <= Size(widths) && |Encode(fields, widths)| == Size(widths)
      && Value(Encode(fields, widths)[o..o + widths[i]]) == fields[i]
  {
    hide Little, Value;
    var first, rest := Little(fields[0], widths[0]), Encode(fields[1..], widths[1..]);
    assert Encode(fields, widths) == first + rest;
    if i == 0 {
      assert (first + rest)[..widths[0]] == first;
      ValueOfLittle(fields[0], widths[0]);
    } else {
      FieldBytes(fields[1..], widths[1..], i - 1);
      Behind(first, rest, Offset(widths[1..], i - 1), widths[i]);
    }
  }

  lemma {:induction false} Behind(a: Bytes, b: Bytes, o: nat, n: nat)
    requires o + n <= |b|
    ensures (a + b)[|a| + o..|a| + o + n] == b[o..o + n]
  {
  }

  lemma {:induction false} ValueSplits(bs: Bytes)
    requires bs != []
    ensures Value(bs) == bs[0] + 256 * Value(bs[1..])
  {
  }

  lemma {:induction false} ValueOf4(bs: Bytes, o: nat)
    requires o + 4 <= |bs|
    ensures Value(bs[o..o + 4]) == U32(bs, o)
  {
    hide Value;
    var s := bs[o..o + 4];
    ValueSplits(s);
    ValueSplits(s[1..]);
    ValueSplits(s[2..]);
    ValueSplits(s[3..]);
    assert s[1..][1..] == s[2..] && s[2..][1..] == s[3..] && s[3..][1..] == [];
    NoValue();
  }

  lemma {:induction false} NoValue()
    ensures Value([]) == 0
  {
  }

  lemma {:induction false} ValueOf8(bs: Bytes, o: nat)
    requires o + 8 <= |bs|
    ensures Value(bs[o..o + 8]) == U64(bs, o)
  {
    hide Value;
    var s := bs[o..o + 8];
    ValueSplits(s);
    ValueSplits(s[1..]);
    ValueSplits(s[2..]);
    ValueSplits(s[3..]);
    assert s[1..][1..] == s[2..] && s[2..][1..] == s[3..] && s[3..][1..] == s[4..];
    assert s[4..] == bs[o + 4..o + 4 + 4];
    ValueOf4(bs, o + 4);
  }

  lemma {:induction false} ByteField(fields: seq<nat>, widths: seq<nat>, i: nat)
    requires Wire.Fits(fields, widths) && i < |widths| && widths[i] == 1
    ensures Offset(widths, i) + 1 <= |Encode(fields, widths)|
      && U8(Encode(fields, widths), Offset(widths, i)) == fields[i]
  {
    hide Encode, Offset, Size;
    FieldBytes(fields, widths, i);
    var bs, o := Encode(fields, widths), Offset(widths, i);
    assert bs[o..o + 1][1..] == [];
  }

  lemma {:induction false} Field32(fields: seq<nat>, widths: seq<nat>, i: nat)
    requires Wire.Fits(fields, widths) && i < |widths| && widths[i] == 4
    ensures Offset(widths, i) + 4 <= |Encode(fields, widths)|
      && U32(Encode(fields, widths), Offset(widths, i)) == fields[i]
  {
    hide Encode, Offset, Size, Value, U32;
    FieldBytes(fields, widths, i);
    ValueOf4(Encode(fields, widths), Offset(widths, i));
  }

  lemma {:induction false} Field64(fields: seq<nat>, widths: seq<nat>, i: nat)
    requires Wire.Fits(fields, widths) && i < |widths| && widths[i] == 8
    ensures Offset(widths, i) + 8 <= |Encode(fields, widths)|
      && U64(Encode(fields, widths), Offset(widths, i)) == fields[i]
  {
    hide Encode, Offset, Size, Value, U64;
    FieldBytes(fields, widths, i);
    ValueOf8(Encode(fields, widths), Offset(widths, i));
  }

  // ----- requests

  lemma {:induction false} RequestOffsets()
    ensures |REQUEST| == 8 && Size(REQUEST) == 38
    ensures REQUEST[0] == 8 && Offset(REQUEST, 0) == 0
    ensures REQUEST[1] == 1 && Offset(REQUEST, 1) == 8
    ensures REQUEST[2] == 4 && Offset(REQUEST, 2) == 9
    ensures REQUEST[3] == 4 && Offset(REQUEST, 3) == 13
    ensures REQUEST[4] == 8 && Offset(REQUEST, 4) == 17
    ensures REQUEST[5] == 1 && Offset(REQUEST, 5) == 25
    ensures REQUEST[6] == 8 && Offset(REQUEST, 6) == 26
    ensures REQUEST[7] == 4 && Offset(REQUEST, 7) == 34
  {
  }

  /** A request in its packed record behind its number: NEW is 1 and CANCEL is 2, buy is 1 and sell
      -1 in eight bits; a cancel carries no side, price or quantity. */
  ghost predicate RequestAt(bs: Bytes, k: nat, r: TickerRequest) {
    && |bs| == 38 && U64(bs, 0) == k && U32(bs, 13) == r.ticker
    && match r.request
       case NewOrder(owner, side, price, qty) =>
         && U8(bs, 8) == 1 && U32(bs, 9) == owner.client && U64(bs, 17) == owner.clientOrderId
         && U8(bs, 25) == (if side.Buy? then 1 else 255) && U64(bs, 26) == price && U32(bs, 34) == qty
       case CancelOrder(owner) =>
         && U8(bs, 8) == 2 && U32(bs, 9) == owner.client && U64(bs, 17) == owner.clientOrderId
         && U8(bs, 25) == 0 && U64(bs, 26) == 0xFFFF_FFFF_FFFF_FFFF && U32(bs, 34) == 0xFFFF_FFFF
  }

  lemma {:induction false} RequestFieldsAt(fields: seq<nat>)
    requires Wire.Fits(fields, REQUEST)
    ensures var bs := Encode(fields, REQUEST);
      && |fields| == 8 && |bs| == 38 && U64(bs, 0) == fields[0] && U8(bs, 8) == fields[1] && U32(bs, 9) == fields[2]
      && U32(bs, 13) == fields[3] && U64(bs, 17) == fields[4] && U8(bs, 25) == fields[5] && U64(bs, 26) == fields[6]
      && U32(bs, 34) == fields[7]
  {
    RequestOffsets();
    hide Encode, Size, Offset, U8, U32, U64;
    Field64(fields, REQUEST, 0);
    ByteField(fields, REQUEST, 1);
    Field32(fields, REQUEST, 2);
    Field32(fields, REQUEST, 3);
    Field64(fields, REQUEST, 4);
    ByteField(fields, REQUEST, 5);
    Field64(fields, REQUEST, 6);
    Field32(fields, REQUEST, 7);
  }

  lemma {:induction false} RequestLayout(k: nat, r: TickerRequest)
    requires Wire.Fits([k] + RequestFields(r), REQUEST)
    ensures |RequestFields(r)| + 1 == |REQUEST| && RequestAt(Frame(k, RequestFields(r), REQUEST), k, r)
    ensures ClientOf(RequestFields(r)) == r.request.owner.client
  {
    hide Encode, U8, U32, U64;
    RequestFieldsAt([k] + RequestFields(r));
  }

  // ----- responses

  lemma {:induction false} ResponseOffsets()
    ensures |RESPONSE| == 10 && Size(RESPONSE) == 50
    ensures RESPONSE[0] == 8 && Offset(RESPONSE, 0) == 0
    ensures RESPONSE[1] == 1 && Offset(RESPONSE, 1) == 8
    ensures RESPONSE[2] == 4 && Offset(RESPONSE, 2) == 9
    ensures RESPONSE[3] == 4 && Offset(RESPONSE, 3) == 13
    ensures RESPONSE[4] == 8 && Offset(RESPONSE, 4) == 17
    ensures RESPONSE[5] == 8 && Offset(RESPONSE, 5) == 25
    ensures RESPONSE[6] == 1 && Offset(RESPONSE, 6) == 33
    ensures RESPONSE[7] == 8 && Offset(RESPONSE, 7) == 34
    ensures RESPONSE[8] == 4 && Offset(RESPONSE, 8) == 42
    ensures RESPONSE[9] == 4 && Offset(RESPONSE, 9) == 46
  {
  }

  /** Type, client, ticker, both order ids, side, price, executed and remaining quantity, in a packed
      record behind its number. */
  ghost predicate ResponseAt(bs: Bytes, k: nat, code: nat, client: nat, ticker: nat, clientOrderId: nat, id: nat,
                             side: nat, price: nat, exec: nat, leaves: nat) {
    && |bs| == 50 && U64(bs, 0) == k && U8(bs, 8) == code && U32(bs, 9) == client && U32(bs, 13) == ticker
    && U64(bs, 17) == clientOrderId && U64(bs, 25) == id && U8(bs, 33) == side && U64(bs, 34) == price
    && U32(bs, 42) == exec && U32(bs, 46) == leaves
  }

  lemma {:induction false} ResponseFieldsAt(fields: seq<nat>)
    requires Wire.Fits(fields, RESPONSE)
    ensures |fields| == 10
    ensures ResponseAt(Encode(fields, RESPONSE), fields[0], fields[1], fields[2], fields[3], fields[4], fields[5],
                       fields[6], fields[7], fields[8], fields[9])
  {
    ResponseOffsets();
    hide Encode, Size, Offset, U8, U32, U64;
    Field64(fields, RESPONSE, 0);
    ByteField(fields, RESPONSE, 1);
    Field32(fields, RESPONSE, 2);
    Field32(fields, RESPONSE, 3);
    Field64(fields, RESPONSE, 4);
    Field64(fields, RESPONSE, 5);
    ByteField(fields, RESPONSE, 6);
    Field64(fields, RESPONSE, 7);
    Field32(fields, RESPONSE, 8);
    Field32(fields, RESPONSE, 9);
  }

  /** ACCEPTED is 1, CANCELED 2, FILLED 3, CANCEL_REJECTED 4. */
  lemma {:induction false} ResponseLayout(k: nat, r: ClientResponse)
    requires Wire.Fits([k] + ResponseFields(r), RESPONSE)
    ensures |ResponseFields(r)| + 1 == |RESPONSE|
    ensures var bs := Frame(k, ResponseFields(r), RESPONSE);
      match r
      case Accepted(client, ticker, coid, id, side, price, exec, leaves) =>
        ResponseAt(bs, k, 1, client, ticker, coid, id, if side.Buy? then 1 else 255, price, exec, leaves)
      case Canceled(client, ticker, coid, id, side, price, leaves) =>
        ResponseAt(bs, k, 2, client, ticker, coid, id, if side.Buy? then 1 else 255, price, 0xFFFF_FFFF, leaves)
      case Filled(client, ticker, coid, id, side, price, exec, leaves) =>
        ResponseAt(bs, k, 3, client, ticker, coid, id, if side.Buy? then 1 else 255, price, exec, leaves)
      case CancelRejected(client, ticker, coid) =>
        ResponseAt(bs, k, 4, client, ticker, coid, 0xFFFF_FFFF_FFFF_FFFF, 0, 0xFFFF_FFFF_FFFF_FFFF, 0xFFFF_FFFF,
          0xFFFF_FFFF)
  {
    hide Encode, ResponseAt;
    ResponseFieldsAt([k] + ResponseFields(r));
  }

  // ----- market updates

  lemma {:induction false} UpdateOffsets()
    ensures |UPDATE| == 8 && Size(UPDATE) == 42
    ensures UPDATE[0] == 8 && Offset(UPDATE, 0) == 0
    ensures UPDATE[1] == 1 && Offset(UPDATE, 1) == 8
    ensures UPDATE[2] == 8 && Offset(UPDATE, 2) == 9
    ensures UPDATE[3] == 4 && Offset(UPDATE, 3) == 17
    ensures UPDATE[4] == 1 && Offset(UPDATE, 4) == 21
    ensures UPDATE[5] == 8 && Offset(UPDATE, 5) == 22
    ensures UPDATE[6] == 4 && Offset(UPDATE, 6) == 30
    ensures UPDATE[7] == 8 && Offset(UPDATE, 7) == 34
  {
  }

  /** Type, order id, ticker, side, price, quantity and priority, in a packed record behind its
      number. */
  ghost predicate UpdateAt(bs: Bytes, k: nat, code: nat, id: nat, ticker: nat, side: nat, price: nat, qty: nat,
                           priority: nat) {
    && |bs| == 42 && U64(bs, 0) == k && U8(bs, 8) == code && U64(bs, 9) == id && U32(bs, 17) == ticker
    && U8(bs, 21) == side && U64(bs, 22) == price && U32(bs, 30) == qty && U64(bs, 34) == priority
  }

  lemma {:induction false} UpdateFieldsAt(fields: seq<nat>)
    requires Wire.Fits(fields, UPDATE)
    ensures |fields| == 8
    ensures UpdateAt(Encode(fields, UPDATE), fields[0], fields[1], fields[2], fields[3], fields[4], fields[5],
                     fields[6], fields[7])
  {
    UpdateOffsets();
    hide Encode, Size, Offset, U8, U32, U64;
    Field64(fields, UPDATE, 0);
    ByteField(fields, UPDATE, 1);
    Field64(fields, UPDATE, 2);
    Field32(fields, UPDATE, 3);
    ByteField(fields, UPDATE, 4);
    Field64(fields, UPDATE, 5);
    Field32(fields, UPDATE, 6);
    Field64(fields, UPDATE, 7);
  }

  /** CLEAR is 1, ADD 2, MODIFY 3, CANCEL 4, TRADE 5, SNAPSHOT_START 6, SNAPSHOT_END 7; the stamp of
      a snapshot travels as the order id. */
  lemma {:induction false} UpdateLayout(k: nat, u: MarketUpdate)
    requires Wire.Fits([k] + UpdateFields(u), UPDATE)
    ensures |UpdateFields(u)| + 1 == |UPDATE|
    ensures var bs := Frame(k, UpdateFields(u), UPDATE);
      var none, noQty := 0xFFFF_FFFF_FFFF_FFFF, 0xFFFF_FFFF;
      match u
      case Clear(t) => UpdateAt(bs, k, 1, none, t, 0, none, noQty, none)
      case Add(t, id, side, price, qty, priority) =>
        UpdateAt(bs, k, 2, id, t, if side.Buy? then 1 else 255, price, qty, priority)
      case Modify(t, id, side, price, qty, priority) =>
        UpdateAt(bs, k, 3, id, t, if side.Buy? then 1 else 255, price, qty, priority)
      case Cancel(t, id, side, price, qty, priority) =>
        UpdateAt(bs, k, 4, id, t, if side.Buy? then 1 else 255, price, qty, priority)
      case Trade(t, side, price, qty) => UpdateAt(bs, k, 5, none, t, if side.Buy? then 1 else 255, price, qty, none)
      case SnapshotStart(stamp) => UpdateAt(bs, k, 6, stamp, 0xFFFF_FFFF, 0, none, noQty, none)
      case SnapshotEnd(stamp) => UpdateAt(bs, k, 7, stamp, 0xFFFF_FFFF, 0, none, noQty, none)
  {
    hide Encode, UpdateAt;
    UpdateFieldsAt([k] + UpdateFields(u));
  }
}
