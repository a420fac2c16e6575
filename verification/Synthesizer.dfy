/** The snapshot synthesizer: it folds the numbered incrementals and sends snapshots. */
module Synthesizers {
  import opened Messages
  import opened MarketData
  import opened Snapshots
  import opened Recovery
  import opened LFQueues

  lemma {:induction false} ListingSplits(orders: Table, lo: nat, mid: nat, hi: nat)
    requires lo <= mid <= hi
    ensures Listing(orders, lo, hi) == Listing(orders, lo, mid) + Listing(orders, mid, hi)
    decreases mid - lo
  {
    if lo < mid {
      ListingSplits(orders, lo + 1, mid, hi);
    }
  }

  // ----- a numbered stream

  /** What the messages say, without their numbers. */
  function Updates(msgs: seq<(nat, MarketUpdate)>): (us: seq<MarketUpdate>)
    ensures |us| == |msgs|
  {
    seq(|msgs|, i requires 0 <= i < |msgs| => msgs[i].1)
  }

  /** No assert fires while the messages are folded: not that an order is there or not, not on
      its side, and not on the number. */
  ghost predicate NoAssertFires(tables: seq<Table>, last: nat, msgs: seq<(nat, MarketUpdate)>)
    decreases msgs
  {
    msgs == [] || (
      && Acceptable(tables, msgs[0].1) && msgs[0].0 == last + 1
      && NoAssertFires(NoteIn(tables, msgs[0].1), last + 1, msgs[1..]))
  }

  /** That is so exactly when the messages are numbered on without a gap and each update is
      acceptable in its turn. */
  lemma {:induction false} NoAssertIff(tables: seq<Table>, last: nat, msgs: seq<(nat, MarketUpdate)>)
    ensures NoAssertFires(tables, last, msgs) <==>
      msgs == Numbered(Updates(msgs), last + 1) && AllAcceptable(tables, Updates(msgs))
    decreases msgs
  {
    hide Acceptable, NoteIn;
    if msgs != [] {
      var rest := msgs[1..];
      assert Updates(msgs)[1..] == Updates(rest) && Updates(msgs)[0] == msgs[0].1;
      NumberedSplits([msgs[0].1], Updates(rest), last + 1);
      assert Updates(msgs) == [msgs[0].1] + Updates(rest) && msgs == [msgs[0]] + rest;
      assert Numbered([msgs[0].1], last + 1) == [(last + 1, msgs[0].1)];
      if Acceptable(tables, msgs[0].1) {
        NoAssertIff(NoteIn(tables, msgs[0].1), last + 1, rest);
      }
    }
  }

  lemma {:induction false} AfterSplits(tables: seq<Table>, us: seq<MarketUpdate>, vs: seq<MarketUpdate>)
    requires AllAcceptable(tables, us)
    ensures AllAcceptable(tables, us + vs) <==> AllAcceptable(After(tables, us), vs)
    ensures After(tables, us + vs) == After(After(tables, us), vs)
    decreases us
  {
    hide Acceptable, NoteIn;
    if us == [] {
      assert us + vs == vs;
    } else {
      AfterSplits(NoteIn(tables, us[0]), us[1..], vs);
      assert (us + vs)[1..] == us[1..] + vs;
    }
  }

  /** A stretch of an exchange's history, numbered on, lets none of the asserts fire. */
  lemma {:induction false} HistoryFires(n: nat, ids: nat, h: seq<MarketUpdate>, us: seq<MarketUpdate>)
    requires History(n, ids, h + us)
    ensures NoAssertFires(After(EmptyTables(n), h), |h|, Numbered(us, |h| + 1))
    ensures After(After(EmptyTables(n), h), us) == After(EmptyTables(n), h + us)
  {
    hide After, AllAcceptable, Acceptable, NoteIn;
    HistoryAcceptable(n, ids, h + us);
    HistoryPrefix(n, ids, h + us, |h|);
    assert (h + us)[..|h|] == h;
    HistoryAcceptable(n, ids, h);
    AfterSplits(EmptyTables(n), h, us);
    var msgs := Numbered(us, |h| + 1);
    assert Updates(msgs) == us;
    NoAssertIff(After(EmptyTables(n), h), |h|, msgs);
  }

  lemma {:induction false} HistoryAcceptable(n: nat, ids: nat, h: seq<MarketUpdate>)
    requires History(n, ids, h)
    ensures AllAcceptable(EmptyTables(n), h)
  {
    assert WellFormedMarket(EmptyMarket(n)) && TablesMirror(EmptyTables(n), EmptyMarket(n));
    StreamMirrors(EmptyTables(n), EmptyMarket(n), h);
  }

  class SnapshotSynthesizer {
    const ids: nat
    const tickerOrders: array<Table>
    var lastIncSeqNum: nat
    var sent: seq<(nat, MarketUpdate)>

    constructor (tickers: nat, ids: nat)
      ensures fresh(tickerOrders) && tickerOrders[..] == EmptyTables(tickers)
      ensures this.ids == ids && lastIncSeqNum == 0 && sent == [] && Follows([])
    {
      this.ids := ids;
      tickerOrders := new Table[tickers](_ => map[]);
      lastIncSeqNum, sent := 0, [];
      new;
      assert tickerOrders[..] == EmptyTables(tickers);
    }

    /** `ok` is false when one of the asserts stops the program. */
    method AddToSnapshot(seqNum: nat, u: MarketUpdate) returns (ok: bool)
      requires !u.SnapshotStart? && !u.SnapshotEnd? && u.ticker < tickerOrders.Length
      modifies this`lastIncSeqNum, tickerOrders
      ensures ok <==> Acceptable(old(tickerOrders[..]), u) && seqNum == old(lastIncSeqNum) + 1
      ensures ok ==> tickerOrders[..] == NoteIn(old(tickerOrders[..]), u) && lastIncSeqNum == seqNum
    {
      var orders := tickerOrders[u.ticker];
      match u {
        case Add(_, id, _, _, _, _) =>
          if id in orders {
            return false;
          }
          tickerOrders[u.ticker] := orders[id := u];
        case Modify(_, id, side, price, qty, _) =>
          if id !in orders || !orders[id].Add? || orders[id].id != id || orders[id].side != side {
            return false;
          }
          tickerOrders[u.ticker] := orders[id := Changed(orders[id], price, qty)];
        case Cancel(_, id, side, _, _, _) =>
          if id !in orders || !orders[id].Add? || orders[id].id != id || orders[id].side != side {
            return false;
          }
          tickerOrders[u.ticker] := orders - {id};
        case _ =>
      }
      if seqNum != lastIncSeqNum + 1 {
        return false;
      }
      lastIncSeqNum := seqNum;
      return true;
    }

    /** Everything up to update |h| of the history has been folded. */
    ghost predicate Follows(h: seq<MarketUpdate>)
      reads this, tickerOrders
    {
      tickerOrders[..] == After(EmptyTables(tickerOrders.Length), h) && lastIncSeqNum == |h|
    }

    /** Drain the queue. `ok` is false when one of the asserts stops the program. */
    method Drain(queue: LFQueue<(nat, MarketUpdate)>) returns (ok: bool)
      requires queue.Valid() && queue as object != this && queue.store as object != tickerOrders as object
      requires forall i :: 0 <= i < |queue.contents| ==>
        var u := queue.contents[i].1; !u.SnapshotStart? && !u.SnapshotEnd? && u.ticker < tickerOrders.Length
      modifies this`lastIncSeqNum, tickerOrders, queue
      ensures ok <==> NoAssertFires(old(tickerOrders[..]), old(lastIncSeqNum), old(queue.contents))
      ensures ok
        ==> queue.Valid() && queue.contents == [] && lastIncSeqNum == old(lastIncSeqNum) + |old(queue.contents)|
      ensures ok ==> tickerOrders[..] == After(old(tickerOrders[..]), Updates(old(queue.contents)))
    {
      hide Holds, SlotOf, Acceptable, NoteIn;
      ghost var all, tables, last := queue.contents, tickerOrders[..], lastIncSeqNum;
      ghost var k := 0;
      var slot := queue.GetNextToRead();
      while slot != -1
        invariant queue.Valid() && k <= |all| && queue.contents == all[k..] && lastIncSeqNum == last + k
        invariant slot == -1 <==> queue.contents == []
        invariant slot != -1 ==> 0 <= slot < queue.store.Length && queue.store[slot] == queue.contents[0]
        invariant NoAssertFires(tables, last, all) <==> NoAssertFires(tickerOrders[..], lastIncSeqNum, all[k..])
        invariant After(tables, Updates(all)) == After(tickerOrders[..], Updates(all[k..]))
        decreases |all| - k
      {
        assert all[k..][1..] == all[k + 1..] && Updates(all[k..])[1..] == Updates(all[k + 1..]);
        ok := AddToSnapshot(queue.store[slot].0, queue.store[slot].1);
        if !ok {
          return false;
        }
        ok := queue.UpdateReadIndex();
        k := k + 1;
        slot := queue.GetNextToRead();
      }
      ok := true;
    }

    /** One turn of the loop: the queue is drained and, when it is time, a snapshot goes out. On the
        stream of an exchange no assert fires, and the snapshot is that of all the history read. */
    method Turn(queue: LFQueue<(nat, MarketUpdate)>, due: bool, ghost h: seq<MarketUpdate>, ghost us: seq<MarketUpdate>)
      returns (ok: bool)
      requires Follows(h) && History(tickerOrders.Length, ids, h + us) && queue.contents == Numbered(us, |h| + 1)
      requires queue.Valid() && queue as object != this && queue.store as object != tickerOrders as object
      modifies this`lastIncSeqNum, this`sent, tickerOrders, queue
      ensures ok && queue.Valid() && queue.contents == [] && Follows(h + us)
      ensures sent == old(sent)
        + if due then Numbered(SnapshotAt(tickerOrders.Length, ids, h + us, |h + us|), 0) else []
    {
      hide Holds, SlotOf, After, NoAssertFires, History, Snapshot;
      HistoryFires(tickerOrders.Length, ids, h, us);
      HistoryAddressed(tickerOrders.Length, ids, h, us);
      assert Updates(Numbered(us, |h| + 1)) == us;
      ok := Drain(queue);
      if due {
        PublishSnapshot();
        assert (h + us)[..|h + us|] == h + us;
      }
    }

    static lemma {:induction false} HistoryAddressed(n: nat, ids: nat, h: seq<MarketUpdate>, us: seq<MarketUpdate>)
      requires History(n, ids, h + us)
      ensures forall i :: 0 <= i < |us| ==> !us[i].SnapshotStart? && !us[i].SnapshotEnd? && us[i].ticker < n
    {
      AllAddressed(EmptyMarket(n), h + us);
      assert forall i :: 0 <= i < |us| ==> us[i] == (h + us)[|h| + i];
    }

    static lemma {:induction false} AllAddressed(m: Market, us: seq<MarketUpdate>)
      requires AllFit(m, us)
      ensures forall i :: 0 <= i < |us| ==> !us[i].SnapshotStart? && !us[i].SnapshotEnd? && us[i].ticker < |m|
      decreases us
    {
      hide Fits;
      if us != [] {
        AllAddressed(ApplyIn(m, us[0]), us[1..]);
      }
    }

    method Send(size: nat, u: MarketUpdate) returns (next: nat)
      modifies this`sent
      ensures next == size + 1 && sent == old(sent) + Numbered([u], size)
    {
      sent := sent + [(size, u)];
      next := size + 1;
    }

    /** The live orders of one ticker, by ascending id. */
    method SendOrders(orders: Table, size: nat) returns (next: nat)
      modifies this`sent
      ensures var us := Listing(orders, 0, ids);
        next == size + |us| && sent == old(sent) + Numbered(us, size)
    {
      next := size;
      for id := 0 to ids
        invariant next == size + |Listing(orders, 0, id)|
        invariant sent == old(sent) + Numbered(Listing(orders, 0, id), size)
      {
        ListingSplits(orders, 0, id, id + 1);
        if id in orders {
          assert Listing(orders, id, id + 1) == [orders[id]];
          NumberedSplits(Listing(orders, 0, id), [orders[id]], size);
          next := Send(next, orders[id]);
        }
      }
    }

    method PublishSnapshot()
      modifies this`sent
      ensures sent == old(sent) + Numbered(Snapshot(tickerOrders[..], ids, lastIncSeqNum), 0)
    {
      var size := Send(0, SnapshotStart(lastIncSeqNum));
      ghost var us := [SnapshotStart(lastIncSeqNum)];
      for t := 0 to tickerOrders.Length
        invariant us == [SnapshotStart(lastIncSeqNum)] + Body(tickerOrders[..t], ids)
        invariant size == |us| && sent == old(sent) + Numbered(us, 0)
      {
        NumberedSplits(us, [Clear(t)], 0);
        size := Send(size, Clear(t));
        NumberedSplits(us + [Clear(t)], Listing(tickerOrders[t], 0, ids), 0);
        size := SendOrders(tickerOrders[t], size);
        assert tickerOrders[..t + 1][..t] == tickerOrders[..t];
        us := us + [Clear(t)] + Listing(tickerOrders[t], 0, ids);
      }
      assert tickerOrders[..tickerOrders.Length] == tickerOrders[..];
      NumberedSplits(us, [SnapshotEnd(lastIncSeqNum)], 0);
      size := Send(size, SnapshotEnd(lastIncSeqNum));
    }
  }
}
