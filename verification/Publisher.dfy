/** The market data publisher: it numbers the exchange's updates, sends them, and passes the
    same numbered updates to the synthesizer. */
module Publishers {
  import opened Messages
  import opened LFQueues

  class MarketDataPublisher {
    const outgoing: LFQueue<MarketUpdate>
    const snapshot: LFQueue<(nat, MarketUpdate)>
    var nextIncSeqNum: nat
    var sent: seq<(nat, MarketUpdate)>
    ghost var published: seq<MarketUpdate>

    /** What has been sent is everything published, numbered 1, 2, 3, ... */
    ghost predicate Valid()
      reads this, outgoing, outgoing.store, snapshot, snapshot.store
    {
      && outgoing.Valid() && snapshot.Valid()
      && outgoing as object != snapshot as object && outgoing.store as object != snapshot.store as object
      && nextIncSeqNum == |published| + 1 && sent == Numbered(published, 1)
    }

    constructor (outgoing: LFQueue<MarketUpdate>, snapshot: LFQueue<(nat, MarketUpdate)>)
      requires outgoing.Valid() && snapshot.Valid()
      requires outgoing as object != snapshot as object && outgoing.store as object != snapshot.store as object
      ensures Valid() && this.outgoing == outgoing && this.snapshot == snapshot && published == []
    {
      this.outgoing, this.snapshot := outgoing, snapshot;
      nextIncSeqNum, sent, published := 1, [], [];
    }

    /** One turn: the update is read once for the socket, and once more after its slot is
        released. `ok` is false when the queue's assert stops the program. */
    method PublishNext(slot: nat) returns (ok: bool)
      requires Valid() && outgoing.contents != [] && slot < outgoing.store.Length
        && outgoing.store[slot] == outgoing.contents[0]
      requires |snapshot.contents| < snapshot.store.Length
      modifies this, outgoing, snapshot, snapshot.store
      ensures ok && Valid() && outgoing.contents == old(outgoing.contents)[1..]
      ensures published == old(published) + [old(outgoing.contents[0])]
      ensures snapshot.contents == old(snapshot.contents) + [(old(nextIncSeqNum), old(outgoing.contents[0]))]
    {
      NumberedSplits(published, [outgoing.contents[0]], 1);
      sent := sent + [(nextIncSeqNum, outgoing.store[slot])];
      ok := outgoing.UpdateReadIndex();
      var next := snapshot.GetNextToWriteTo();
      snapshot.Put(next, (nextIncSeqNum, outgoing.store[slot]));
      snapshot.UpdateWriteIndex();
      published := published + [outgoing.store[slot]];
      nextIncSeqNum := nextIncSeqNum + 1;
    }

    /** Drain the queue: the socket and the synthesizer get the same numbered updates. */
    method Run() returns (ok: bool)
      requires Valid() && |snapshot.contents| + |outgoing.contents| <= snapshot.store.Length
      modifies this, outgoing, snapshot, snapshot.store
      ensures ok && Valid() && outgoing.contents == []
      ensures published == old(published) + old(outgoing.contents)
      ensures snapshot.contents == old(snapshot.contents) + Numbered(old(outgoing.contents), old(nextIncSeqNum))
    {
      hide Holds, SlotOf, Numbered, Forwarded;
      ok := true;
      ghost var us, p, q, first := outgoing.contents, published, snapshot.contents, nextIncSeqNum;
      StartsForwarded(us, p, q, first);
      ghost var k := 0;
      var slot := outgoing.GetNextToRead();
      while slot != -1
        invariant ok && Valid() && k <= |us|
          && Forwarded(us, k, p, q, first, outgoing.contents, published, snapshot.contents)
        invariant nextIncSeqNum == first + k && |snapshot.contents| == |q| + k && |outgoing.contents| == |us| - k
        invariant slot == -1 <==> outgoing.contents == []
        invariant slot != -1 ==> 0 <= slot < outgoing.store.Length && outgoing.store[slot] == outgoing.contents[0]
        decreases |us| - k
      {
        GoesOnForwarded(us, k, p, q, first, outgoing.contents, published, snapshot.contents);
        ok := PublishNext(slot);
        k := k + 1;
        slot := outgoing.GetNextToRead();
      }
      AllForwarded(us, p, q, first, outgoing.contents, published, snapshot.contents);
    }
  }

  /** The first k of `us` have gone to both receivers, numbered from `first`. */
  ghost predicate Forwarded(us: seq<MarketUpdate>, k: nat, p: seq<MarketUpdate>, q: seq<(nat, MarketUpdate)>,
                            first: nat, left: seq<MarketUpdate>, published: seq<MarketUpdate>,
                            passed: seq<(nat, MarketUpdate)>) {
    k <= |us| && left == us[k..] && published == p + us[..k] && passed == q + Numbered(us[..k], first)
  }

  lemma {:induction false} StartsForwarded(us: seq<MarketUpdate>, p: seq<MarketUpdate>, q: seq<(nat, MarketUpdate)>,
                                           first: nat)
    ensures Forwarded(us, 0, p, q, first, us, p, q)
  {
  }

  lemma {:induction false} GoesOnForwarded(us: seq<MarketUpdate>, k: nat, p: seq<MarketUpdate>,
                                           q: seq<(nat, MarketUpdate)>, first: nat,
                                           left: seq<MarketUpdate>, published: seq<MarketUpdate>,
                                           passed: seq<(nat, MarketUpdate)>)
    requires Forwarded(us, k, p, q, first, left, published, passed) && left != []
    ensures Forwarded(us, k + 1, p, q, first, left[1..], published + [left[0]], passed + [(first + k, left[0])])
  {
  }

  lemma {:induction false} AllForwarded(us: seq<MarketUpdate>, p: seq<MarketUpdate>, q: seq<(nat, MarketUpdate)>,
                                        first: nat, left: seq<MarketUpdate>, published: seq<MarketUpdate>,
                                        passed: seq<(nat, MarketUpdate)>)
    requires Forwarded(us, |us|, p, q, first, left, published, passed)
    ensures published == p + us && passed == q + Numbered(us, first)
  {
  }
}
