/** What the consumer does not lose: outside recovery everything in sequence is passed on at once,
    and what arrives during recovery is kept until recovery ends. */
module Retention {
  import opened Messages
  import opened Recovery
  import opened Progress

  // ----- outside recovery

  /** Nothing is lost or held back while the numbers go on. */
  lemma {:induction false} InSequencePassedOn(c: Consumer, us: seq<MarketUpdate>)
    requires !c.inRecovery
    ensures ReceiveAll(c, false, Numbered(us, c.nextExp)) == c.(nextExp := c.nextExp + |us|, out := c.out + us)
    decreases us
  {
    var msgs := Numbered(us, c.nextExp);
    if us == [] {
      assert c.out + us == c.out;
    } else {
      assert msgs[1..] == Numbered(us[1..], c.nextExp + 1) && c.out + [us[0]] + us[1..] == c.out + us;
      InSequencePassedOn(c.(nextExp := c.nextExp + 1, out := c.out + [us[0]]), us[1..]);
    }
  }

  /** Any other number starts recovery; the message that shows the gap is the first to be kept. */
  lemma {:induction false} GapStartsRecovery(c: Consumer, seqNum: nat, u: MarketUpdate)
    requires !c.inRecovery && seqNum != c.nextExp
    ensures Receive(c, false, seqNum, u) == Consumer(c.nextExp, true, map[], map[seqNum := u], c.out)
  {
  }

  /** Snapshot messages count only in recovery. */
  lemma {:induction false} SnapshotsIgnored(c: Consumer, msgs: seq<(nat, MarketUpdate)>, u: MarketUpdate)
    requires !c.inRecovery
    ensures Callback(c, true, msgs) == c && Receive(c, true, c.nextExp, u) == c
  {
  }

  /** The messages of a callback count one after the other, all of them. */
  lemma {:induction false} ReceiveAllSplits(c: Consumer, isSnapshot: bool, a: seq<(nat, MarketUpdate)>,
                                            b: seq<(nat, MarketUpdate)>)
    ensures ReceiveAll(c, isSnapshot, a + b) == ReceiveAll(ReceiveAll(c, isSnapshot, a), isSnapshot, b)
    decreases a
  {
    hide Receive;
    if a == [] {
      assert a + b == b;
    } else {
      ReceiveAllSplits(Receive(c, isSnapshot, a[0].0, a[0].1), isSnapshot, a[1..], b);
      assert (a + b)[0] == a[0] && (a + b)[1..] == a[1..] + b;
    }
  }

  lemma {:induction false} OneReceived(c: Consumer, isSnapshot: bool, seqNum: nat, u: MarketUpdate)
    ensures ReceiveAll(c, isSnapshot, [(seqNum, u)]) == Receive(c, isSnapshot, seqNum, u)
  {
    hide Receive;
    assert [(seqNum, u)][1..] == [];
  }

  // ----- in recovery, one message

  /** The queues with one more message; a repeated snapshot number starts that queue afresh. */
  function WithMessage(c: Consumer, a: Arrival): Consumer {
    if a.isSnapshot then
      var q := if a.seqNum in c.snapshots then map[] else c.snapshots;
      c.(snapshots := q[a.seqNum := a.u])
    else c.(incrementals := c.incrementals[a.seqNum := a.u])
  }

  /** As long as recovery goes on, nothing is passed on, every queued incremental stays, and the
      snapshot queue goes exactly when it is broken, or complete with a gap behind it. */
  lemma {:induction false} RecoveryKeeps(c: Consumer, a: Arrival)
    requires c.inRecovery
    ensures var d, w := Receive(c, a.isSnapshot, a.seqNum, a.u), WithMessage(c, a);
      d.inRecovery ==> (
        && d.out == c.out
        && (forall k: nat :: k in d.incrementals <==> k in c.incrementals || (!a.isSnapshot && k == a.seqNum))
        && (forall k :: k in c.incrementals && (a.isSnapshot || k != a.seqNum) ==>
          d.incrementals[k] == c.incrementals[k])
        && (!a.isSnapshot ==> d.incrementals[a.seqNum] == a.u)
        && d.snapshots == if Unbroken(w.snapshots) && !Complete(w.snapshots) then w.snapshots else map[])
  {
    hide Unbroken, Complete, Events, FirstMissing, NoGap;
    assert Receive(c, a.isSnapshot, a.seqNum, a.u) == CheckSync(WithMessage(c, a));
    assert Complete(WithMessage(c, a).snapshots) ==> Unbroken(WithMessage(c, a).snapshots) by {
      WholeIsUnbroken(WithMessage(c, a).snapshots);
    }
  }

  lemma {:induction false} WholeIsUnbroken(q: Queue)
    ensures Complete(q) ==> Unbroken(q)
  {
  }

  // ----- a whole recovery

  predicate IsFor(a: Arrival, k: nat) {
    !a.isSnapshot && a.seqNum == k
  }

  /** The i-th arrival is the last one under number k. */
  ghost predicate LatestAt(arrivals: seq<Arrival>, i: nat, k: nat, u: MarketUpdate) {
    && i < |arrivals| && IsFor(arrivals[i], k) && arrivals[i].u == u
    && forall j :: i < j < |arrivals| ==> !IsFor(arrivals[j], k)
  }

  ghost predicate NoneFor(arrivals: seq<Arrival>, k: nat) {
    forall i :: 0 <= i < |arrivals| ==> !IsFor(arrivals[i], k)
  }

  /** Update u is what is known of number k: the latest to arrive under it, or else what was queued
      before. */
  ghost predicate Value(c: Consumer, arrivals: seq<Arrival>, k: nat, u: MarketUpdate) {
    (exists i: nat :: LatestAt(arrivals, i, k, u))
    || (NoneFor(arrivals, k) && k in c.incrementals && c.incrementals[k] == u)
  }

  ghost predicate Known(c: Consumer, arrivals: seq<Arrival>, k: nat) {
    exists u :: Value(c, arrivals, k, u)
  }

  /** Recovery does not end before the last of these arrivals. */
  ghost predicate GoesOn(c: Consumer, arrivals: seq<Arrival>) {
    forall i :: 0 <= i <= |arrivals| ==> Feed(c, arrivals[..i]).inRecovery
  }

  lemma {:induction false} LatestGrows(arrivals: seq<Arrival>, a: Arrival, i: nat, k: nat, u: MarketUpdate)
    ensures LatestAt(arrivals + [a], i, k, u) <==>
      if IsFor(a, k) then i == |arrivals| && u == a.u else LatestAt(arrivals, i, k, u)
  {
    var all, n := arrivals + [a], |arrivals|;
    assert all[n] == a;
    assert forall j :: 0 <= j < n ==> all[j] == arrivals[j];
  }

  lemma {:induction false} NoneGrows(arrivals: seq<Arrival>, a: Arrival, k: nat)
    ensures NoneFor(arrivals + [a], k) <==> NoneFor(arrivals, k) && !IsFor(a, k)
  {
    assert (arrivals + [a])[|arrivals|] == a;
    assert forall j :: 0 <= j < |arrivals| ==> (arrivals + [a])[j] == arrivals[j];
  }

  lemma {:induction false} ValueGrows(c: Consumer, arrivals: seq<Arrival>, a: Arrival, k: nat, u: MarketUpdate)
    ensures Value(c, arrivals + [a], k, u) <==> if IsFor(a, k) then u == a.u else Value(c, arrivals, k, u)
  {
    hide LatestAt, NoneFor, IsFor;
    forall i: nat
      ensures LatestAt(arrivals + [a], i, k, u) <==>
        if IsFor(a, k) then i == |arrivals| && u == a.u else LatestAt(arrivals, i, k, u)
    {
      LatestGrows(arrivals, a, i, k, u);
    }
    NoneGrows(arrivals, a, k);
    assert IsFor(a, k) && u == a.u ==> LatestAt(arrivals + [a], |arrivals|, k, u);
  }

  lemma {:induction false} FeedOneMore(c: Consumer, arrivals: seq<Arrival>, a: Arrival)
    ensures Feed(c, arrivals + [a]) == Receive(Feed(c, arrivals), a.isSnapshot, a.seqNum, a.u)
  {
    hide Receive;
    FeedSplits(c, arrivals, [a]);
    assert [a][1..] == [];
  }

  /** While recovery goes on, what is queued is what is known. */
  lemma {:induction false} QueuedIsKnown(c: Consumer, arrivals: seq<Arrival>)
    requires GoesOn(c, arrivals)
    ensures var d := Feed(c, arrivals);
      && d.out == c.out
      && forall k: nat, u :: (k in d.incrementals && d.incrementals[k] == u) <==> Value(c, arrivals, k, u)
    decreases |arrivals|
  {
    hide Receive, Value;
    var n := |arrivals| - 1;
    assert arrivals[..n + 1] == arrivals;
    if arrivals == [] {
      forall k: nat, u
        ensures Value(c, [], k, u) <==> k in c.incrementals && c.incrementals[k] == u
      {
        NothingArrived(c, k, u);
      }
    } else {
      var before, a := arrivals[..n], arrivals[n];
      assert forall i :: 0 <= i <= n ==> before[..i] == arrivals[..i];
      QueuedIsKnown(c, before);
      assert arrivals == before + [a] && arrivals[..n] == before;
      FeedOneMore(c, before, a);
      RecoveryKeeps(Feed(c, before), a);
      forall k: nat, u
        ensures Value(c, arrivals, k, u) <==> if IsFor(a, k) then u == a.u else Value(c, before, k, u)
      {
        ValueGrows(c, before, a, k, u);
      }
    }
  }

  lemma {:induction false} NothingArrived(c: Consumer, k: nat, u: MarketUpdate)
    ensures Value(c, [], k, u) <==> k in c.incrementals && c.incrementals[k] == u
  {
  }

  /** The queues when the last message is in, before the check. */
  function AtTheEnd(c: Consumer, arrivals: seq<Arrival>): Consumer
    requires arrivals != []
  {
    WithMessage(Feed(c, arrivals[..|arrivals| - 1]), arrivals[|arrivals| - 1])
  }

  lemma {:induction false} KnownAtTheEnd(c: Consumer, arrivals: seq<Arrival>)
    requires arrivals != [] && GoesOn(c, arrivals[..|arrivals| - 1])
    ensures var w := AtTheEnd(c, arrivals);
      && w.inRecovery && w.out == c.out && Feed(c, arrivals) == CheckSync(w)
      && forall k: nat, u :: (k in w.incrementals && w.incrementals[k] == u) <==> Value(c, arrivals, k, u)
  {
    hide CheckSync, Value;
    var n := |arrivals| - 1;
    var before, a := arrivals[..n], arrivals[n];
    assert before[..n] == before && arrivals == before + [a];
    QueuedIsKnown(c, before);
    FeedOneMore(c, before, a);
    forall k: nat, u
      ensures Value(c, arrivals, k, u) <==> if IsFor(a, k) then u == a.u else Value(c, before, k, u)
    {
      ValueGrows(c, before, a, k, u);
    }
  }

  lemma {:induction false} EventsAre(q: Queue, lo: nat, hi: nat)
    requires lo <= hi && forall k :: lo <= k < hi ==> k in q && !IsMarker(q[k])
    ensures |Events(q, lo, hi)| == hi - lo && forall i :: 0 <= i < hi - lo ==> Events(q, lo, hi)[i] == q[lo + i]
    decreases hi - lo
  {
    if lo < hi {
      EventsAre(q, lo + 1, hi);
    }
  }

  /** When recovery ends: everything known beyond the stamp of the snapshot has been passed on, in
      the order of its numbers and as the last messages passed on; the next number expected is the
      first one not known. So an incremental that arrived during recovery is not lost. */
  lemma {:induction false} RecoveryPassesOn(c: Consumer, arrivals: seq<Arrival>)
    requires arrivals != [] && GoesOn(c, arrivals[..|arrivals| - 1]) && !Feed(c, arrivals).inRecovery
    requires forall k: nat, u :: Value(c, arrivals, k, u) ==> !IsMarker(u)
    ensures var q := AtTheEnd(c, arrivals).snapshots;
      Complete(q) && Passed(c, arrivals, Feed(c, arrivals), q[|q| - 1].stamp)
  {
    hide Value, Known, Passed, Events, FirstMissing, Complete, Unbroken, NoGap, CheckSync, Feed, WithMessage;
    var w, d := AtTheEnd(c, arrivals), Feed(c, arrivals);
    KnownAtTheEnd(c, arrivals);
    NotLeftOtherwise(w);
    var stamp := w.snapshots[|w.snapshots| - 1].stamp;
    KnownIsQueued(c, arrivals, w.incrementals);
    PassesUpTo(w.incrementals, stamp + 1, d.nextExp);
    TailOfOut(c, arrivals, d, stamp, Events(w.snapshots, 0, |w.snapshots|),
      Events(w.incrementals, stamp + 1, d.nextExp));
  }

  lemma {:induction false} KnownIsQueued(c: Consumer, arrivals: seq<Arrival>, q: Queue)
    requires forall k: nat, u :: (k in q && q[k] == u) <==> Value(c, arrivals, k, u)
    ensures forall k: nat :: Known(c, arrivals, k) <==> k in q
    ensures forall k: nat :: k in q ==> Value(c, arrivals, k, q[k])
  {
    hide Value;
    forall k: nat | k in q
      ensures Value(c, arrivals, k, q[k])
    {
    }
  }

  /** Up to the first number missing, and when there is nothing beyond it. */
  lemma {:induction false} PassesUpTo(q: Queue, from: nat, to: nat)
    requires to == FirstMissing(q, from) && NoGap(q, from) && forall k :: k in q ==> !IsMarker(q[k])
    ensures from <= to && to !in q && forall k: nat :: from <= k ==> (k in q <==> k < to)
    ensures |Events(q, from, to)| == to - from && forall i :: 0 <= i < to - from ==>
      Events(q, from, to)[i] == q[from + i]
  {
    EventsAre(q, from, to);
  }

  ghost predicate Passed(c: Consumer, arrivals: seq<Arrival>, d: Consumer, stamp: nat) {
    && stamp < d.nextExp && !Known(c, arrivals, d.nextExp)
    && (forall k: nat :: stamp < k ==> (Known(c, arrivals, k) <==> k < d.nextExp))
    && var n := d.nextExp - 1 - stamp;
    && |c.out| + n <= |d.out| && d.out[..|c.out|] == c.out
    && forall p :: |d.out| - n <= p < |d.out| ==> Value(c, arrivals, stamp + 1 + (p - (|d.out| - n)), d.out[p])
  }

  lemma {:induction false} TailOfOut(c: Consumer, arrivals: seq<Arrival>, d: Consumer, stamp: nat,
                                     body: seq<MarketUpdate>, tail: seq<MarketUpdate>)
    requires d.out == c.out + (body + tail) && stamp < d.nextExp && |tail| == d.nextExp - 1 - stamp
    requires !Known(c, arrivals, d.nextExp)
    requires forall k: nat :: stamp < k ==> (Known(c, arrivals, k) <==> k < d.nextExp)
    requires forall i :: 0 <= i < |tail| ==> Value(c, arrivals, stamp + 1 + i, tail[i])
    ensures Passed(c, arrivals, d, stamp)
  {
    hide Value, Known;
    var n := |tail|;
    forall p | |d.out| - n <= p < |d.out|
      ensures d.out[p] == tail[p - (|d.out| - n)]
    {
    }
  }

  lemma {:induction false} NotLeftOtherwise(w: Consumer)
    requires w.inRecovery && !CheckSync(w).inRecovery
    ensures Complete(w.snapshots) && |w.snapshots| - 1 in w.snapshots && w.snapshots[|w.snapshots| - 1].SnapshotEnd?
    ensures var n := |w.snapshots|;
      var from := w.snapshots[n - 1].stamp + 1;
      var to := FirstMissing(w.incrementals, from);
      var more := Events(w.snapshots, 0, n) + Events(w.incrementals, from, to);
      NoGap(w.incrementals, from) && CheckSync(w) == Consumer(to, false, map[], map[], w.out + more)
  {
    hide Events, FirstMissing, NoGap;
  }
}
