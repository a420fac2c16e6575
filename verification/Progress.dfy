/** Recovery does end: one snapshot that arrives whole and in order is enough, when the queued
    incrementals go on from its stamp. */
module Progress {
  import opened Messages
  import opened Snapshots
  import opened Recovery

  /** A message as it reaches the consumer. */
  datatype Arrival = Arrival(isSnapshot: bool, seqNum: nat, u: MarketUpdate)

  function Feed(c: Consumer, arrivals: seq<Arrival>): Consumer
    decreases arrivals
  {
    if arrivals == [] then c
    else Feed(Receive(c, arrivals[0].isSnapshot, arrivals[0].seqNum, arrivals[0].u), arrivals[1..])
  }

  /** The messages of the snapshot channel. */
  function SnapshotPart(arrivals: seq<Arrival>): seq<(nat, MarketUpdate)> {
    if arrivals == [] then []
    else (if arrivals[0].isSnapshot then [(arrivals[0].seqNum, arrivals[0].u)] else []) + SnapshotPart(arrivals[1..])
  }

  /** The incrementals queued once these have arrived. */
  function Queued(q: Queue, arrivals: seq<Arrival>): Queue
    decreases arrivals
  {
    if arrivals == [] then q
    else Queued(if arrivals[0].isSnapshot then q else q[arrivals[0].seqNum := arrivals[0].u], arrivals[1..])
  }

  /** In recovery, what is queued of a snapshot has no gap from its SNAPSHOT_START on. */
  ghost predicate Tidy(c: Consumer) {
    c.inRecovery ==> c.snapshots == map[] || Unbroken(c.snapshots)
  }

  lemma {:induction false} ReceiveTidy(c: Consumer, isSnapshot: bool, seqNum: nat, u: MarketUpdate)
    ensures Tidy(Receive(c, isSnapshot, seqNum, u))
  {
    hide Unbroken, Complete, Events, FirstMissing, NoGap;
  }

  /** The first k messages of `s`. */
  function FirstOf(s: seq<MarketUpdate>, k: nat): Queue
    requires k <= |s|
  {
    map i | 0 <= i < k :: s[i]
  }

  /** A message list like that of a snapshot: only its first and last are markers. */
  ghost predicate SnapshotLike(s: seq<MarketUpdate>) {
    2 <= |s| && s[0].SnapshotStart? && s[|s| - 1].SnapshotEnd? && forall k :: 0 < k < |s| - 1 ==> !IsMarker(s[k])
  }

  lemma {:induction false} FirstOfCounts(s: seq<MarketUpdate>, k: nat)
    requires SnapshotLike(s) && 0 < k <= |s|
    ensures |FirstOf(s, k)| == k && Unbroken(FirstOf(s, k)) && (Complete(FirstOf(s, k)) <==> k == |s|)
  {
    var q := FirstOf(s, k);
    KeysCount(q.Keys, k);
    assert 0 in q && k - 1 in q;
    assert k < |s| ==> !q[k - 1].SnapshotEnd?;
  }

  /** One more message of the snapshot, but not the last: the consumer goes on waiting. */
  lemma {:induction false} OneMoreQueued(c: Consumer, s: seq<MarketUpdate>, k: nat)
    requires SnapshotLike(s) && 0 < k < |s| - 1 && c.inRecovery && c.snapshots == FirstOf(s, k)
    ensures Receive(c, true, k, s[k]) == c.(snapshots := FirstOf(s, k + 1))
  {
    hide Unbroken, Complete, Events, FirstMissing, NoGap;
    assert k !in c.snapshots && c.snapshots[k := s[k]] == FirstOf(s, k + 1);
    FirstOfCounts(s, k + 1);
    assert k in FirstOf(s, k + 1);
  }

  /** An incremental in between is queued, and the consumer goes on waiting. */
  lemma {:induction false} IncrementalQueued(c: Consumer, s: seq<MarketUpdate>, k: nat, seqNum: nat, u: MarketUpdate)
    requires SnapshotLike(s) && 0 < k < |s| && c.inRecovery && c.snapshots == FirstOf(s, k)
    ensures Receive(c, false, seqNum, u) == c.(incrementals := c.incrementals[seqNum := u])
  {
    hide Unbroken, Complete, Events, FirstMissing, NoGap;
    FirstOfCounts(s, k);
    assert 0 in FirstOf(s, k);
  }

  /** The snapshot starts over with its first message, whatever was queued before. */
  lemma {:induction false} FirstQueued(c: Consumer, s: seq<MarketUpdate>)
    requires SnapshotLike(s) && c.inRecovery && Tidy(c)
    ensures Receive(c, true, 0, s[0]) == c.(snapshots := FirstOf(s, 1))
  {
    assert c.snapshots != map[] ==> 0 in c.snapshots;
    hide Complete, Events, FirstMissing, NoGap;
    var none: Queue := map[];
    assert none[0 := s[0]] == FirstOf(s, 1);
    FirstOfCounts(s, 1);
    assert 0 in FirstOf(s, 1);
  }

  /** Everything but the last message of the snapshot, mixed with incrementals. */
  lemma {:induction false} Collects(c: Consumer, arrivals: seq<Arrival>, s: seq<MarketUpdate>, k: nat, m: nat)
    requires SnapshotLike(s) && 0 < k <= m < |s| && c.inRecovery && c.snapshots == FirstOf(s, k)
    requires SnapshotPart(arrivals) == Numbered(s[k..m], k)
    ensures Feed(c, arrivals) == c.(snapshots := FirstOf(s, m), incrementals := Queued(c.incrementals, arrivals))
    decreases arrivals
  {
    hide Receive, SnapshotLike, FirstOf;
    if arrivals == [] {
      assert |Numbered(s[k..m], k)| == 0;
    } else {
      var a := arrivals[0];
      if a.isSnapshot {
        assert SnapshotPart(arrivals)[0] == (a.seqNum, a.u)
          && SnapshotPart(arrivals)[1..] == SnapshotPart(arrivals[1..]);
        assert |Numbered(s[k..m], k)| == m - k > 0;
        assert Numbered(s[k..m], k)[0] == (k, s[k]) && Numbered(s[k..m], k)[1..] == Numbered(s[k + 1..m], k + 1);
        OneMoreQueued(c, s, k);
        Collects(c.(snapshots := FirstOf(s, k + 1)), arrivals[1..], s, k + 1, m);
      } else {
        IncrementalQueued(c, s, k, a.seqNum, a.u);
        Collects(c.(incrementals := c.incrementals[a.seqNum := a.u]), arrivals[1..], s, k, m);
      }
    }
  }

  /** The last message: recovery ends when the incrementals go on from the stamp. */
  lemma {:induction false} LastQueued(c: Consumer, s: seq<MarketUpdate>)
    requires SnapshotLike(s) && c.inRecovery && c.snapshots == FirstOf(s, |s| - 1)
    ensures var d, from := Receive(c, true, |s| - 1, s[|s| - 1]), s[|s| - 1].stamp + 1;
      if NoGap(c.incrementals, from) then
        var to := FirstMissing(c.incrementals, from);
        d == Consumer(to, false, map[], map[], c.out + (s[1..|s| - 1] + Events(c.incrementals, from, to)))
      else d == c.(snapshots := map[], nextExp := FirstMissing(c.incrementals, from))
  {
    hide Events, FirstMissing, NoGap, FirstOf, Unbroken;
    WholeQueued(s);
  }

  lemma {:induction false} WholeQueued(s: seq<MarketUpdate>)
    requires SnapshotLike(s)
    ensures var n := |s|; var q := FirstOf(s, n);
      && n - 1 !in FirstOf(s, n - 1) && FirstOf(s, n - 1)[n - 1 := s[n - 1]] == q != map[]
      && |q| == n && Unbroken(q) && Complete(q) && n - 1 in q && q[n - 1] == s[n - 1]
      && Events(q, 0, n) == s[1..n - 1]
  {
    var n := |s|;
    var q := FirstOf(s, n);
    FirstOfCounts(s, n);
    EventsOfWhole(q, s);
    assert n - 1 in q;
  }

  lemma {:induction false} FeedSplits(c: Consumer, a: seq<Arrival>, b: seq<Arrival>)
    ensures Feed(c, a + b) == Feed(Feed(c, a), b)
    decreases a
  {
    hide Receive;
    if a == [] {
      assert a + b == b;
    } else {
      assert (a + b)[0] == a[0] && (a + b)[1..] == a[1..] + b;
      FeedSplits(Receive(c, a[0].isSnapshot, a[0].seqNum, a[0].u), a[1..], b);
    }
  }

  /** One snapshot, whole and in order, among any incrementals: at its end the consumer is out
      of recovery exactly when no queued incremental lies beyond a gap after the stamp; and
      then it has passed on the body and the incrementals up to the first one missing. */
  lemma {:induction false} SnapshotEndsRecovery(n: nat, ids: nat, h: seq<MarketUpdate>, stamp: nat, c: Consumer,
                                                between: seq<Arrival>)
    requires History(n, ids, h) && stamp <= |h| && c.inRecovery && Tidy(c)
    requires var s := SnapshotAt(n, ids, h, stamp);
      2 <= |s| && SnapshotPart(between) == Numbered(s[1..|s| - 1], 1)
    ensures var s := SnapshotAt(n, ids, h, stamp);
      var d := Feed(c, [Arrival(true, 0, s[0])] + between + [Arrival(true, |s| - 1, s[|s| - 1])]);
      var q := Queued(c.incrementals, between);
      && (!d.inRecovery <==> NoGap(q, stamp + 1))
      && d.nextExp == FirstMissing(q, stamp + 1)
      && (!d.inRecovery ==>
          d.out == c.out + (Body(After(EmptyTables(n), h[..stamp]), ids) + Events(q, stamp + 1, d.nextExp)))
  {
    hide SnapshotAt, Receive, History, NoGap, FirstMissing, Events;
    var s := SnapshotAt(n, ids, h, stamp);
    SnapshotShape(n, ids, h, stamp);
    var first, last := [Arrival(true, 0, s[0])], [Arrival(true, |s| - 1, s[|s| - 1])];
    FeedSplits(c, first + between, last);
    FeedSplits(c, first, between);
    FirstQueued(c, s);
    assert first[1..] == [] && last[1..] == [];
    var c1 := c.(snapshots := FirstOf(s, 1));
    assert Feed(c, first) == c1;
    Collects(c1, between, s, 1, |s| - 1);
    LastQueued(Feed(c1, between), s);
  }
}
