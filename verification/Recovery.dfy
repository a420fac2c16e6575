/** Gap detection and recovery on the subscriber's side, and what it guarantees. */
module Recovery {
  import opened Messages
  import opened MarketData
  import opened Snapshots

  type Queue = map<nat, MarketUpdate>

  datatype Consumer = Consumer(
    nextExp: nat, inRecovery: bool, snapshots: Queue, incrementals: Queue, out: seq<MarketUpdate>)

  const FRESH := Consumer(1, false, map[], map[], [])

  predicate IsMarker(u: MarketUpdate) {
    u.SnapshotStart? || u.SnapshotEnd?
  }

  /** The queued messages numbered lo to hi - 1, without the markers of snapshots. */
  function Events(q: Queue, lo: nat, hi: nat): seq<MarketUpdate>
    decreases hi - lo
  {
    if hi <= lo then []
    else (if lo in q && !IsMarker(q[lo]) then [q[lo]] else []) + Events(q, lo + 1, hi)
  }

  /** The queued numbers are 0, 1, ... without a gap, from a SNAPSHOT_START on. */
  predicate Unbroken(q: Queue) {
    q != map[] && (forall k :: k in q ==> k < |q|) && 0 in q && q[0].SnapshotStart?
  }

  predicate Complete(q: Queue) {
    Unbroken(q) && |q| - 1 in q && q[|q| - 1].SnapshotEnd?
  }

  /** The first number from n on that is not among `keys`. */
  function FirstGap(keys: set<nat>, n: nat): (k: nat)
    ensures n <= k && k !in keys && forall j :: n <= j < k ==> j in keys
  {
    if n in keys then FirstGap(keys - {n}, n + 1) else n
  }

  /** The first number from n on that is not queued. */
  function FirstMissing(q: Queue, n: nat): (k: nat)
    ensures n <= k && k !in q && forall j :: n <= j < k ==> j in q
  {
    FirstGap(q.Keys, n)
  }

  /** Nothing queued lies beyond a gap. */
  predicate NoGap(q: Queue, n: nat) {
    forall k :: k in q ==> k < FirstMissing(q, n)
  }

  /** Recovery ends when the queued snapshot is complete and the queued incrementals go on
      from its stamp without a gap; otherwise a broken snapshot is dropped. */
  function CheckSync(c: Consumer): Consumer {
    if c.snapshots == map[] then c
    else if !Unbroken(c.snapshots) then c.(snapshots := map[])
    else if !Complete(c.snapshots) then c
    else
      var n := |c.snapshots|;
      var from := c.snapshots[n - 1].stamp + 1;
      var to := FirstMissing(c.incrementals, from);
      if !NoGap(c.incrementals, from) then c.(snapshots := map[], nextExp := to)
      else Consumer(to, false, map[], map[], c.out + (Events(c.snapshots, 0, n) + Events(c.incrementals, from, to)))
  }

  /** The queued snapshot is 0, 1, ..., n - 1 from a SNAPSHOT_START to a SNAPSHOT_END, and
      the queued incrementals beyond its stamp are exactly those up to `to` - 1. */
  ghost predicate Ready(c: Consumer, n: nat, to: nat) {
    && 0 < n && (forall k: nat :: k in c.snapshots <==> k < n)
    && c.snapshots[0].SnapshotStart? && c.snapshots[n - 1].SnapshotEnd?
    && c.snapshots[n - 1].stamp < to
    && forall k :: k in c.incrementals && c.snapshots[n - 1].stamp < k <==> c.snapshots[n - 1].stamp < k < to
  }

  lemma {:induction false} FirstMissingIs(q: Queue, from: nat, n: nat)
    requires from <= n && n !in q && forall j :: from <= j < n ==> j in q
    ensures FirstMissing(q, from) == n
  {
  }

  lemma {:induction false} ReadyCounts(c: Consumer, n: nat, to: nat)
    requires Ready(c, n, to)
    ensures |c.snapshots| == n && Complete(c.snapshots)
    ensures FirstMissing(c.incrementals, c.snapshots[n - 1].stamp + 1) == to
      && NoGap(c.incrementals, c.snapshots[n - 1].stamp + 1)
  {
    KeysCount(c.snapshots.Keys, n);
    assert n - 1 in c.snapshots;
    FirstMissingIs(c.incrementals, c.snapshots[n - 1].stamp + 1, to);
  }

  /** The queue holds the messages 0 to n - 1 and no others, from a SNAPSHOT_START on. */
  ghost predicate FromStart(q: Queue, n: nat) {
    0 < n && (forall k: nat :: k in q <==> k < n) && q[0].SnapshotStart?
  }

  lemma {:induction false} FromStartMeans(q: Queue, n: nat)
    requires FromStart(q, n)
    ensures |q| == n && Unbroken(q) && (Complete(q) <==> q[n - 1].SnapshotEnd?)
  {
    KeysCount(q.Keys, n);
    assert 0 in q && n - 1 in q;
  }

  ghost predicate ToEnd(q: Queue, n: nat) {
    FromStart(q, n) && q[n - 1].SnapshotEnd?
  }

  lemma {:induction false} UnbrokenMeans(q: Queue)
    ensures Unbroken(q) <==> exists n: nat :: FromStart(q, n)
    ensures Complete(q) <==> exists n: nat :: ToEnd(q, n)
  {
    forall n: nat | FromStart(q, n)
      ensures |q| == n && Unbroken(q) && (Complete(q) <==> ToEnd(q, n))
    {
      FromStartMeans(q, n);
    }
    hide FromStart;
    if Unbroken(q) {
      Gapless(q, |q|);
      UnbrokenFromStart(q);
    }
  }

  lemma {:induction false} UnbrokenFromStart(q: Queue)
    requires Unbroken(q) && forall k :: 0 <= k < |q| ==> k in q
    ensures FromStart(q, |q|)
  {
  }

  lemma {:induction false} KeysCount(keys: set<nat>, n: nat)
    requires forall k: nat :: k in keys <==> k < n
    ensures |keys| == n
  {
    if n == 0 {
      assert keys == {};
    } else {
      KeysCount(keys - {n - 1}, n - 1);
    }
  }

  lemma {:induction false} CompleteReady(c: Consumer)
    requires Complete(c.snapshots)
    requires var from := c.snapshots[|c.snapshots| - 1].stamp + 1; NoGap(c.incrementals, from)
    ensures Ready(c, |c.snapshots|, FirstMissing(c.incrementals, c.snapshots[|c.snapshots| - 1].stamp + 1))
  {
    Gapless(c.snapshots, |c.snapshots|);
  }

  /** The snapshot's body and the incrementals after its stamp, in order. */
  ghost function Recovered(c: Consumer, n: nat, to: nat): Consumer
    requires Ready(c, n, to)
  {
    var more := Events(c.snapshots, 0, n) + Events(c.incrementals, c.snapshots[n - 1].stamp + 1, to);
    Consumer(to, false, map[], map[], c.out + more)
  }

  /** Recovery ends exactly when the queues are ready, and then those messages are passed on. */
  lemma {:induction false} RecoveryEndsIff(c: Consumer)
    requires c.inRecovery
    ensures !CheckSync(c).inRecovery <==> exists n: nat, to: nat :: Ready(c, n, to)
    ensures forall n: nat, to: nat :: Ready(c, n, to) ==> CheckSync(c) == Recovered(c, n, to)
  {
    hide Ready, Events, FirstMissing;
    if !CheckSync(c).inRecovery {
      CompleteReady(c);
    }
    forall n: nat, to: nat | Ready(c, n, to)
      ensures CheckSync(c) == Recovered(c, n, to)
    {
      ReadyCounts(c, n, to);
    }
  }

  function Enqueue(c: Consumer, isSnapshot: bool, seqNum: nat, u: MarketUpdate): Consumer {
    if isSnapshot then
      var q := if seqNum in c.snapshots then map[] else c.snapshots;
      CheckSync(c.(snapshots := q[seqNum := u]))
    else
      CheckSync(c.(incrementals := c.incrementals[seqNum := u]))
  }

  function Receive(c: Consumer, isSnapshot: bool, seqNum: nat, u: MarketUpdate): Consumer {
    if c.inRecovery then Enqueue(c, isSnapshot, seqNum, u)
    else if seqNum != c.nextExp then
      Enqueue(c.(inRecovery := true, snapshots := map[], incrementals := map[]), isSnapshot, seqNum, u)
    else if isSnapshot then c
    else c.(nextExp := c.nextExp + 1, out := c.out + [u])
  }

  function ReceiveAll(c: Consumer, isSnapshot: bool, msgs: seq<(nat, MarketUpdate)>): Consumer
    decreases msgs
  {
    if msgs == [] then c else ReceiveAll(Receive(c, isSnapshot, msgs[0].0, msgs[0].1), isSnapshot, msgs[1..])
  }

  /** One callback: snapshot messages that arrive outside recovery are thrown away. */
  function Callback(c: Consumer, isSnapshot: bool, msgs: seq<(nat, MarketUpdate)>): Consumer {
    if isSnapshot && !c.inRecovery then c else ReceiveAll(c, isSnapshot, msgs)
  }

  // ----- the exchange side of the two channels

  /** Everything published so far by an exchange with n tickers whose ids fit the tables. */
  ghost predicate History(n: nat, ids: nat, h: seq<MarketUpdate>) {
    AllFit(EmptyMarket(n), h) && NoClear(h) && AddsBelow(h, ids)
  }

  function SnapshotAt(n: nat, ids: nat, h: seq<MarketUpdate>, stamp: nat): seq<MarketUpdate>
    requires stamp <= |h|
  {
    Snapshot(After(EmptyTables(n), h[..stamp]), ids, stamp)
  }

  /** Incremental number k is the k-th update; any of them may arrive, at any time, any number of times. */
  ghost predicate Incremental(h: seq<MarketUpdate>, k: nat, u: MarketUpdate) {
    1 <= k <= |h| && u == h[k - 1]
  }

  ghost predicate FromSnapshot(s: seq<MarketUpdate>, k: nat, u: MarketUpdate) {
    k < |s| && u == s[k]
  }

  // ----- what holds after every message

  /** The books the subscriber has rebuilt are the exchange's after update `nextExp - 1`. */
  ghost predicate InSync(n: nat, h: seq<MarketUpdate>, c: Consumer) {
    && 1 <= c.nextExp <= |h| + 1
    && Replay(EmptyMarket(n), c.out) == Replay(EmptyMarket(n), h[..c.nextExp - 1])
  }

  ghost predicate QueuedFrom(q: Queue, s: seq<MarketUpdate>) {
    forall k :: k in q ==> FromSnapshot(s, k, q[k])
  }

  /** `stamp` is where the queued snapshot messages were taken. */
  ghost predicate Safe(n: nat, ids: nat, h: seq<MarketUpdate>, c: Consumer, stamp: nat) {
    && stamp <= |h|
    && (forall k :: k in c.incrementals ==> Incremental(h, k, c.incrementals[k]))
    && QueuedFrom(c.snapshots, SnapshotAt(n, ids, h, stamp))
    && AllFit(EmptyMarket(n), c.out)
    && (!c.inRecovery ==> InSync(n, h, c))
  }

  lemma {:induction false} HistoryPrefix(n: nat, ids: nat, h: seq<MarketUpdate>, k: nat)
    requires History(n, ids, h) && k <= |h|
    ensures History(n, ids, h[..k]) && AllFit(Replay(EmptyMarket(n), h[..k]), h[k..])
  {
    assert h == h[..k] + h[k..];
    AllFitSplits(EmptyMarket(n), h[..k], h[k..]);
  }

  // ----- a complete queue is the whole snapshot

  lemma {:induction false} NoMarkersListed(orders: Table, lo: nat, hi: nat)
    requires forall id :: id in orders ==> orders[id].Add?
    ensures forall i :: 0 <= i < |Listing(orders, lo, hi)| ==> !IsMarker(Listing(orders, lo, hi)[i])
    decreases hi - lo
  {
    if lo < hi {
      NoMarkersListed(orders, lo + 1, hi);
    }
  }

  ghost predicate OnlyAdds(tables: seq<Table>) {
    forall t: nat, id: nat :: t < |tables| && id in tables[t] ==> tables[t][id].Add?
  }

  lemma {:induction false} NoMarkersInBody(tables: seq<Table>, ids: nat)
    requires OnlyAdds(tables)
    ensures forall i :: 0 <= i < |Body(tables, ids)| ==> !IsMarker(Body(tables, ids)[i])
    decreases tables
  {
    if tables != [] {
      var t := |tables| - 1;
      NoMarkersInBody(tables[..t], ids);
      NoMarkersListed(tables[t], 0, ids);
    }
  }

  lemma {:induction false} EventsOf(q: Queue, s: seq<MarketUpdate>, lo: nat, hi: nat, first: nat)
    requires lo <= hi && first <= lo && hi - first <= |s|
    requires forall k :: lo <= k < hi ==> k in q && q[k] == s[k - first] && !IsMarker(q[k])
    ensures Events(q, lo, hi) == s[lo - first..hi - first]
    decreases hi - lo
  {
    if lo < hi {
      EventsOf(q, s, lo + 1, hi, first);
      assert s[lo - first..hi - first] == [s[lo - first]] + s[lo + 1 - first..hi - first];
    }
  }

  lemma {:induction false} EventsSplit(q: Queue, lo: nat, mid: nat, hi: nat)
    requires lo <= mid <= hi
    ensures Events(q, lo, hi) == Events(q, lo, mid) + Events(q, mid, hi)
    decreases mid - lo
  {
    if lo < mid {
      EventsSplit(q, lo + 1, mid, hi);
    }
  }

  lemma {:induction false} AddsInTables(n: nat, ids: nat, h: seq<MarketUpdate>, stamp: nat)
    requires History(n, ids, h) && stamp <= |h|
    ensures OnlyAdds(After(EmptyTables(n), h[..stamp]))
  {
    HistoryPrefix(n, ids, h, stamp);
    var e, tables := EmptyMarket(n), EmptyTables(n);
    assert WellFormedMarket(e) && TablesMirror(tables, e);
    StreamMirrors(tables, e, h[..stamp]);
    var m, after: seq<Table> := Replay(e, h[..stamp]), After(tables, h[..stamp]);
    forall t: nat, id: nat | t < |after| && id in after[t]
      ensures after[t][id].Add?
    {
      assert Mirrors(after[t], t, m[t]);
    }
  }

  /** Only the first and last messages of a snapshot are markers. */
  lemma {:induction false} SnapshotShape(n: nat, ids: nat, h: seq<MarketUpdate>, stamp: nat)
    requires History(n, ids, h) && stamp <= |h|
    ensures var s := SnapshotAt(n, ids, h, stamp);
      && 2 <= |s| && s[0] == SnapshotStart(stamp) && s[|s| - 1] == SnapshotEnd(stamp)
      && (forall k :: 0 < k < |s| - 1 ==> !IsMarker(s[k]))
      && s[1..|s| - 1] == Body(After(EmptyTables(n), h[..stamp]), ids)
  {
    AddsInTables(n, ids, h, stamp);
    var body := Body(After(EmptyTables(n), h[..stamp]), ids);
    NoMarkersInBody(After(EmptyTables(n), h[..stamp]), ids);
    var s := SnapshotAt(n, ids, h, stamp);
    assert s[1..|s| - 1] == body;
    assert forall k :: 0 < k < |s| - 1 ==> s[k] == body[k - 1];
  }

  /** The snapshot of a history: its start, by ticker a Clear and the additions of exactly the live
      orders by id, its end. */
  lemma {:induction false} SnapshotLists(n: nat, ids: nat, h: seq<MarketUpdate>, stamp: nat)
    requires History(n, ids, h) && stamp <= |h|
    ensures var s, tables := SnapshotAt(n, ids, h, stamp), After(EmptyTables(n), h[..stamp]);
      && 2 <= |s| && s[0] == SnapshotStart(stamp) && s[|s| - 1] == SnapshotEnd(stamp) && Arranged(s[1..|s| - 1])
      && forall u :: u in s[1..|s| - 1] <==> (u.Clear? && u.ticker < n) || InSomeTable(tables, ids, u)
    ensures TablesMirror(After(EmptyTables(n), h[..stamp]), Replay(EmptyMarket(n), h[..stamp]))
  {
    hide History, SnapshotAt, Arranged, InSomeTable, Keyed;
    HistoryPrefix(n, ids, h, stamp);
    TablesOfHistory(n, ids, h[..stamp]);
    var tables := After(EmptyTables(n), h[..stamp]);
    MirroringIsKeyed(tables, Replay(EmptyMarket(n), h[..stamp]));
    SnapshotMeans(tables, ids, stamp);
    SnapshotIs(n, ids, h, stamp);
  }

  lemma {:induction false} SnapshotIs(n: nat, ids: nat, h: seq<MarketUpdate>, stamp: nat)
    requires stamp <= |h|
    ensures SnapshotAt(n, ids, h, stamp) == Snapshot(After(EmptyTables(n), h[..stamp]), ids, stamp)
  {
  }

  lemma {:induction false} TablesOfHistory(n: nat, ids: nat, h: seq<MarketUpdate>)
    requires History(n, ids, h)
    ensures TablesMirror(After(EmptyTables(n), h), Replay(EmptyMarket(n), h))
  {
    assert WellFormedMarket(EmptyMarket(n)) && TablesMirror(EmptyTables(n), EmptyMarket(n));
    StreamMirrors(EmptyTables(n), EmptyMarket(n), h);
  }

  lemma {:induction false} SetGapless(keys: set<nat>, n: nat)
    requires |keys| == n && forall k :: k in keys ==> k < n
    ensures forall k :: 0 <= k < n ==> k in keys
  {
    if n > 0 {
      if n - 1 !in keys {
        SetTooMany(keys, n - 1);
      }
      SetGapless(keys - {n - 1}, n - 1);
    }
  }

  lemma {:induction false} SetTooMany(keys: set<nat>, n: nat)
    requires forall k :: k in keys ==> k < n
    ensures |keys| <= n
  {
    if n > 0 {
      SetTooMany(keys - {n - 1}, n - 1);
    } else {
      assert keys == {};
    }
  }

  lemma {:induction false} Gapless(q: Queue, n: nat)
    requires |q| == n && forall k :: k in q ==> k < n
    ensures forall k :: 0 <= k < n ==> k in q
  {
    SetGapless(q.Keys, n);
  }

  /** A queue numbered 0, 1, ... that starts and ends like `s`, and agrees with it, is `s`. */
  lemma {:induction false} QueueIsWhole(q: Queue, s: seq<MarketUpdate>)
    requires QueuedFrom(q, s) && Complete(q)
    requires forall k :: 0 <= k < |s| - 1 ==> !s[k].SnapshotEnd?
    ensures |q| == |s| && forall k :: 0 <= k < |s| ==> k in q && q[k] == s[k]
  {
    Gapless(q, |q|);
    assert FromSnapshot(s, |q| - 1, q[|q| - 1]);
    forall k | 0 <= k < |q|
      ensures k in q && q[k] == s[k]
    {
      assert FromSnapshot(s, k, q[k]);
    }
  }

  /** Reading such a queue in order leaves out the two markers. */
  lemma {:induction false} EventsOfWhole(q: Queue, s: seq<MarketUpdate>)
    requires 2 <= |s| && IsMarker(s[0]) && IsMarker(s[|s| - 1]) && forall k :: 0 < k < |s| - 1 ==> !IsMarker(s[k])
    requires forall k :: 0 <= k < |s| ==> k in q && q[k] == s[k]
    ensures Events(q, 0, |s|) == s[1..|s| - 1]
  {
    hide Events, IsMarker;
    EventsSplit(q, 0, 1, |s|);
    OneEvent(q, 0);
    EventsOfRest(q, s);
    assert [] + s[1..|s| - 1] == s[1..|s| - 1];
  }

  /** The same from the second message on. */
  lemma {:induction false} EventsOfRest(q: Queue, s: seq<MarketUpdate>)
    requires 2 <= |s| && IsMarker(s[|s| - 1]) && forall k :: 0 < k < |s| - 1 ==> !IsMarker(s[k])
    requires forall k :: 0 <= k < |s| ==> k in q && q[k] == s[k]
    ensures Events(q, 1, |s|) == s[1..|s| - 1]
  {
    EventsOf(q, s, 1, |s| - 1, 0);
    LastLeftOut(q, 1, |s|);
  }

  lemma {:induction false} LastLeftOut(q: Queue, lo: nat, hi: nat)
    requires lo < hi && hi - 1 in q && IsMarker(q[hi - 1])
    ensures Events(q, lo, hi) == Events(q, lo, hi - 1)
  {
    hide Events, IsMarker;
    EventsSplit(q, lo, hi - 1, hi);
    OneEvent(q, hi - 1);
    assert Events(q, lo, hi - 1) + [] == Events(q, lo, hi - 1);
  }

  lemma {:induction false} OneEvent(q: Queue, k: nat)
    ensures Events(q, k, k + 1) == if k in q && !IsMarker(q[k]) then [q[k]] else []
  {
  }

  /** A complete queue from one snapshot holds all of it. */
  lemma {:induction false} CompleteIsWhole(n: nat, ids: nat, h: seq<MarketUpdate>, stamp: nat, q: Queue)
    requires History(n, ids, h) && stamp <= |h|
    requires QueuedFrom(q, SnapshotAt(n, ids, h, stamp)) && Complete(q)
    ensures q[|q| - 1].stamp == stamp
    ensures Events(q, 0, |q|) == Body(After(EmptyTables(n), h[..stamp]), ids)
  {
    hide History, QueuedFrom, Complete, Events, SnapshotAt, Body, After;
    SnapshotShape(n, ids, h, stamp);
    QueueIsWhole(q, SnapshotAt(n, ids, h, stamp));
    EventsOfWhole(q, SnapshotAt(n, ids, h, stamp));
  }

  /** The queued incrementals from one number to another are a stretch of the history. */
  lemma {:induction false} StretchOfHistory(n: nat, ids: nat, h: seq<MarketUpdate>, q: Queue, lo: nat, hi: nat)
    requires History(n, ids, h) && 1 <= lo <= hi && lo <= |h| + 1
    requires forall k :: k in q ==> Incremental(h, k, q[k])
    requires forall k :: lo <= k < hi ==> k in q
    ensures hi <= |h| + 1 && Events(q, lo, hi) == h[lo - 1..hi - 1]
  {
    NoMarkers(EmptyMarket(n), h);
    hide History, AllFit, Events;
    assert lo < hi ==> hi - 1 in q && Incremental(h, hi - 1, q[hi - 1]);
    forall k | lo <= k < hi
      ensures k in q && q[k] == h[k - 1] && !IsMarker(q[k])
    {
      assert Incremental(h, k, q[k]);
    }
    EventsOf(q, h, lo, hi, 1);
  }

  lemma {:induction false} NoMarkers(m: Market, us: seq<MarketUpdate>)
    requires AllFit(m, us)
    ensures forall i :: 0 <= i < |us| ==> !IsMarker(us[i])
    decreases us
  {
    if us != [] {
      NoMarkers(ApplyIn(m, us[0]), us[1..]);
    }
  }

  /** A finished recovery leaves the subscriber with the exchange's books. */
  lemma {:induction false} RecoveredInSync(n: nat, ids: nat, h: seq<MarketUpdate>, out: seq<MarketUpdate>, stamp: nat,
                                           to: nat)
    requires History(n, ids, h) && stamp < to <= |h| + 1 && AllFit(EmptyMarket(n), out)
    ensures var more := Body(After(EmptyTables(n), h[..stamp]), ids) + h[stamp..to - 1];
      AllFit(EmptyMarket(n), out + more) && Replay(EmptyMarket(n), out + more) == Replay(EmptyMarket(n), h[..to - 1])
  {
    hide AllFit, Replay, After, Body, History;
    var e, body, tail := EmptyMarket(n), Body(After(EmptyTables(n), h[..stamp]), ids), h[stamp..to - 1];
    HistoryPrefix(n, ids, h, to - 1);
    HistoryPrefix(n, ids, h[..to - 1], stamp);
    assert h[..to - 1][..stamp] == h[..stamp] && h[..to - 1][stamp..] == tail;
    assert h[..to - 1] == h[..stamp] + tail && out + (body + tail) == (out + body) + tail;
    ReplaySplits(e, out, body);
    AllFitSplits(e, out, body);
    ReplaySplits(e, out + body, tail);
    AllFitSplits(e, out + body, tail);
    ReplaySplits(e, h[..stamp], tail);
    SnapshotOfPrefix(n, ids, h, stamp, Replay(e, out));
  }

  lemma {:induction false} SnapshotOfPrefix(n: nat, ids: nat, h: seq<MarketUpdate>, stamp: nat, m: Market)
    requires History(n, ids, h) && stamp <= |h| && |m| == n
    ensures var body := Body(After(EmptyTables(n), h[..stamp]), ids);
      AllFit(m, body) && Replay(m, body) == Replay(EmptyMarket(n), h[..stamp])
  {
    HistoryPrefix(n, ids, h, stamp);
    SnapshotRebuilds(n, h[..stamp], ids, m);
  }

  lemma {:induction false} CheckSyncSafe(n: nat, ids: nat, h: seq<MarketUpdate>, c: Consumer, stamp: nat)
    requires History(n, ids, h) && Safe(n, ids, h, c, stamp) && c.inRecovery
    ensures Safe(n, ids, h, CheckSync(c), stamp)
  {
    hide AllFit, Replay, After, Body, History, FirstMissing, Events;
    if Complete(c.snapshots) {
      CompleteIsWhole(n, ids, h, stamp, c.snapshots);
      var from := stamp + 1;
      var to := FirstMissing(c.incrementals, from);
      StretchOfHistory(n, ids, h, c.incrementals, from, to);
      RecoveredInSync(n, ids, h, c.out, stamp, to);
    }
  }

  lemma {:induction false} InOrderSafe(n: nat, ids: nat, h: seq<MarketUpdate>, c: Consumer, u: MarketUpdate)
    requires History(n, ids, h) && AllFit(EmptyMarket(n), c.out) && InSync(n, h, c) && Incremental(h, c.nextExp, u)
    ensures AllFit(EmptyMarket(n), c.out + [u])
    ensures InSync(n, h, c.(nextExp := c.nextExp + 1, out := c.out + [u]))
  {
    var e, k := EmptyMarket(n), c.nextExp - 1;
    HistoryPrefix(n, ids, h, k + 1);
    assert h[..k + 1] == h[..k] + [u];
    AllFitSplits(e, h[..k], [u]);
    ReplaySplits(e, h[..k], [u]);
    AllFitSplits(e, c.out, [u]);
    ReplaySplits(e, c.out, [u]);
  }

  /** A message one of the two channels may deliver, when snapshot messages that are queued
      together come from one snapshot. */
  ghost predicate Deliverable(n: nat, ids: nat, h: seq<MarketUpdate>, c: Consumer, stamp: nat,
                              isSnapshot: bool, seqNum: nat, u: MarketUpdate, from: nat) {
    if isSnapshot then
      && from <= |h| && FromSnapshot(SnapshotAt(n, ids, h, from), seqNum, u)
      && (c.inRecovery && c.snapshots != map[] && seqNum !in c.snapshots ==> from == stamp)
    else
      from == stamp && Incremental(h, seqNum, u)
  }

  lemma {:induction false} EnqueueSafe(n: nat, ids: nat, h: seq<MarketUpdate>, c: Consumer, stamp: nat,
                    isSnapshot: bool, seqNum: nat, u: MarketUpdate, from: nat)
    requires History(n, ids, h) && Safe(n, ids, h, c, stamp) && c.inRecovery
    requires Deliverable(n, ids, h, c, stamp, isSnapshot, seqNum, u, from)
    ensures Safe(n, ids, h, Enqueue(c, isSnapshot, seqNum, u), from)
  {
    if isSnapshot {
      var q := if seqNum in c.snapshots then map[] else c.snapshots;
      CheckSyncSafe(n, ids, h, c.(snapshots := q[seqNum := u]), from);
    } else {
      CheckSyncSafe(n, ids, h, c.(incrementals := c.incrementals[seqNum := u]), stamp);
    }
  }

  lemma {:induction false} ReceiveSafe(n: nat, ids: nat, h: seq<MarketUpdate>, c: Consumer, stamp: nat,
                    isSnapshot: bool, seqNum: nat, u: MarketUpdate, from: nat)
    requires History(n, ids, h) && Safe(n, ids, h, c, stamp)
    requires Deliverable(n, ids, h, c, stamp, isSnapshot, seqNum, u, from)
    ensures Safe(n, ids, h, Receive(c, isSnapshot, seqNum, u),
                 if isSnapshot && (c.inRecovery || seqNum != c.nextExp) then from else stamp)
  {
    if c.inRecovery {
      EnqueueSafe(n, ids, h, c, stamp, isSnapshot, seqNum, u, from);
    } else if seqNum != c.nextExp {
      var r := c.(inRecovery := true, snapshots := map[], incrementals := map[]);
      EnqueueSafe(n, ids, h, r, stamp, isSnapshot, seqNum, u, from);
    } else if !isSnapshot {
      InOrderSafe(n, ids, h, c, u);
    }
  }

  // ----- whole runs

  /** The history so far, the consumer, and where its queued snapshot messages were taken. */
  datatype Net = Net(h: seq<MarketUpdate>, c: Consumer, stamp: nat)

  datatype Event =
    | Published(us: seq<MarketUpdate>)
    | Arrived(isSnapshot: bool, seqNum: nat, u: MarketUpdate, from: nat)

  ghost predicate Enabled(n: nat, ids: nat, net: Net, e: Event) {
    match e
    case Published(us) => History(n, ids, net.h + us)
    case Arrived(isSnapshot, seqNum, u, from) =>
      Deliverable(n, ids, net.h, net.c, net.stamp, isSnapshot, seqNum, u, from)
  }

  function After1(net: Net, e: Event): Net {
    match e
    case Published(us) => net.(h := net.h + us)
    case Arrived(isSnapshot, seqNum, u, from) =>
      Net(net.h, Receive(net.c, isSnapshot, seqNum, u),
          if isSnapshot && (net.c.inRecovery || seqNum != net.c.nextExp) then from else net.stamp)
  }

  /** Publishing and arrivals in any order: loss is an arrival that never happens, and
      nothing forbids repeating or reordering them. */
  ghost predicate Runs(n: nat, ids: nat, net: Net, es: seq<Event>, end: Net)
    decreases es
  {
    if es == [] then net == end else Enabled(n, ids, net, es[0]) && Runs(n, ids, After1(net, es[0]), es[1..], end)
  }

  lemma {:induction false} SafeGrows(n: nat, ids: nat, h: seq<MarketUpdate>, us: seq<MarketUpdate>, c: Consumer,
                                     stamp: nat)
    requires Safe(n, ids, h, c, stamp)
    ensures Safe(n, ids, h + us, c, stamp)
  {
    assert (h + us)[..stamp] == h[..stamp];
    assert 1 <= c.nextExp <= |h| + 1 ==> (h + us)[..c.nextExp - 1] == h[..c.nextExp - 1];
    forall k | k in c.incrementals
      ensures Incremental(h + us, k, c.incrementals[k])
    {
      assert Incremental(h, k, c.incrementals[k]);
    }
  }

  /** Whatever is lost, repeated or reordered: outside recovery, what the consumer has passed
      on replays to exactly the exchange's books after update `nextExp - 1`. */
  lemma {:induction false} RunSafe(n: nat, ids: nat, net: Net, es: seq<Event>, end: Net)
    requires History(n, ids, net.h) && Safe(n, ids, net.h, net.c, net.stamp) && Runs(n, ids, net, es, end)
    ensures History(n, ids, end.h) && Safe(n, ids, end.h, end.c, end.stamp)
    decreases es
  {
    if es != [] {
      match es[0] {
        case Published(us) => SafeGrows(n, ids, net.h, us, net.c, net.stamp);
        case Arrived(isSnapshot, seqNum, u, from) =>
          ReceiveSafe(n, ids, net.h, net.c, net.stamp, isSnapshot, seqNum, u, from);
      }
      RunSafe(n, ids, After1(net, es[0]), es[1..], end);
    }
  }
}
