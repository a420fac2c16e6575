/** The market data consumer as the source keeps it, proved against Recovery. */
module Consumers {
  import opened Messages
  import opened Recovery

  lemma {:induction false} SmallestExists(s: set<nat>, bound: nat)
    requires exists k :: k in s && k <= bound
    ensures exists k :: k in s && forall j :: j in s ==> k <= j
  {
    var k :| k in s && k <= bound;
    if j :| j in s && j < k {
      SmallestExists(s, k - 1);
    }
  }

  /** Maps are walked by ascending key, as an ordered map is. */
  method Smallest(s: set<nat>) returns (k: nat)
    requires s != {}
    ensures k in s && forall j :: j in s ==> k <= j
  {
    ghost var any :| any in s;
    SmallestExists(s, any);
    k :| k in s && forall j :: j in s ==> k <= j;
  }

  lemma {:induction false} WholeSize(q: Queue, n: nat)
    requires (forall k :: k in q ==> k < n) && forall k :: 0 <= k < n ==> k in q
    ensures |q| == n
  {
    SetTooMany(q.Keys, n);
    AtLeast(q.Keys, n);
  }

  lemma {:induction false} AtLeast(keys: set<nat>, n: nat)
    requires forall k :: 0 <= k < n ==> k in keys
    ensures n <= |keys|
  {
    if n > 0 {
      AtLeast(keys - {n - 1}, n - 1);
    }
  }

  lemma {:induction false} GapBreaks(q: Queue, n: nat, k: nat)
    requires n !in q && k in q && n < k
    ensures !(forall j :: j in q ==> j < |q|)
  {
    if forall j :: j in q ==> j < |q| {
      Gapless(q, |q|);
    }
  }

  class MarketDataConsumer {
    var nextExp: nat
    var inRecovery: bool
    var snapshots: Queue
    var incrementals: Queue
    var out: seq<MarketUpdate>

    constructor ()
      ensures Abs() == FRESH
    {
      nextExp, inRecovery, snapshots, incrementals, out := 1, false, map[], map[], [];
    }

    function Abs(): Consumer
      reads this
    {
      Consumer(nextExp, inRecovery, snapshots, incrementals, out)
    }

    /** The snapshot body in order, if the queued numbers have no gap from 0 on. */
    method ScanSnapshot() returns (complete: bool, events: seq<MarketUpdate>)
      ensures complete <==> forall k :: k in snapshots ==> k < |snapshots|
      ensures complete ==> events == Events(snapshots, 0, |snapshots|)
    {
      var left, next := snapshots.Keys, 0;
      events := [];
      while left != {}
        invariant left <= snapshots.Keys && forall j :: j in snapshots ==> (j in left <==> next <= j)
        invariant forall j :: 0 <= j < next ==> j in snapshots
        invariant events == Events(snapshots, 0, next)
        decreases left
      {
        var k := Smallest(left);
        if k != next {
          GapBreaks(snapshots, next, k);
          return false, events;
        }
        EventsSplit(snapshots, 0, next, next + 1);
        if !IsMarker(snapshots[k]) {
          events := events + [snapshots[k]];
        }
        left, next := left - {k}, next + 1;
      }
      WholeSize(snapshots, next);
      return true, events;
    }

    /** The queued incrementals from `from` on; `to` is the first one missing. */
    method ScanIncrementals(from: nat) returns (complete: bool, to: nat, events: seq<MarketUpdate>)
      ensures to == FirstMissing(incrementals, from)
      ensures complete <==> NoGap(incrementals, from)
      ensures events == Events(incrementals, from, to)
    {
      var left := incrementals.Keys;
      to, events := from, [];
      while left != {}
        invariant from <= to && left <= incrementals.Keys
        invariant forall j :: j in incrementals && j !in left ==> j < to
        invariant forall j, k :: j in incrementals && j !in left && k in left ==> j < k
        invariant forall j :: from <= j < to ==> j in incrementals
        invariant events == Events(incrementals, from, to)
        decreases left
      {
        var k := Smallest(left);
        if k == to {
          EventsSplit(incrementals, from, to, to + 1);
          if !IsMarker(incrementals[k]) {
            events := events + [incrementals[k]];
          }
          to := to + 1;
        } else if to < k {
          FirstMissingIs(incrementals, from, to);
          return false, to, events;
        }
        left := left - {k};
      }
      FirstMissingIs(incrementals, from, to);
      return true, to, events;
    }

    method CheckSnapshotSync()
      modifies this
      ensures Abs() == CheckSync(old(Abs()))
    {
      hide Events, FirstMissing;
      if snapshots == map[] {
        return;
      }
      var first := Smallest(snapshots.Keys);
      if !snapshots[first].SnapshotStart? {
        snapshots := map[];
        return;
      }
      var complete, events := ScanSnapshot();
      if !complete {
        snapshots := map[];
        return;
      }
      Gapless(snapshots, |snapshots|);
      var last := snapshots[|snapshots| - 1];
      if !last.SnapshotEnd? {
        return;
      }
      var more;
      complete, nextExp, more := ScanIncrementals(last.stamp + 1);
      if !complete {
        snapshots := map[];
        return;
      }
      out := out + (events + more);
      snapshots, incrementals, inRecovery := map[], map[], false;
    }

    method StartSnapshotSync()
      modifies this
      ensures Abs() == old(Abs()).(snapshots := map[], incrementals := map[])
    {
      snapshots, incrementals := map[], map[];
    }

    method QueueMessage(isSnapshot: bool, seqNum: nat, u: MarketUpdate)
      modifies this
      ensures Abs() == Enqueue(old(Abs()), isSnapshot, seqNum, u)
      ensures old(inRecovery) && inRecovery ==>
        out == old(out) && incrementals == if isSnapshot then old(incrementals) else old(incrementals)[seqNum := u]
    {
      hide Unbroken, Complete, Events, FirstMissing, NoGap;
      if isSnapshot {
        if seqNum in snapshots {
          snapshots := map[];
        }
        snapshots := snapshots[seqNum := u];
      } else {
        incrementals := incrementals[seqNum := u];
      }
      CheckSnapshotSync();
    }

    method RecvCallback(isSnapshot: bool, msgs: seq<(nat, MarketUpdate)>)
      modifies this
      ensures Abs() == Callback(old(Abs()), isSnapshot, msgs)
      ensures isSnapshot && !old(inRecovery) ==> Abs() == old(Abs())
    {
      if isSnapshot && !inRecovery {
        return;
      }
      var i := 0;
      while i < |msgs|
        invariant i <= |msgs| && ReceiveAll(old(Abs()), isSnapshot, msgs) == ReceiveAll(Abs(), isSnapshot, msgs[i..])
      {
        var seqNum, u := msgs[i].0, msgs[i].1;
        var alreadyInRecovery := inRecovery;
        inRecovery := alreadyInRecovery || seqNum != nextExp;
        if inRecovery {
          if !alreadyInRecovery {
            StartSnapshotSync();
          }
          QueueMessage(isSnapshot, seqNum, u);
        } else if !isSnapshot {
          nextExp := nextExp + 1;
          out := out + [u];
        }
        i := i + 1;
      }
    }
  }
}
