/** Nothing the network has done keeps a consumer from catching up. */
module Liveness {
  import opened Messages
  import opened MarketData
  import opened Recovery
  import opened Progress

  lemma {:induction false} RunStaysTidy(n: nat, ids: nat, net: Net, es: seq<Event>, end: Net)
    requires Tidy(net.c) && Runs(n, ids, net, es, end)
    ensures Tidy(end.c)
    decreases es
  {
    hide Tidy, Enabled, Receive;
    if es != [] {
      match es[0] {
        case Published(us) =>
        case Arrived(isSnapshot, seqNum, u, from) => ReceiveTidy(net.c, isSnapshot, seqNum, u);
      }
      RunStaysTidy(n, ids, After1(net, es[0]), es[1..], end);
    }
  }

  /** One event, then a run. */
  lemma {:induction false} Prepended(n: nat, ids: nat, net: Net, e: Event, es: seq<Event>, end: Net)
    requires Enabled(n, ids, net, e) && Runs(n, ids, After1(net, e), es, end)
    ensures Runs(n, ids, net, [e] + es, end)
  {
    assert ([e] + es)[1..] == es;
  }

  // ----- outside recovery

  /** The updates missing arrive in sequence. */
  lemma {:induction false} InSequence(n: nat, ids: nat, net: Net) returns (es: seq<Event>, end: Net)
    requires !net.c.inRecovery && 1 <= net.c.nextExp <= |net.h| + 1
    ensures Runs(n, ids, net, es, end) && end.h == net.h && !end.c.inRecovery && end.c.nextExp == |net.h| + 1
    decreases |net.h| + 1 - net.c.nextExp
  {
    if net.c.nextExp == |net.h| + 1 {
      es, end := [], net;
    } else {
      var e := Arrived(false, net.c.nextExp, net.h[net.c.nextExp - 1], net.stamp);
      var rest;
      rest, end := InSequence(n, ids, After1(net, e));
      Prepended(n, ids, net, e, rest, end);
      es := [e] + rest;
    }
  }

  // ----- in recovery

  /** The state while the snapshot of everything published so far is collected. */
  ghost predicate Collecting(n: nat, ids: nat, net: Net, k: nat) {
    var s := SnapshotAt(n, ids, net.h, |net.h|);
    && SnapshotLike(s) && s[|s| - 1] == SnapshotEnd(|net.h|) && 0 < k < |s|
    && net.c.inRecovery && net.c.snapshots == FirstOf(s, k) && net.stamp == |net.h|
    && forall j :: j in net.c.incrementals ==> j <= |net.h|
  }

  lemma {:induction false} CollectOne(n: nat, ids: nat, net: Net, k: nat) returns (e: Event)
    requires Collecting(n, ids, net, k)
    ensures Enabled(n, ids, net, e) && After1(net, e).h == net.h
    ensures var c := After1(net, e).c; var s := SnapshotAt(n, ids, net.h, |net.h|);
      if k == |s| - 1 then !c.inRecovery && c.nextExp == |net.h| + 1 else Collecting(n, ids, After1(net, e), k + 1)
  {
    hide SnapshotAt, SnapshotLike, Receive, FirstOf;
    var s := SnapshotAt(n, ids, net.h, |net.h|);
    e := Arrived(true, k, s[k], |net.h|);
    NotYet(s, k);
    if k < |s| - 1 {
      OneMoreQueued(net.c, s, k);
    } else {
      LastQueued(net.c, s);
      NothingBeyond(net.c.incrementals, |net.h| + 1);
    }
  }

  lemma {:induction false} NotYet(s: seq<MarketUpdate>, k: nat)
    requires k < |s|
    ensures k !in FirstOf(s, k)
  {
  }

  lemma {:induction false} NothingBeyond(q: Queue, from: nat)
    requires forall j :: j in q ==> j < from
    ensures FirstMissing(q, from) == from && NoGap(q, from)
  {
  }

  lemma {:induction false} CollectRest(n: nat, ids: nat, net: Net, k: nat) returns (es: seq<Event>, end: Net)
    requires Collecting(n, ids, net, k)
    ensures Runs(n, ids, net, es, end) && end.h == net.h && !end.c.inRecovery && end.c.nextExp == |net.h| + 1
    decreases |SnapshotAt(n, ids, net.h, |net.h|)| - k
  {
    hide SnapshotAt, Collecting, Enabled, After1;
    CollectingWithin(n, ids, net, k);
    var e := CollectOne(n, ids, net, k);
    var s := SnapshotAt(n, ids, net.h, |net.h|);
    if k == |s| - 1 {
      Prepended(n, ids, net, e, [], After1(net, e));
      es, end := [e] + [], After1(net, e);
    } else {
      var rest;
      rest, end := CollectRest(n, ids, After1(net, e), k + 1);
      Prepended(n, ids, net, e, rest, end);
      es := [e] + rest;
    }
  }

  lemma {:induction false} CollectingWithin(n: nat, ids: nat, net: Net, k: nat)
    requires Collecting(n, ids, net, k)
    ensures k < |SnapshotAt(n, ids, net.h, |net.h|)|
  {
  }

  /** A snapshot of everything published so far starts over whatever was queued. */
  lemma {:induction false} StartCollecting(n: nat, ids: nat, net: Net) returns (e: Event)
    requires History(n, ids, net.h) && Safe(n, ids, net.h, net.c, net.stamp) && net.c.inRecovery && Tidy(net.c)
    ensures Enabled(n, ids, net, e) && After1(net, e).h == net.h && Collecting(n, ids, After1(net, e), 1)
  {
    hide SnapshotAt, Receive, History, FirstOf;
    var s := SnapshotAt(n, ids, net.h, |net.h|);
    SnapshotShape(n, ids, net.h, |net.h|);
    e := Arrived(true, 0, s[0], |net.h|);
    FirstQueued(net.c, s);
    forall j | j in net.c.incrementals
      ensures j <= |net.h|
    {
      assert Incremental(net.h, j, net.c.incrementals[j]);
    }
  }

  /** From every state that can come about, whatever was lost, repeated or reordered on the way to
      it: some run of arrivals brings the consumer out of recovery and up to the last update. */
  lemma {:induction false} CatchesUp(n: nat, ids: nat, es: seq<Event>, net: Net) returns (more: seq<Event>, end: Net)
    requires Runs(n, ids, Net([], FRESH, 0), es, net)
    ensures Runs(n, ids, net, more, end) && end.h == net.h && !end.c.inRecovery && end.c.nextExp == |net.h| + 1
    ensures AllFit(EmptyMarket(n), end.c.out) && Replay(EmptyMarket(n), end.c.out) == Replay(EmptyMarket(n), net.h)
  {
    hide SnapshotAt, Runs, Collecting, History, Tidy;
    StartsRight(n, ids);
    RunStaysTidy(n, ids, Net([], FRESH, 0), es, net);
    RunSafe(n, ids, Net([], FRESH, 0), es, net);
    if net.c.inRecovery {
      var e := StartCollecting(n, ids, net);
      var rest;
      rest, end := CollectRest(n, ids, After1(net, e), 1);
      Prepended(n, ids, net, e, rest, end);
      more := [e] + rest;
    } else {
      more, end := InSequence(n, ids, net);
    }
    RunSafe(n, ids, net, more, end);
    assert net.h[..|net.h|] == net.h;
  }

  lemma {:induction false} StartsRight(n: nat, ids: nat)
    ensures History(n, ids, []) && Safe(n, ids, [], FRESH, 0) && Tidy(FRESH)
  {
  }
}
