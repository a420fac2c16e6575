/** The sequencer: requests read in one round of the server are published in the order in
    which they were received. */
module Sequencers {
  import opened LFQueues
  import opened Wire

  const MAX_PENDING_REQUESTS: nat := 1024

  datatype Pending = Pending(recvTime: nat, request: Message)

  const NO_REQUEST := Pending(0, [])

  ghost predicate InOrder(s: seq<Pending>) {
    forall i, j :: 0 <= i < j < |s| ==> s[i].recvTime <= s[j].recvTime
  }

  /** What sorting by receive time may make of a batch. */
  ghost predicate Sorts(before: seq<Pending>, after: seq<Pending>) {
    InOrder(after) && multiset(after) == multiset(before)
  }

  function Requests(s: seq<Pending>): (r: seq<Message>)
    ensures |r| == |s|
  {
    seq(|s|, i requires 0 <= i < |s| => s[i].request)
  }

  /** The queue keeps its elements, and behind them come the requests of the batch one by one. */
  ghost predicate QueuedBehind(before: seq<Message>, after: seq<Message>, batch: seq<Pending>) {
    && |after| == |before| + |batch|
    && (forall i :: 0 <= i < |before| ==> after[i] == before[i])
    && forall i :: 0 <= i < |batch| ==> after[|before| + i] == batch[i].request
  }

  /** Of two requests of a batch, the one received earlier is nearer the front of the queue. */
  lemma {:induction false} EarlierIsNearer(before: seq<Message>, after: seq<Message>, waiting: seq<Pending>,
                                           batch: seq<Pending>, x: Pending, y: Pending)
    requires QueuedBehind(before, after, batch) && Sorts(waiting, batch)
    requires x in waiting && y in waiting && x.recvTime < y.recvTime
    ensures exists i, j :: |before| <= i < j < |after| && after[i] == x.request && after[j] == y.request
  {
    var i := PositionIn(batch, waiting, x);
    var j := PositionIn(batch, waiting, y);
    assert after[|before| + i] == x.request && after[|before| + j] == y.request;
    assert i < j;
  }

  lemma {:induction false} PositionIn(s: seq<Pending>, t: seq<Pending>, x: Pending) returns (i: nat)
    requires multiset(s) == multiset(t) && x in t
    ensures i < |s| && s[i] == x
  {
    assert x in multiset(t);
    assert x in s;
    i :| 0 <= i < |s| && s[i] == x;
  }

  // ----- requests of one client keep their order

  function ByClient(s: seq<Pending>, c: nat): seq<Pending> {
    if s == [] then [] else (if ClientOf(s[0].request) == c then [s[0]] else []) + ByClient(s[1..], c)
  }

  /** Later requests have later times; only equal requests may share a time. */
  ghost predicate Told(s: seq<Pending>) {
    forall i, j :: 0 <= i < j < |s| ==> s[i].recvTime < s[j].recvTime || s[i] == s[j]
  }

  lemma {:induction false} CountByClient(s: seq<Pending>, c: nat, p: Pending)
    ensures multiset(ByClient(s, c))[p] == if ClientOf(p.request) == c then multiset(s)[p] else 0
  {
    if s != [] {
      CountByClient(s[1..], c, p);
      assert s == [s[0]] + s[1..];
    }
  }

  lemma {:induction false} InByClient(s: seq<Pending>, c: nat)
    ensures forall p :: p in ByClient(s, c) ==> p in s
  {
    if s != [] {
      InByClient(s[1..], c);
    }
  }

  lemma {:induction false} InOrderByClient(s: seq<Pending>, c: nat)
    requires InOrder(s)
    ensures InOrder(ByClient(s, c))
  {
    if s != [] {
      InOrderByClient(s[1..], c);
      InByClient(s[1..], c);
      assert forall p :: p in s[1..] ==> s[0].recvTime <= p.recvTime;
    }
  }

  lemma {:induction false} EarliestIsFirst(a: seq<Pending>, b: seq<Pending>)
    requires InOrder(a) && Told(b) && multiset(a) == multiset(b) && b != []
    ensures a != [] && a[0] == b[0]
  {
    assert b[0] in multiset(a) && b[0] in a;
    assert a[0] in multiset(b) && a[0] in b;
    var i, j :| 0 <= i < |a| && a[i] == b[0] && 0 <= j < |b| && b[j] == a[0];
  }

  lemma {:induction false} SameRest(a: seq<Pending>, b: seq<Pending>)
    requires a != [] && b != [] && a[0] == b[0] && multiset(a) == multiset(b)
    ensures multiset(a[1..]) == multiset(b[1..])
  {
    assert a == [a[0]] + a[1..] && b == [b[0]] + b[1..];
    assert multiset(a) - multiset{a[0]} == multiset(a[1..]);
    assert multiset(b) - multiset{b[0]} == multiset(b[1..]);
  }

  /** A list without ties between different requests can be sorted in one way only. */
  lemma {:induction false} SortedOnce(a: seq<Pending>, b: seq<Pending>)
    requires InOrder(a) && Told(b) && multiset(a) == multiset(b)
    ensures a == b
  {
    assert |multiset(a)| == |a| && |multiset(b)| == |b|;
    if b != [] {
      EarliestIsFirst(a, b);
      SameRest(a, b);
      SortedOnce(a[1..], b[1..]);
      assert a == [a[0]] + a[1..] && b == [b[0]] + b[1..];
    }
  }

  lemma {:induction false} OrderKept(before: seq<Pending>, after: seq<Pending>, c: nat)
    requires Sorts(before, after) && Told(ByClient(before, c))
    ensures ByClient(after, c) == ByClient(before, c)
  {
    InOrderByClient(after, c);
    forall p
      ensures multiset(ByClient(after, c))[p] == multiset(ByClient(before, c))[p]
    {
      CountByClient(after, c, p);
      CountByClient(before, c, p);
    }
    SortedOnce(ByClient(after, c), ByClient(before, c));
  }

  lemma {:induction false} ByClientSplits(a: seq<Pending>, b: seq<Pending>, c: nat)
    ensures ByClient(a + b, c) == ByClient(a, c) + ByClient(b, c)
  {
    if a == [] {
      assert a + b == b;
    } else {
      var first := if ClientOf(a[0].request) == c then [a[0]] else [];
      calc {
        ByClient(a + b, c);
        { assert (a + b)[0] == a[0] && (a + b)[1..] == a[1..] + b; }
        first + ByClient(a[1..] + b, c);
        { ByClientSplits(a[1..], b, c); }
        first + (ByClient(a[1..], c) + ByClient(b, c));
        (first + ByClient(a[1..], c)) + ByClient(b, c);
        ByClient(a, c) + ByClient(b, c);
      }
    }
  }

  /** Where the i-th request of a client stands. */
  lemma {:induction false} Position(s: seq<Pending>, c: nat, i: nat) returns (p: nat)
    requires i < |ByClient(s, c)|
    ensures p < |s| && s[p] == ByClient(s, c)[i] && ClientOf(s[p].request) == c
      && ByClient(s[..p], c) == ByClient(s, c)[..i]
  {
    if ClientOf(s[0].request) == c && i == 0 {
      p := 0;
    } else {
      var k := if ClientOf(s[0].request) == c then i - 1 else i;
      var q := Position(s[1..], c, k);
      p := q + 1;
      assert s[..p] == [s[0]] + s[1..][..q];
      assert s[..p][1..] == s[1..][..q];
    }
  }

  lemma {:induction false} SortExists(s: seq<Pending>) returns (after: seq<Pending>)
    ensures Sorts(s, after)
  {
    if s == [] {
      after := [];
    } else {
      var rest := SortExists(s[1..]);
      var k := PlaceOf(rest, s[0].recvTime);
      after := rest[..k] + [s[0]] + rest[k..];
      assert rest == rest[..k] + rest[k..] && s == [s[0]] + s[1..];
    }
  }

  lemma {:induction false} PlaceOf(s: seq<Pending>, t: nat) returns (k: nat)
    requires InOrder(s)
    ensures k <= |s| && (forall i :: 0 <= i < k ==> s[i].recvTime <= t) && forall i :: k <= i < |s| ==>
      t <= s[i].recvTime
  {
    if s == [] || t <= s[0].recvTime {
      k := 0;
    } else {
      var j := PlaceOf(s[1..], t);
      k := j + 1;
      assert forall i :: 0 < i < |s| ==> s[i] == s[1..][i - 1];
    }
  }

  /** Two different requests of a client at one time may be swapped by a sort. */
  lemma {:induction false} TieSwapped(before: seq<Pending>, after: seq<Pending>, c: nat, i: nat, j: nat)
    returns (other: seq<Pending>)
    requires Sorts(before, after) && i < j < |ByClient(after, c)|
    requires var mine := ByClient(after, c); mine[i].recvTime == mine[j].recvTime && mine[i] != mine[j]
    ensures Sorts(before, other) && ByClient(other, c) != ByClient(after, c)
  {
    var mine := ByClient(after, c);
    var p := Position(after, c, i);
    var q := Position(after, c, j);
    MoreBefore(after, c, p, q);
    other := after[p := after[q]][q := after[p]];
    Swapped(after, p, q);
    assert other[..p] == after[..p];
    FirstDifference(other, c, p, mine[..i]);
  }

  lemma {:induction false} MoreBefore(s: seq<Pending>, c: nat, p: nat, q: nat)
    requires p < |s| && q < |s|
    ensures q <= p ==> |ByClient(s[..q], c)| <= |ByClient(s[..p], c)|
  {
    if q <= p {
      ByClientSplits(s[..q], s[q..p], c);
      assert s[..p] == s[..q] + s[q..p];
    }
  }

  lemma {:induction false} Swapped(s: seq<Pending>, p: nat, q: nat)
    requires p < |s| && q < |s| && InOrder(s) && s[p].recvTime == s[q].recvTime
    ensures Sorts(s, s[p := s[q]][q := s[p]])
  {
  }

  lemma {:induction false} FirstDifference(s: seq<Pending>, c: nat, p: nat, mine: seq<Pending>)
    requires p < |s| && ClientOf(s[p].request) == c && ByClient(s[..p], c) == mine
    ensures |mine| < |ByClient(s, c)| && ByClient(s, c)[|mine|] == s[p]
  {
    assert s == s[..p] + ([s[p]] + s[p + 1..]);
    ByClientSplits(s[..p], [s[p]] + s[p + 1..], c);
    assert ([s[p]] + s[p + 1..])[0] == s[p];
  }

  /** Every sort by receive time, whatever it does with ties, keeps the order of a client's
      requests exactly when any two of them have increasing times or are equal. */
  lemma {:induction false} ClientOrderKept(before: seq<Pending>, c: nat)
    ensures (forall after :: Sorts(before, after) ==> ByClient(after, c) == ByClient(before, c))
      <==> Told(ByClient(before, c))
  {
    if Told(ByClient(before, c)) {
      forall after | Sorts(before, after)
        ensures ByClient(after, c) == ByClient(before, c)
      {
        OrderKept(before, after, c);
      }
    }
    if forall after :: Sorts(before, after) ==> ByClient(after, c) == ByClient(before, c) {
      var mine := ByClient(before, c);
      var after := SortExists(before);
      InOrderByClient(after, c);
      forall i, j | 0 <= i < j < |mine|
        ensures mine[i].recvTime < mine[j].recvTime || mine[i] == mine[j]
      {
        if mine[i].recvTime == mine[j].recvTime && mine[i] != mine[j] {
          var other := TieSwapped(before, after, c, i, j);
        }
      }
    }
  }

  // ----- runs of batches

  datatype Event = Accepted(p: Pending) | Flushed(batch: seq<Pending>)

  /** From `pending` and `out`, a run of events ends with `pending'` and `out'`. */
  ghost predicate Runs(pending: seq<Pending>, out: seq<Pending>, es: seq<Event>, pending': seq<Pending>,
                       out': seq<Pending>)
    decreases es
  {
    if es == [] then pending == pending' && out == out'
    else match es[0]
      case Accepted(p) => |pending| < MAX_PENDING_REQUESTS && Runs(pending + [p], out, es[1..], pending', out')
      case Flushed(batch) => Sorts(pending, batch) && Runs([], out + batch, es[1..], pending', out')
  }

  function AcceptedIn(es: seq<Event>): seq<Pending> {
    if es == [] then [] else (if es[0].Accepted? then [es[0].p] else []) + AcceptedIn(es[1..])
  }

  /** Over any run, each accepted request is published exactly once or is still pending. */
  lemma {:induction false} PublishedOnce(pending: seq<Pending>, out: seq<Pending>, es: seq<Event>,
                                         pending': seq<Pending>, out': seq<Pending>)
    requires Runs(pending, out, es, pending', out')
    ensures multiset(out') + multiset(pending') == multiset(out) + multiset(pending) + multiset(AcceptedIn(es))
    decreases es
  {
    if es != [] {
      match es[0] {
        case Accepted(p) => PublishedOnce(pending + [p], out, es[1..], pending', out');
        case Flushed(batch) => PublishedOnce([], out + batch, es[1..], pending', out');
      }
    }
  }

  // ----- the sequencer itself

  class FIFOSequencer {
    const incoming: LFQueue<Message>
    const pendingRequests: array<Pending>
    var pendingSize: nat

    ghost predicate Valid()
      reads this, incoming, incoming.store
    {
      && incoming.Valid() && incoming.store as object != pendingRequests as object
      && pendingRequests.Length == MAX_PENDING_REQUESTS && pendingSize <= MAX_PENDING_REQUESTS
    }

    function Waiting(): seq<Pending>
      requires pendingSize <= pendingRequests.Length
      reads this, pendingRequests
    {
      pendingRequests[..pendingSize]
    }

    constructor (incoming: LFQueue<Message>)
      requires incoming.Valid()
      ensures Valid() && fresh(pendingRequests) && this.incoming == incoming && Waiting() == []
    {
      this.incoming := incoming;
      pendingRequests := new Pending[MAX_PENDING_REQUESTS](_ => NO_REQUEST);
      pendingSize := 0;
    }

    /** `ok` is false when the program stops for too many pending requests. */
    method AddClientRequest(rxTime: nat, request: Message) returns (ok: bool)
      requires Valid()
      modifies this`pendingSize, pendingRequests
      ensures Valid() && (ok <==> |old(Waiting())| < 1024)
      ensures Waiting() == old(Waiting()) + if ok then [Pending(rxTime, request)] else []
    {
      ok := pendingSize < pendingRequests.Length;
      if ok {
        pendingRequests[pendingSize] := Pending(rxTime, request);
        pendingSize := pendingSize + 1;
      }
    }

    /** Write the first `n` requests, in order, to the queue. */
    method Publish(n: nat)
      requires Valid() && n <= pendingRequests.Length && n + |incoming.contents| <= incoming.store.Length
      modifies incoming, incoming.store
      ensures Valid() && incoming.contents == old(incoming.contents) + Requests(pendingRequests[..n])
      ensures pendingRequests[..] == old(pendingRequests[..]) && pendingSize == old(pendingSize)
    {
      hide Holds, SlotOf;
      for i := 0 to n
        invariant Valid() && incoming.contents == old(incoming.contents) + Requests(pendingRequests[..i])
      {
        var next := incoming.GetNextToWriteTo();
        incoming.Put(next, pendingRequests[i].request);
        incoming.UpdateWriteIndex();
        assert Requests(pendingRequests[..i + 1]) == Requests(pendingRequests[..i]) + [pendingRequests[i].request];
      }
    }

    /** The waiting requests, sorted, go out; none is kept. */
    method SequenceAndPublish() returns (ghost batch: seq<Pending>)
      requires Valid() && |incoming.contents| + pendingSize <= incoming.store.Length
      modifies this`pendingSize, pendingRequests, incoming, incoming.store
      ensures Valid() && Waiting() == [] && Sorts(old(Waiting()), batch)
      ensures incoming.contents == old(incoming.contents) + Requests(batch)
      ensures QueuedBehind(old(incoming.contents), incoming.contents, batch)
    {
      if pendingSize == 0 {
        return [];
      }
      SortByTime(pendingRequests, pendingSize);
      batch := pendingRequests[..pendingSize];
      Publish(pendingSize);
      pendingSize := 0;
    }
  }

  /** The first i places hold, in order, requests no later than the others. */
  ghost predicate SortedTo(before: seq<Pending>, s: seq<Pending>, i: nat) {
    && i <= |s| && multiset(s) == multiset(before) && InOrder(s[..i])
    && forall j, k :: 0 <= j < i <= k < |s| ==> s[j].recvTime <= s[k].recvTime
  }

  lemma {:induction false} SwapSorts(before: seq<Pending>, s: seq<Pending>, i: nat, least: nat)
    requires SortedTo(before, s, i) && i <= least < |s| && forall j :: i <= j < |s| ==>
      s[least].recvTime <= s[j].recvTime
    ensures SortedTo(before, s[i := s[least]][least := s[i]], i + 1)
  {
  }

  lemma {:induction false} SortedAll(before: seq<Pending>, s: seq<Pending>)
    requires SortedTo(before, s, |s|)
    ensures Sorts(before, s)
  {
  }

  /** Sorting by receive time; nothing is promised about ties. */
  method SortByTime(a: array<Pending>, n: nat)
    requires n <= a.Length
    modifies a
    ensures Sorts(old(a[..n]), a[..n]) && a[n..] == old(a[n..])
  {
    hide SortedTo, Sorts;
    NothingSorted(a[..n]);
    for i := 0 to n
      invariant SortedTo(old(a[..n]), a[..n], i) && a[n..] == old(a[n..])
    {
      var least := Earliest(a, i, n);
      ghost var s := a[..n];
      SwapSorts(old(a[..n]), s, i, least);
      a[i], a[least] := a[least], a[i];
      assert a[..n] == s[i := s[least]][least := s[i]];
    }
    SortedAll(old(a[..n]), a[..n]);
  }

  lemma {:induction false} NothingSorted(s: seq<Pending>)
    ensures SortedTo(s, s, 0)
  {
  }

  method Earliest(a: array<Pending>, lo: nat, hi: nat) returns (k: nat)
    requires lo < hi <= a.Length
    ensures lo <= k < hi && forall j :: lo <= j < hi ==> a[k].recvTime <= a[j].recvTime
  {
    k := lo;
    for i := lo + 1 to hi
      invariant lo <= k < i && forall j :: lo <= j < i ==> a[k].recvTime <= a[j].recvTime
    {
      if a[i].recvTime < a[k].recvTime {
        k := i;
      }
    }
  }
}
