/** The order server as the source keeps it: arrays per client, one socket at a time, and
    the sequencer behind them. */
module OrderServers {
  import opened Types
  import opened Wire
  import opened Protocol
  import opened LFQueues
  import opened Sequencers
  import opened Sockets

  function Stamped(rxTime: nat, ms: seq<Message>): (r: seq<Pending>)
    ensures |r| == |ms|
  {
    seq(|ms|, i requires 0 <= i < |ms| => Pending(rxTime, ms[i]))
  }

  lemma {:induction false} StampedSplits(rxTime: nat, a: seq<Message>, b: seq<Message>)
    ensures Stamped(rxTime, a + b) == Stamped(rxTime, a) + Stamped(rxTime, b)
  {
  }

  /** These wait under the time of one read, in the order in which they were accepted. */
  ghost predicate ReadAt(waiting: seq<Pending>, rxTime: nat, accepted: seq<Message>) {
    && |waiting| == |accepted|
    && forall i :: 0 <= i < |waiting| ==> waiting[i].recvTime == rxTime && waiting[i].request == accepted[i]
  }

  lemma {:induction false} StampedIsReadAt(before: seq<Pending>, rxTime: nat, ms: seq<Message>)
    ensures var after := before + Stamped(rxTime, ms);
      after[..|before|] == before && ReadAt(after[|before|..], rxTime, ms)
  {
  }

  /** What waited still waits, and behind it what one read has brought. */
  ghost predicate Grown(before: seq<Pending>, after: seq<Pending>, rxTime: nat, accepted: seq<Message>) {
    |before| <= |after| && after[..|before|] == before && ReadAt(after[|before|..], rxTime, accepted)
  }

  /** Two reads of one round, in whatever order the sockets were read: everything accepted in the
      earlier read comes before everything accepted in the later one. */
  lemma {:induction false} EarlierReadFirst(waiting: seq<Pending>, early: seq<Pending>, late: seq<Pending>,
                                            batch: seq<Pending>, t1: nat, a: seq<Message>, t2: nat, b: seq<Message>)
    requires ReadAt(early, t1, a) && ReadAt(late, t2, b) && t1 < t2
    requires Sorts(waiting + early + late, batch) || Sorts(waiting + late + early, batch)
    ensures forall p, q :: 0 <= p < |batch| && 0 <= q < |batch| && batch[p] in early && batch[q] in late ==> p < q
    ensures forall x :: x in early || x in late ==> x in batch
  {
    var all := waiting + early + late;
    assert multiset(all) == multiset(waiting + late + early);
    forall x | x in early || x in late
      ensures x in batch
    {
      assert x in all && x in multiset(all);
    }
  }

  /** `st` and `done` so far: taking the rest from there is taking all from the start. */
  ghost predicate SoFar<S>(start: Server<S>, socket: S, all: seq<Received>, st: Server<S>, done: seq<Message>,
                           rest: seq<Received>) {
    && |start.bound| == |start.nextExp| == |st.bound| == |st.nextExp|
    && FromClients(all, |start.bound|) && FromClients(rest, |st.bound|)
    && var t, u := TakeAll(start, socket, all), TakeAll(st, socket, rest);
    t.st == u.st && t.accepted == done + u.accepted
  }

  lemma {:induction false} StartsSoFar<S>(start: Server<S>, socket: S, all: seq<Received>)
    requires |start.bound| == |start.nextExp| && FromClients(all, |start.bound|)
    ensures SoFar(start, socket, all, start, [], all)
  {
  }

  lemma {:induction false} OneMoreSoFar<S>(start: Server<S>, socket: S, all: seq<Received>,
                                           st: Server<S>, done: seq<Message>,
                                           r: Received, rest: seq<Received>)
    requires SoFar(start, socket, all, st, done, [r] + rest)
    ensures ClientOf(r.1) < |st.bound| == |st.nextExp|
    ensures var t := Take(st, socket, r); SoFar(start, socket, all, t.st, done + t.accepted, rest)
  {
  }

  lemma {:induction false} AllSoFar<S>(start: Server<S>, socket: S, all: seq<Received>, st: Server<S>,
                                       done: seq<Message>)
    requires SoFar(start, socket, all, st, done, [])
    ensures TakeAll(start, socket, all) == Taken(st, done)
  {
  }

  /** All frames of one read get one receive time, so the batch of one read is certain to keep a
      client's order only when the client's requests in it are all the same. */
  lemma {:induction false} OneReadOrder(rxTime: nat, ms: seq<Message>, c: nat)
    ensures (forall after :: Sorts(Stamped(rxTime, ms), after) ==>
      ByClient(after, c) == ByClient(Stamped(rxTime, ms), c))
      <==> forall i, j :: 0 <= i < j < |ms| && ClientOf(ms[i]) == c && ClientOf(ms[j]) == c ==> ms[i] == ms[j]
  {
    hide Sorts;
    var s := Stamped(rxTime, ms);
    var mine := ByClient(s, c);
    ClientOrderKept(s, c);
    forall p
      ensures p in mine <==> p in s && ClientOf(p.request) == c
    {
      CountByClient(s, c, p);
      assert p in mine <==> 0 < multiset(mine)[p];
      assert p in s <==> 0 < multiset(s)[p];
    }
    if Told(mine) {
      forall i, j | 0 <= i < j < |ms| && ClientOf(ms[i]) == c && ClientOf(ms[j]) == c
        ensures ms[i] == ms[j]
      {
        assert s[i] in mine && s[j] in mine;
      }
    }
    if forall i, j :: 0 <= i < j < |ms| && ClientOf(ms[i]) == c && ClientOf(ms[j]) == c ==> ms[i] == ms[j] {
      forall i, j | 0 <= i < j < |mine|
        ensures mine[i] == mine[j]
      {
        assert mine[i] in mine && mine[j] in mine;
      }
    }
  }

  class OrderServer {
    const outgoingResponses: LFQueue<Message>
    const cidNextOutgoingSeqNum: array<nat>
    const cidNextExpSeqNum: array<nat>
    const cidTcpSocket: array<Option<TCPSocket>>
    const fifoSequencer: FIFOSequencer

    ghost predicate Valid()
      reads this, fifoSequencer, fifoSequencer.incoming, fifoSequencer.incoming.store
    {
      && fifoSequencer.Valid()
      && cidNextOutgoingSeqNum.Length == cidNextExpSeqNum.Length == cidTcpSocket.Length == MAX_CLIENTS
      && cidNextOutgoingSeqNum != cidNextExpSeqNum
      && cidNextOutgoingSeqNum as object != cidTcpSocket as object
      && cidNextExpSeqNum as object != cidTcpSocket as object
      && (forall a :: a in Arrays() ==>
        a != fifoSequencer.pendingRequests as object && a != fifoSequencer.incoming.store as object)
    }

    ghost function Arrays(): set<object> {
      {cidNextOutgoingSeqNum, cidNextExpSeqNum, cidTcpSocket}
    }

    function Abs(): Server<TCPSocket>
      reads cidTcpSocket, cidNextExpSeqNum
    {
      Server(cidTcpSocket[..], cidNextExpSeqNum[..])
    }

    constructor (responses: LFQueue<Message>, requests: LFQueue<Message>)
      requires responses.Valid() && requests.Valid()
      ensures Valid() && fresh(Arrays()) && fresh(fifoSequencer)
      ensures fifoSequencer.incoming == requests && outgoingResponses == responses
      ensures Abs() == Server(seq(256, _ => None), seq(256, _ => 1))
      ensures cidNextOutgoingSeqNum[..] == seq(MAX_CLIENTS, _ => 1) && fifoSequencer.Waiting() == []
    {
      outgoingResponses := responses;
      cidNextOutgoingSeqNum := new nat[MAX_CLIENTS](_ => 1);
      cidNextExpSeqNum := new nat[MAX_CLIENTS](_ => 1);
      cidTcpSocket := new Option<TCPSocket>[MAX_CLIENTS](_ => None);
      fifoSequencer := new FIFOSequencer(requests);
    }

    /** One frame. `ok` is false when the sequencer stops the program. */
    method TakeOne(socket: TCPSocket, r: Received, rxTime: nat) returns (ok: bool)
      requires Valid() && ClientOf(r.1) < MAX_CLIENTS
      modifies cidNextExpSeqNum, cidTcpSocket, fifoSequencer`pendingSize, fifoSequencer.pendingRequests
      ensures Valid()
      ensures var t := Take(old(Abs()), socket, r);
        && Abs() == t.st
        && (ok <==> |old(fifoSequencer.Waiting())| + |t.accepted| <= MAX_PENDING_REQUESTS)
        && (ok ==> fifoSequencer.Waiting() == old(fifoSequencer.Waiting()) + Stamped(rxTime, t.accepted))
        && (ok ==> Grown(old(fifoSequencer.Waiting()), fifoSequencer.Waiting(), rxTime, t.accepted))
    {
      StampedIsReadAt(fifoSequencer.Waiting(), rxTime, [r.1]);
      StampedIsReadAt(fifoSequencer.Waiting(), rxTime, []);
      var c := ClientOf(r.1);
      if cidTcpSocket[c].None? {
        cidTcpSocket[c] := Some(socket);
      }
      if cidTcpSocket[c] != Some(socket) {
        return true;
      }
      if r.0 != cidNextExpSeqNum[c] {
        return true;
      }
      cidNextExpSeqNum[c] := cidNextExpSeqNum[c] + 1;
      ok := fifoSequencer.AddClientRequest(rxTime, r.1);
    }

    /** The frames in the buffer are taken one by one; the incomplete rest moves to the front. */
    method RecvCallback(socket: TCPSocket, rxTime: nat) returns (ok: bool)
      requires Valid() && socket.Valid()
      requires socket.inbound as object !in Arrays()
        && socket.inbound as object != fifoSequencer.pendingRequests as object
      requires socket.inbound as object != fifoSequencer.incoming.store as object
      requires FromClients(RequestsIn(socket.Incoming()), MAX_CLIENTS)
      modifies socket.inbound, socket`nextRcvValid
      modifies cidNextExpSeqNum, cidTcpSocket, fifoSequencer`pendingSize, fifoSequencer.pendingRequests
      ensures Valid() && socket.Valid()
      ensures var t := TakeAll(old(Abs()), socket, RequestsIn(old(socket.Incoming())));
        && (ok <==> |old(fifoSequencer.Waiting())| + |t.accepted| <= MAX_PENDING_REQUESTS)
        && (ok ==>
            Abs() == t.st && fifoSequencer.Waiting() == old(fifoSequencer.Waiting()) + Stamped(rxTime, t.accepted))
      ensures var t := TakeAll(old(Abs()), socket, RequestsIn(old(socket.Incoming())));
        ok ==> Grown(old(fifoSequencer.Waiting()), fifoSequencer.Waiting(), rxTime, t.accepted)
      ensures ok ==> socket.Incoming() == RequestsRest(old(socket.Incoming()))
    {
      hide Take, TakeAll, SoFar, Completed, Tail, Frames, ReadAll, Read, Size, Stamped, FromClients;
      Sizes();
      ghost var bs, start, waiting := socket.Incoming(), Abs(), fifoSequencer.Waiting();
      ghost var all := Completed(bs, REQUEST);
      StartsSoFar(start, socket, all);
      CompletedNext(bs, REQUEST);
      ok := true;
      var next := socket.nextRcvValid;
      if next >= REQUEST_SIZE {
        var i := 0;
        ghost var done: seq<Message> := [];
        NothingStamped(rxTime);
        while i + REQUEST_SIZE <= next
          invariant i <= next && (i == 0 ==> REQUEST_SIZE <= next) && (0 < i ==> REQUEST_SIZE <= i)
          invariant socket.Valid() && socket.Incoming() == bs && next == socket.nextRcvValid
          invariant Valid() && |waiting| + |done| <= MAX_PENDING_REQUESTS
          invariant fifoSequencer.Waiting() == waiting + Stamped(rxTime, done)
          invariant SoFar(start, socket, all, Abs(), done, Completed(bs[i..], REQUEST))
          invariant Tail(bs, Size(REQUEST)) == Tail(bs[i..], Size(REQUEST))
        {
          ghost var st := Abs();
          CompletedNext(bs[i..], REQUEST);
          assert bs[i..][..REQUEST_SIZE] == socket.inbound[i..i + REQUEST_SIZE]
            && bs[i..][REQUEST_SIZE..] == bs[i + REQUEST_SIZE..];
          var r := Read(socket.inbound[i..i + REQUEST_SIZE], REQUEST);
          OneMoreSoFar(start, socket, all, st, done, r, Completed(bs[i + REQUEST_SIZE..], REQUEST));
          ok := TakeOne(socket, r, rxTime);
          StampedSplits(rxTime, done, Take(st, socket, r).accepted);
          done := done + Take(st, socket, r).accepted;
          if !ok {
            TakesMore(start, socket, all, Abs(), done, Completed(bs[i + REQUEST_SIZE..], REQUEST));
            return;
          }
          i := i + REQUEST_SIZE;
        }
        CompletedNext(bs[i..], REQUEST);
        AllSoFar(start, socket, all, Abs(), done);
        StampedIsReadAt(waiting, rxTime, done);
        socket.DropFront(i);
      } else {
        AllSoFar(start, socket, all, Abs(), []);
        NothingStamped(rxTime);
        StampedIsReadAt(waiting, rxTime, []);
      }
    }

    static lemma {:induction false} NothingStamped(rxTime: nat)
      ensures Stamped(rxTime, []) == []
    {
    }

    static lemma {:induction false} TakesMore(start: Server<TCPSocket>, socket: TCPSocket, all: seq<Received>,
                                              st: Server<TCPSocket>, done: seq<Message>, rest: seq<Received>)
      requires SoFar(start, socket, all, st, done, rest)
      ensures |done| <= |TakeAll(start, socket, all).accepted|
    {
    }

    /** Every batch read in one round goes to the matching engine sorted by receive time. */
    method RecvFinishedCallback() returns (ghost batch: seq<Pending>)
      requires Valid()
        && |fifoSequencer.incoming.contents| + fifoSequencer.pendingSize <= fifoSequencer.incoming.store.Length
      modifies fifoSequencer`pendingSize, fifoSequencer.pendingRequests, fifoSequencer.incoming,
        fifoSequencer.incoming.store
      ensures Valid() && fifoSequencer.Waiting() == [] && Sorts(old(fifoSequencer.Waiting()), batch)
      ensures fifoSequencer.incoming.contents == old(fifoSequencer.incoming.contents) + Requests(batch)
      ensures QueuedBehind(old(fifoSequencer.incoming.contents), fifoSequencer.incoming.contents, batch)
    {
      batch := fifoSequencer.SequenceAndPublish();
    }

    /** The client the oldest response is for. */
    ghost function NextClient(): nat
      requires outgoingResponses.contents != []
      reads outgoingResponses
    {
      ClientOf(outgoingResponses.contents[0])
    }

    /** Room for one more response in the buffer of a client's socket. */
    ghost predicate HasRoom(s: TCPSocket)
      reads s
    {
      && s.Valid() && s.nextSendValid + RESPONSE_SIZE <= s.outbound.Length
      && s.outbound as object !in Arrays() && s.outbound as object != outgoingResponses.store as object
    }

    /** One turn of the sending loop: the oldest response goes to its client's socket behind
        the client's next number. `ok` is false when the client has no socket. */
    method SendNext(slot: nat) returns (ok: bool)
      requires Valid() && outgoingResponses.Valid() && outgoingResponses.store as object !in Arrays()
      requires outgoingResponses.contents != [] && NextClient() < MAX_CLIENTS
        && |outgoingResponses.contents[0]| + 1 == |RESPONSE|
      requires cidTcpSocket[NextClient()].Some? ==> HasRoom(cidTcpSocket[NextClient()].value)
      requires slot < outgoingResponses.store.Length && outgoingResponses.store[slot] == outgoingResponses.contents[0]
      modifies cidNextOutgoingSeqNum, outgoingResponses
      modifies if cidTcpSocket[NextClient()].None? then {}
        else {cidTcpSocket[NextClient()].value, cidTcpSocket[NextClient()].value.outbound}
      ensures ok <==> old(cidTcpSocket[NextClient()]).Some?
      ensures ok ==> (
        var m, c := old(outgoingResponses.contents[0]), old(NextClient());
        var k, s := old(cidNextOutgoingSeqNum[..])[c], old(cidTcpSocket[c].value);
        && outgoingResponses.Valid() && outgoingResponses.contents == old(outgoingResponses.contents)[1..]
        && cidNextOutgoingSeqNum[..] == old(cidNextOutgoingSeqNum[..])[c := k + 1]
        && s.Valid() && s.Outgoing() == old(cidTcpSocket[NextClient()].value.Outgoing()) + Frame(k, m, RESPONSE))
    {
      hide Frame, Size, Holds, SlotOf;
      Sizes();
      var m := outgoingResponses.store[slot];
      var c := ClientOf(m);
      if cidTcpSocket[c].None? {
        return false;
      }
      var s := cidTcpSocket[c].value;
      s.SendNumbered(cidNextOutgoingSeqNum[c], m, RESPONSE);
      ok := outgoingResponses.UpdateReadIndex();
      cidNextOutgoingSeqNum[c] := cidNextOutgoingSeqNum[c] + 1;
    }
  }
}
