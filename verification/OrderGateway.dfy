/** A client's gateway: the other end of the order server's protocol. */
module OrderGateways {
  import opened Wire
  import opened Protocol
  import opened LFQueues
  import opened Sockets

  /** Passing on from `nextExp` with `done` behind it is passing on all from the start. */
  ghost predicate SoFar(client: nat, start: nat, all: seq<Received>, nextExp: nat, done: seq<Message>,
                        rest: seq<Received>) {
    var t, u := PassAll(client, start, all), PassAll(client, nextExp, rest);
    t.nextExp == u.nextExp && t.accepted == done + u.accepted
  }

  lemma {:induction false} StartsSoFar(client: nat, start: nat, all: seq<Received>)
    ensures SoFar(client, start, all, start, [], all)
  {
  }

  lemma {:induction false} OneMoreSoFar(client: nat, start: nat, all: seq<Received>, nextExp: nat, done: seq<Message>,
                                        r: Received, rest: seq<Received>)
    requires SoFar(client, start, all, nextExp, done, [r] + rest)
    ensures var p := Pass(client, nextExp, r); SoFar(client, start, all, p.nextExp, done + p.accepted, rest)
    ensures |done| + |Pass(client, nextExp, r).accepted| <= |PassAll(client, start, all).accepted|
  {
  }

  lemma {:induction false} AllSoFar(client: nat, start: nat, all: seq<Received>, nextExp: nat, done: seq<Message>)
    requires SoFar(client, start, all, nextExp, done, [])
    ensures PassAll(client, start, all) == Passed(nextExp, done)
  {
  }

  ghost predicate Requests(ms: seq<Message>) {
    forall i :: 0 <= i < |ms| ==> |ms[i]| + 1 == |REQUEST|
  }

  class OrderGateway {
    const clientId: nat
    const outgoingRequests: LFQueue<Message>
    const incomingResponses: LFQueue<Message>
    const tcpSocket: TCPSocket
    var nextOutgoingSeqNum: nat
    var nextExpSeqNum: nat

    ghost predicate Valid()
      reads this, outgoingRequests, outgoingRequests.store, incomingResponses, incomingResponses.store, tcpSocket
    {
      && outgoingRequests.Valid() && incomingResponses.Valid() && tcpSocket.Valid()
      && outgoingRequests != incomingResponses && outgoingRequests.store != incomingResponses.store
      && outgoingRequests.store as object != tcpSocket.inbound && outgoingRequests.store as object != tcpSocket.outbound
      && incomingResponses.store as object != tcpSocket.inbound
      && incomingResponses.store as object != tcpSocket.outbound
    }

    constructor (clientId: nat, requests: LFQueue<Message>, responses: LFQueue<Message>)
      requires requests.Valid() && responses.Valid() && requests != responses && requests.store != responses.store
      ensures Valid() && fresh(tcpSocket) && this.clientId == clientId
      ensures outgoingRequests == requests && incomingResponses == responses
      ensures nextOutgoingSeqNum == 1 && nextExpSeqNum == 1 && tcpSocket.Incoming() == [] && tcpSocket.Outgoing() == []
    {
      this.clientId, outgoingRequests, incomingResponses := clientId, requests, responses;
      nextOutgoingSeqNum, nextExpSeqNum := 1, 1;
      tcpSocket := new TCPSocket();
    }

    /** The oldest request goes to the socket behind the next number. */
    method SendNext(slot: nat) returns (ok: bool)
      requires Valid() && outgoingRequests.contents != [] && |outgoingRequests.contents[0]| + 1 == |REQUEST|
      requires slot < outgoingRequests.store.Length && outgoingRequests.store[slot] == outgoingRequests.contents[0]
      requires tcpSocket.nextSendValid + Size(REQUEST) <= tcpSocket.outbound.Length
      modifies this`nextOutgoingSeqNum, outgoingRequests, tcpSocket`nextSendValid, tcpSocket.outbound
      ensures ok && Valid() && outgoingRequests.contents == old(outgoingRequests.contents)[1..]
      ensures nextOutgoingSeqNum == old(nextOutgoingSeqNum) + 1
      ensures tcpSocket.Outgoing() == old(tcpSocket.Outgoing())
        + Frame(old(nextOutgoingSeqNum), old(outgoingRequests.contents[0]), REQUEST)
    {
      hide Frame, Size, Holds, SlotOf;
      tcpSocket.SendNumbered(nextOutgoingSeqNum, outgoingRequests.store[slot], REQUEST);
      ok := outgoingRequests.UpdateReadIndex();
      nextOutgoingSeqNum := nextOutgoingSeqNum + 1;
    }

    /** Everything in the queue goes out, numbered. */
    method Run() returns (ok: bool)
      requires Valid() && Requests(outgoingRequests.contents)
      requires tcpSocket.nextSendValid + REQUEST_SIZE * |outgoingRequests.contents| <= tcpSocket.outbound.Length
      modifies this`nextOutgoingSeqNum, outgoingRequests, tcpSocket`nextSendValid, tcpSocket.outbound
      ensures ok && Valid() && outgoingRequests.contents == []
      ensures nextOutgoingSeqNum == old(nextOutgoingSeqNum) + |old(outgoingRequests.contents)|
      ensures tcpSocket.Outgoing() == old(tcpSocket.Outgoing())
        + Stream(old(outgoingRequests.contents), old(nextOutgoingSeqNum), REQUEST)
    {
      hide Frame, Size, Holds, SlotOf, Stream;
      Sizes();
      ok := true;
      ghost var ms, first, before, k := outgoingRequests.contents, nextOutgoingSeqNum, tcpSocket.Outgoing(), 0;
      EmptyStream(first);
      var slot := outgoingRequests.GetNextToRead();
      while slot != -1
        invariant ok && Valid() && k <= |ms| && outgoingRequests.contents == ms[k..] && nextOutgoingSeqNum == first + k
        invariant slot == -1 <==> outgoingRequests.contents == []
        invariant slot != -1
          ==> 0 <= slot < outgoingRequests.store.Length && outgoingRequests.store[slot] == outgoingRequests.contents[0]
        invariant tcpSocket.nextSendValid + REQUEST_SIZE * (|ms| - k) <= tcpSocket.outbound.Length
        invariant tcpSocket.Outgoing() == before + Stream(ms[..k], first, REQUEST)
        decreases |ms| - k
      {
        StreamGrows(ms[..k], ms[k], first, REQUEST);
        assert ms[..k + 1] == ms[..k] + [ms[k]];
        FrameSize(first + k, ms[k]);
        ok := SendNext(slot);
        k := k + 1;
        slot := outgoingRequests.GetNextToRead();
      }
      assert ms[..k] == ms;
    }

    static lemma {:induction false} EmptyStream(first: nat)
      ensures Stream([], first, REQUEST) == []
    {
    }

    static lemma {:induction false} FrameSize(k: nat, m: Message)
      requires |m| + 1 == |REQUEST|
      ensures |Frame(k, m, REQUEST)| == REQUEST_SIZE
    {
    }

    method PassOne(r: Received)
      requires Valid()
        && |incomingResponses.contents| + |Pass(clientId, nextExpSeqNum, r).accepted| <= incomingResponses.store.Length
      modifies this`nextExpSeqNum, incomingResponses, incomingResponses.store
      ensures Valid()
      ensures var p := Pass(clientId, old(nextExpSeqNum), r);
        nextExpSeqNum == p.nextExp && incomingResponses.contents == old(incomingResponses.contents) + p.accepted
    {
      hide Holds, SlotOf;
      if ClientOf(r.1) != clientId {
        return;
      }
      if r.0 != nextExpSeqNum {
        return;
      }
      nextExpSeqNum := nextExpSeqNum + 1;
      var next := incomingResponses.GetNextToWriteTo();
      incomingResponses.Put(next, r.1);
      incomingResponses.UpdateWriteIndex();
    }

    /** The responses in the buffer are passed on one by one; the incomplete rest moves to the front. */
    method RecvCallback()
      requires Valid()
      requires |incomingResponses.contents|
        + |PassAll(clientId, nextExpSeqNum, ResponsesIn(tcpSocket.Incoming())).accepted|
        <= incomingResponses.store.Length
      modifies this`nextExpSeqNum, incomingResponses, incomingResponses.store, tcpSocket`nextRcvValid, tcpSocket.inbound
      ensures Valid()
      ensures var p := PassAll(clientId, old(nextExpSeqNum), ResponsesIn(old(tcpSocket.Incoming())));
        nextExpSeqNum == p.nextExp && incomingResponses.contents == old(incomingResponses.contents) + p.accepted
      ensures tcpSocket.Incoming() == ResponsesRest(old(tcpSocket.Incoming()))
    {
      hide Pass, PassAll, SoFar, Completed, Tail, Frames, ReadAll, Read, Size, Holds, SlotOf;
      Sizes();
      ghost var bs, start, before := tcpSocket.Incoming(), nextExpSeqNum, incomingResponses.contents;
      ghost var all := Completed(bs, RESPONSE);
      StartsSoFar(clientId, start, all);
      CompletedNext(bs, RESPONSE);
      var next := tcpSocket.nextRcvValid;
      if next >= RESPONSE_SIZE {
        var i := 0;
        ghost var done: seq<Message> := [];
        while i + RESPONSE_SIZE <= next
          invariant i <= next && (i == 0 ==> RESPONSE_SIZE <= next) && (0 < i ==> RESPONSE_SIZE <= i)
          invariant Valid() && tcpSocket.Incoming() == bs && next == tcpSocket.nextRcvValid
          invariant incomingResponses.contents == before + done
          invariant SoFar(clientId, start, all, nextExpSeqNum, done, Completed(bs[i..], RESPONSE))
          invariant Tail(bs, Size(RESPONSE)) == Tail(bs[i..], Size(RESPONSE))
        {
          CompletedNext(bs[i..], RESPONSE);
          assert bs[i..][..RESPONSE_SIZE] == tcpSocket.inbound[i..i + RESPONSE_SIZE];
          assert bs[i..][RESPONSE_SIZE..] == bs[i + RESPONSE_SIZE..];
          var r := Read(tcpSocket.inbound[i..i + RESPONSE_SIZE], RESPONSE);
          OneMoreSoFar(clientId, start, all, nextExpSeqNum, done, r, Completed(bs[i + RESPONSE_SIZE..], RESPONSE));
          done := done + Pass(clientId, nextExpSeqNum, r).accepted;
          PassOne(r);
          i := i + RESPONSE_SIZE;
        }
        CompletedNext(bs[i..], RESPONSE);
        AllSoFar(clientId, start, all, nextExpSeqNum, done);
        tcpSocket.DropFront(i);
      } else {
        AllSoFar(clientId, start, all, nextExpSeqNum, []);
      }
    }
  }
}
