/** What the two ends of a connection do with the frames they receive. */
module Protocol {
  import opened Types
  import opened Messages
  import opened Wire

  // Sequence number, type, client, ticker, order id, side, price, quantity.
  const REQUEST: seq<nat> := [8, 1, 4, 4, 8, 1, 8, 4]

  // Sequence number, type, client, ticker, client order id, market order id, side, price,
  // executed and remaining quantity.
  const RESPONSE: seq<nat> := [8, 1, 4, 4, 8, 8, 1, 8, 4, 4]

  const REQUEST_SIZE: nat := 38

  const RESPONSE_SIZE: nat := 50

  lemma {:induction false} Sizes()
    ensures Size(REQUEST) == REQUEST_SIZE && Size(RESPONSE) == RESPONSE_SIZE
  {
  }

  /** A received message and its number. */
  type Received = (nat, Message)

  function Read(frame: Bytes, widths: seq<nat>): Received
    requires |frame| == Size(widths) && widths != []
  {
    var fields := Decode(frame, widths);
    (fields[0], fields[1..])
  }

  function ReadAll(frames: seq<Bytes>, widths: seq<nat>): (r: seq<Received>)
    requires (forall i :: 0 <= i < |frames| ==> |frames[i]| == Size(widths)) && widths != []
    ensures |r| == |frames|
  {
    seq(|frames|, i requires 0 <= i < |frames| => Read(frames[i], widths))
  }

  /** Frames of sendable messages read back as the messages and their numbers. */
  lemma {:induction false} ReadsBack(ms: seq<Message>, first: nat, widths: seq<nat>)
    requires Sendable(ms, first, widths) && widths != []
    ensures forall i :: 0 <= i < |ms| ==> |ms[i]| + 1 == |widths|
    ensures ReadAll(FramesFor(ms, first, widths), widths) == Numbered(ms, first)
  {
    SendableLengths(ms, first, widths);
    forall i | 0 <= i < |ms|
      ensures Read(Frame(first + i, ms[i], widths), widths) == (first + i, ms[i])
    {
      DecodeEncode([first + i] + ms[i], widths);
      assert ([first + i] + ms[i])[1..] == ms[i];
    }
  }

  lemma {:induction false} SendableLengths(ms: seq<Message>, first: nat, widths: seq<nat>)
    requires Sendable(ms, first, widths)
    ensures forall i :: 0 <= i < |ms| ==> |ms[i]| + 1 == |widths|
  {
  }

  /** The messages a buffer holds completely. */
  function Completed(bs: Bytes, widths: seq<nat>): seq<Received>
    requires 0 < Size(widths)
  {
    ReadAll(Frames(bs, Size(widths)), widths)
  }

  function RequestsIn(bs: Bytes): seq<Received> {
    Sizes();
    Completed(bs, REQUEST)
  }

  function RequestsRest(bs: Bytes): Bytes {
    Sizes();
    Tail(bs, Size(REQUEST))
  }

  function ResponsesIn(bs: Bytes): seq<Received> {
    Sizes();
    Completed(bs, RESPONSE)
  }

  function ResponsesRest(bs: Bytes): Bytes {
    Sizes();
    Tail(bs, Size(RESPONSE))
  }

  lemma {:induction false} CompletedNext(bs: Bytes, widths: seq<nat>)
    requires 0 < Size(widths)
    ensures |bs| < Size(widths) ==> Completed(bs, widths) == [] && Tail(bs, Size(widths)) == bs
    ensures Size(widths) <= |bs| ==> (
      && Completed(bs, widths) == [Read(bs[..Size(widths)], widths)] + Completed(bs[Size(widths)..], widths)
      && Tail(bs, Size(widths)) == Tail(bs[Size(widths)..], Size(widths)))
  {
  }

  // ----- the server's side of requests

  /** For each client, the socket its requests come from and the number expected next. */
  datatype Server<S> = Server(bound: seq<Option<S>>, nextExp: seq<nat>)

  /** Client ids are array indices. */
  predicate FromClients(rs: seq<Received>, clients: nat) {
    forall i :: 0 <= i < |rs| ==> ClientOf(rs[i].1) < clients
  }

  datatype Taken<S> = Taken(st: Server<S>, accepted: seq<Message>)

  /** The first request of a client binds its socket; requests from another socket and
      requests out of sequence are dropped. */
  function Take<S(==)>(st: Server<S>, socket: S, r: Received): (t: Taken<S>)
    requires ClientOf(r.1) < |st.bound| == |st.nextExp|
    ensures |t.st.bound| == |st.bound| == |t.st.nextExp|
  {
    var c := ClientOf(r.1);
    var bound := if st.bound[c].None? then st.bound[c := Some(socket)] else st.bound;
    if bound[c] != Some(socket) || r.0 != st.nextExp[c] then Taken(Server(bound, st.nextExp), [])
    else Taken(Server(bound, st.nextExp[c := st.nextExp[c] + 1]), [r.1])
  }

  function TakeAll<S(==)>(st: Server<S>, socket: S, rs: seq<Received>): (t: Taken<S>)
    requires |st.bound| == |st.nextExp| && FromClients(rs, |st.bound|)
    ensures |t.st.bound| == |st.bound| == |t.st.nextExp|
    decreases |rs|
  {
    if rs == [] then Taken(st, [])
    else
      var first := Take(st, socket, rs[0]);
      var rest := TakeAll(first.st, socket, rs[1..]);
      Taken(rest.st, first.accepted + rest.accepted)
  }

  // ----- the gateway's side of responses

  datatype Passed = Passed(nextExp: nat, accepted: seq<Message>)

  /** A gateway passes on the responses of its client that are in sequence. */
  function Pass(client: nat, nextExp: nat, r: Received): Passed {
    if ClientOf(r.1) != client || r.0 != nextExp then Passed(nextExp, []) else Passed(nextExp + 1, [r.1])
  }

  function PassAll(client: nat, nextExp: nat, rs: seq<Received>): Passed
    decreases |rs|
  {
    if rs == [] then Passed(nextExp, [])
    else
      var first := Pass(client, nextExp, rs[0]);
      var rest := PassAll(client, first.nextExp, rs[1..]);
      Passed(rest.nextExp, first.accepted + rest.accepted)
  }

  // ----- messages numbered as expected are all taken

  ghost predicate AllOf(ms: seq<Message>, c: nat) {
    forall i :: 0 <= i < |ms| ==> ClientOf(ms[i]) == c
  }

  lemma {:induction false} NumberedTail(ms: seq<Message>, first: nat)
    requires ms != []
    ensures Numbered(ms, first)[0] == (first, ms[0]) && Numbered(ms, first)[1..] == Numbered(ms[1..], first + 1)
    ensures ms == [ms[0]] + ms[1..]
  {
  }

  /** One socket a client: its requests are all accepted, in order and once. */
  lemma {:induction false} TakesExpected<S>(st: Server<S>, socket: S, c: nat, ms: seq<Message>)
    requires c < |st.bound| == |st.nextExp| && (st.bound[c].None? || st.bound[c] == Some(socket)) && AllOf(ms, c)
    ensures FromClients(Numbered(ms, st.nextExp[c]), |st.bound|)
    ensures TakeAll(st, socket, Numbered(ms, st.nextExp[c]))
         == Taken(Server(if ms == [] then st.bound else st.bound[c := Some(socket)],
                         st.nextExp[c := st.nextExp[c] + |ms|]), ms)
    decreases |ms|
  {
    if ms == [] {
      assert st.nextExp[c := st.nextExp[c]] == st.nextExp;
    } else {
      NumberedTail(ms, st.nextExp[c]);
      TakesExpected(Take(st, socket, (st.nextExp[c], ms[0])).st, socket, c, ms[1..]);
    }
  }

  lemma {:induction false} PassesExpected(c: nat, nextExp: nat, ms: seq<Message>)
    requires AllOf(ms, c)
    ensures PassAll(c, nextExp, Numbered(ms, nextExp)) == Passed(nextExp + |ms|, ms)
    decreases |ms|
  {
    if ms != [] {
      NumberedTail(ms, nextExp);
      PassesExpected(c, nextExp + 1, ms[1..]);
    }
  }

  // ----- whatever arrives, only what should be is taken

  /** The messages that name client c. */
  function OfClient(ms: seq<Message>, c: nat): seq<Message> {
    if ms == [] then [] else (if ClientOf(ms[0]) == c then [ms[0]] else []) + OfClient(ms[1..], c)
  }

  /** `a` is `b` with some messages left out. */
  ghost predicate Sub(a: seq<Received>, b: seq<Received>)
    decreases |b|
  {
    a == [] || (b != [] && ((a[0] == b[0] && Sub(a[1..], b[1..])) || Sub(a, b[1..])))
  }

  lemma {:induction false} OfClientSplits(a: seq<Message>, b: seq<Message>, c: nat)
    requires |a| <= 1
    ensures OfClient(a + b, c) == OfClient(a, c) + OfClient(b, c)
  {
    if a == [] {
      assert a + b == b;
    } else {
      assert (a + b)[1..] == b && a[1..] == [] && a == [a[0]];
    }
  }

  lemma {:induction false} TakesOne<S>(st: Server<S>, socket: S, r: Received, c: nat)
    requires c < |st.bound| == |st.nextExp| && ClientOf(r.1) < |st.bound|
    ensures var t := Take(st, socket, r); var ms := OfClient(t.accepted, c);
      && |t.accepted| <= 1 && (ms == [] || ms == [r.1])
      && t.st.nextExp[c] == st.nextExp[c] + |ms|
      && (ms != [] ==> t.st.bound[c] == Some(socket) && r.0 == st.nextExp[c])
      && (st.bound[c].Some? ==> t.st.bound[c] == st.bound[c])
  {
    var t := Take(st, socket, r);
    assert t.accepted != [] ==> t.accepted[1..] == [];
  }

  lemma {:induction false} SubGrows(ms: seq<Message>, k: nat, later: seq<Message>, r: Received, rest: seq<Received>)
    requires ms == [] || (ms == [r.1] && r.0 == k)
    requires Sub(Numbered(later, k + |ms|), rest)
    ensures Sub(Numbered(ms + later, k), [r] + rest)
  {
    var all := [r] + rest;
    assert all[0] == r && all[1..] == rest;
    if ms == [] {
      assert ms + later == later;
    } else {
      NumberedTail(ms + later, k);
      assert (ms + later)[1..] == later;
    }
  }

  /** For any received messages: the ones taken from a client are received ones, numbered on
      from the number expected; only the socket bound to the client counts, and it stays
      bound. */
  lemma {:induction false} TakesOnlyBound<S>(st: Server<S>, socket: S, rs: seq<Received>, c: nat)
    requires c < |st.bound| == |st.nextExp| && FromClients(rs, |st.bound|)
    ensures var t := TakeAll(st, socket, rs); var ms := OfClient(t.accepted, c);
      && t.st.nextExp[c] == st.nextExp[c] + |ms| && Sub(Numbered(ms, st.nextExp[c]), rs)
      && (ms != [] ==> t.st.bound[c] == Some(socket))
      && (st.bound[c].Some? ==> t.st.bound[c] == st.bound[c])
    decreases |rs|
  {
    hide Take, Numbered, OfClient, Sub;
    if rs == [] {
      NothingOf(c, st.nextExp[c], rs);
    } else {
      var first := Take(st, socket, rs[0]);
      TakesOne(st, socket, rs[0], c);
      TakesOnlyBound(first.st, socket, rs[1..], c);
      var rest := TakeAll(first.st, socket, rs[1..]);
      OfClientSplits(first.accepted, rest.accepted, c);
      var ms, later := OfClient(first.accepted, c), OfClient(rest.accepted, c);
      SubGrows(ms, st.nextExp[c], later, rs[0], rs[1..]);
      assert rs == [rs[0]] + rs[1..];
      assert OfClient(TakeAll(st, socket, rs).accepted, c) == ms + later;
      assert ms + later != [] ==> ms != [] || later != [];
    }
  }

  lemma {:induction false} NothingOf(c: nat, k: nat, rs: seq<Received>)
    ensures OfClient([], c) == [] && Sub(Numbered([], k), rs)
  {
  }

  /** The same for a gateway: only its own client's messages, numbered on. */
  lemma {:induction false} PassesOnlyOwn(c: nat, nextExp: nat, rs: seq<Received>)
    ensures var p := PassAll(c, nextExp, rs);
      p.nextExp == nextExp + |p.accepted| && AllOf(p.accepted, c) && Sub(Numbered(p.accepted, nextExp), rs)
    decreases |rs|
  {
    hide Numbered, Sub;
    if rs == [] {
      NothingOf(c, nextExp, rs);
    } else {
      var first := Pass(c, nextExp, rs[0]);
      PassesOnlyOwn(c, first.nextExp, rs[1..]);
      SubGrows(first.accepted, nextExp, PassAll(c, first.nextExp, rs[1..]).accepted, rs[0], rs[1..]);
      assert rs == [rs[0]] + rs[1..];
    }
  }

  // ----- every request counts, one after the other

  /** A request binds its client's socket when there is none yet, whatever its number; it is accepted
      exactly when it comes from the bound socket under the number expected, which then goes up by
      one; nothing changes for other clients. */
  lemma {:induction false} TakeMeans<S>(st: Server<S>, socket: S, r: Received, c: nat)
    requires c < |st.bound| == |st.nextExp| && ClientOf(r.1) < |st.bound|
    ensures var t, k := Take(st, socket, r), ClientOf(r.1);
      && t.st.bound[k].Some? && (t.accepted == [r.1] || t.accepted == [])
      && t.st.bound[c] == (if c == k && st.bound[k].None? then Some(socket) else st.bound[c])
      && (t.accepted != [] <==> t.st.bound[k] == Some(socket) && r.0 == st.nextExp[k])
      && t.st.nextExp[c] == st.nextExp[c] + if c == k && t.accepted != [] then 1 else 0
  {
  }

  lemma {:induction false} TakeAllSplits<S>(st: Server<S>, socket: S, a: seq<Received>, b: seq<Received>)
    requires |st.bound| == |st.nextExp| && FromClients(a, |st.bound|) && FromClients(b, |st.bound|)
    ensures FromClients(a + b, |st.bound|)
    ensures var t := TakeAll(st, socket, a); var u := TakeAll(t.st, socket, b);
      TakeAll(st, socket, a + b) == Taken(u.st, t.accepted + u.accepted)
    decreases |a|
  {
    hide Take;
    if a == [] {
      assert a + b == b;
    } else {
      var first := Take(st, socket, a[0]);
      TakeAllSplits(first.st, socket, a[1..], b);
      assert (a + b)[0] == a[0] && (a + b)[1..] == a[1..] + b;
      var t := TakeAll(first.st, socket, a[1..]);
      var u := TakeAll(t.st, socket, b);
      assert first.accepted + (t.accepted + u.accepted) == (first.accepted + t.accepted) + u.accepted;
    }
  }

  lemma {:induction false} OneTaken<S>(st: Server<S>, socket: S, r: Received)
    requires ClientOf(r.1) < |st.bound| == |st.nextExp|
    ensures TakeAll(st, socket, [r]) == Take(st, socket, r)
  {
    hide Take;
    assert [r][1..] == [];
  }

  /** After any requests every client that sent one has a socket: the one it had, or this one. */
  lemma {:induction false} SendersAreBound<S>(st: Server<S>, socket: S, rs: seq<Received>, c: nat)
    requires c < |st.bound| == |st.nextExp| && FromClients(rs, |st.bound|)
    ensures var bound := TakeAll(st, socket, rs).st.bound[c];
      && (st.bound[c].Some? ==> bound == st.bound[c])
      && (st.bound[c].None? ==>
          bound == if exists r :: r in rs && ClientOf(r.1) == c then Some(socket) else None)
    decreases |rs|
  {
    hide Take;
    if rs != [] {
      TakeMeans(st, socket, rs[0], c);
      SendersAreBound(Take(st, socket, rs[0]).st, socket, rs[1..], c);
      assert forall r :: r in rs <==> r == rs[0] || r in rs[1..];
    }
  }

  /** A response is passed on exactly when it is the client's own under the number expected. */
  lemma {:induction false} PassMeans(client: nat, nextExp: nat, r: Received)
    ensures var p := Pass(client, nextExp, r);
      && (p.accepted == [r.1] || p.accepted == []) && p.nextExp == nextExp + |p.accepted|
      && (p.accepted != [] <==> ClientOf(r.1) == client && r.0 == nextExp)
  {
  }

  lemma {:induction false} PassAllSplits(client: nat, nextExp: nat, a: seq<Received>, b: seq<Received>)
    ensures var p := PassAll(client, nextExp, a); var q := PassAll(client, p.nextExp, b);
      PassAll(client, nextExp, a + b) == Passed(q.nextExp, p.accepted + q.accepted)
    decreases |a|
  {
    hide Pass;
    if a == [] {
      assert a + b == b;
    } else {
      var first := Pass(client, nextExp, a[0]);
      PassAllSplits(client, first.nextExp, a[1..], b);
      assert (a + b)[0] == a[0] && (a + b)[1..] == a[1..] + b;
      var p := PassAll(client, first.nextExp, a[1..]);
      var q := PassAll(client, p.nextExp, b);
      assert first.accepted + (p.accepted + q.accepted) == (first.accepted + p.accepted) + q.accepted;
    }
  }

  lemma {:induction false} OnePassed(client: nat, nextExp: nat, r: Received)
    ensures PassAll(client, nextExp, [r]) == Pass(client, nextExp, r)
  {
    hide Pass;
    assert [r][1..] == [];
  }
}
