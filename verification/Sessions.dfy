/** The order server and its gateways over byte streams, both ways: every client has one
    gateway with one connection, and the bytes of a connection arrive in order but cut
    anywhere. */
module Sessions {
  import opened Types
  import opened Messages
  import opened Wire
  import opened Protocol

  /** One direction of one connection: the messages handed to the sender, the bytes on
      their way, and the bytes the receiver holds. */
  datatype Channel = Channel(sent: seq<Message>, flight: Bytes, inbox: Bytes)

  /** Requests and responses are told apart by their layout. */
  ghost predicate Carries(ch: Channel, taken: nat, widths: seq<nat>) {
    && taken <= |ch.sent| && 0 < Size(widths) && widths != []
    && Sendable(ch.sent, 1, widths) && |ch.inbox| < Size(widths)
    && (forall i :: 0 <= i < |ch.sent| ==> |ch.sent[i]| + 1 == |widths|)
    && ch.inbox + ch.flight == Stream(ch.sent[taken..], taken + 1, widths)
  }

  function Send(ch: Channel, k: nat, m: Message, widths: seq<nat>): Channel
    requires |m| + 1 == |widths|
  {
    ch.(sent := ch.sent + [m], flight := ch.flight + Frame(k, m, widths))
  }

  /** The receiver gets `k` more bytes and looks for frames. */
  function Arrived(ch: Channel, k: nat): Bytes
    requires k <= |ch.flight|
  {
    ch.inbox + ch.flight[..k]
  }

  function Deliver(ch: Channel, k: nat, n: nat): Channel
    requires k <= |ch.flight| && 0 < n
  {
    ch.(flight := ch.flight[k..], inbox := Tail(Arrived(ch, k), n))
  }

  lemma {:induction false} SendableGrows(ms: seq<Message>, m: Message, widths: seq<nat>)
    requires Sendable(ms, 1, widths) && Fits([|ms| + 1] + m, widths)
    ensures Sendable(ms + [m], 1, widths)
  {
    hide Fits;
    forall i | 0 <= i <= |ms|
      ensures Fits([1 + i] + (ms + [m])[i], widths)
    {
      assert i < |ms| ==> Fits([1 + i] + ms[i], widths);
    }
  }

  lemma {:induction false} FitsInLength(values: seq<nat>, widths: seq<nat>)
    requires Fits(values, widths)
    ensures |values| == |widths|
  {
  }

  lemma {:induction false} SendKeeps(ch: Channel, taken: nat, m: Message, widths: seq<nat>)
    requires Carries(ch, taken, widths) && Fits([|ch.sent| + 1] + m, widths)
    ensures |m| + 1 == |widths|
    ensures Carries(Send(ch, |ch.sent| + 1, m, widths), taken, widths)
  {
    hide Fits, Sendable, Stream, Frame, Size;
    var n := |ch.sent|;
    FitsInLength([n + 1] + m, widths);
    SendableGrows(ch.sent, m, widths);
    var after := Send(ch, n + 1, m, widths);
    StreamGrows(ch.sent[taken..], m, taken + 1, widths);
    assert after.sent[taken..] == ch.sent[taken..] + [m];
    assert after.inbox + after.flight == (ch.inbox + ch.flight) + Frame(n + 1, m, widths);
  }

  lemma {:induction false} CutChannel(ch: Channel, taken: nat, k: nat, widths: seq<nat>) returns (p: nat)
    requires Carries(ch, taken, widths) && k <= |ch.flight|
    ensures var fs := FramesFor(ch.sent[taken..], taken + 1, widths);
      && p <= |fs| && Frames(Arrived(ch, k), Size(widths)) == fs[..p]
      && Tail(Arrived(ch, k), Size(widths)) + ch.flight[k..] == Concat(fs[p..])
  {
    hide Sendable, Frames, Tail, Concat, FramesFor, Size;
    assert ch.inbox + ch.flight == Arrived(ch, k) + ch.flight[k..];
    p := CutFrames(FramesFor(ch.sent[taken..], taken + 1, widths), Size(widths), Arrived(ch, k), ch.flight[k..]);
  }

  /** However the bytes are cut, what a delivery completes is the next messages sent. */
  lemma {:induction false} DeliverReads(ch: Channel, taken: nat, k: nat, widths: seq<nat>) returns (q: nat)
    requires Carries(ch, taken, widths) && k <= |ch.flight|
    ensures taken <= q <= |ch.sent| && Carries(Deliver(ch, k, Size(widths)), q, widths)
    ensures Completed(Arrived(ch, k), widths) == Numbered(ch.sent[taken..q], taken + 1)
  {
    hide Sendable, Frames, Tail, Concat, FramesFor, Numbered, ReadAll, Size, Arrived;
    var p := CutChannel(ch, taken, k, widths);
    q := taken + p;
    FramesStretch(ch.sent, widths, taken, p);
    StretchSendable(ch.sent, widths, taken, q);
    ReadsBack(ch.sent[taken..q], taken + 1, widths);
  }

  /** When nothing is under way, everything sent has been taken. */
  lemma {:induction false} QuietMeansAll(ch: Channel, taken: nat, widths: seq<nat>)
    requires Carries(ch, taken, widths) && ch.inbox == [] && ch.flight == []
    ensures taken == |ch.sent|
  {
  }

  // ----- all clients, both directions

  /** Client c is connected by socket c: `up[c]` carries its requests, `down[c]` what the
      server sends to that socket. `accepted` lists what the server took, and from which
      socket; `got[c]` is what gateway c passed on. */
  datatype Net = Net(
    up: seq<Channel>, server: Server<nat>, accepted: seq<(nat, Message)>,
    nextOut: seq<nat>, answered: seq<Message>, down: seq<Channel>, gateExp: seq<nat>, got: seq<seq<Message>>)

  datatype Event =
    | Requested(c: nat, m: Message)
    | ReachedServer(c: nat, bytes: nat)
    | Responded(m: Message)
    | ReachedGateway(c: nat, bytes: nat)

  ghost predicate Shaped(w: Net, n: nat) {
    && |w.up| == |w.down| == |w.nextOut| == |w.gateExp| == |w.got| == n
    && |w.server.bound| == |w.server.nextExp| == n
  }

  /** A gateway numbers the requests of its client; the server answers clients it has heard
      from; bytes arrive in any portions. */
  ghost predicate Enabled(w: Net, e: Event, n: nat)
    requires Shaped(w, n)
  {
    match e
    case Requested(c, m) => c < n && ClientOf(m) == c && Fits([|w.up[c].sent| + 1] + m, REQUEST)
    case ReachedServer(c, bytes) => c < n && bytes <= |w.up[c].flight|
    case Responded(m) =>
      ClientOf(m) < n && w.server.bound[ClientOf(m)].Some? && Fits([w.nextOut[ClientOf(m)]] + m, RESPONSE)
    case ReachedGateway(c, bytes) => c < n && bytes <= |w.down[c].flight|
  }

  /** What the server takes for granted: client ids are array indices, and the socket of a
      client is one of its connections. */
  ghost predicate Safe(w: Net, e: Event, n: nat)
    requires Shaped(w, n) && Enabled(w, e, n)
  {
    match e
    case ReachedServer(c, bytes) => FromClients(RequestsIn(Arrived(w.up[c], bytes)), n)
    case Responded(m) => w.server.bound[ClientOf(m)].value < n
    case _ => true
  }

  function From(socket: nat, ms: seq<Message>): (r: seq<(nat, Message)>)
    ensures |r| == |ms|
  {
    seq(|ms|, i requires 0 <= i < |ms| => (socket, ms[i]))
  }

  lemma {:induction false} Lengths(k: nat, m: Message, widths: seq<nat>)
    requires Fits([k] + m, widths)
    ensures |m| + 1 == |widths|
  {
  }

  ghost function Next(w: Net, e: Event, n: nat): (w': Net)
    requires Shaped(w, n) && Enabled(w, e, n) && Safe(w, e, n)
    ensures Shaped(w', n)
  {
    Sizes();
    match e
    case Requested(c, m) =>
      Lengths(|w.up[c].sent| + 1, m, REQUEST);
      w.(up := w.up[c := Send(w.up[c], |w.up[c].sent| + 1, m, REQUEST)])
    case ReachedServer(c, bytes) =>
      var t := TakeAll(w.server, c, RequestsIn(Arrived(w.up[c], bytes)));
      w.(up := w.up[c := Deliver(w.up[c], bytes, Size(REQUEST))], server := t.st,
         accepted := w.accepted + From(c, t.accepted))
    case Responded(m) =>
      var c := ClientOf(m);
      var socket := w.server.bound[c].value;
      Lengths(w.nextOut[c], m, RESPONSE);
      w.(down := w.down[socket := Send(w.down[socket], w.nextOut[c], m, RESPONSE)],
         nextOut := w.nextOut[c := w.nextOut[c] + 1], answered := w.answered + [m])
    case ReachedGateway(c, bytes) =>
      var p := PassAll(c, w.gateExp[c], ResponsesIn(Arrived(w.down[c], bytes)));
      w.(down := w.down[c := Deliver(w.down[c], bytes, Size(RESPONSE))],
         gateExp := w.gateExp[c := p.nextExp], got := w.got[c := w.got[c] + p.accepted])
  }

  // ----- what every step keeps

  /** The accepted requests that name client c. */
  function TakenFrom(accepted: seq<(nat, Message)>, c: nat): seq<Message> {
    if accepted == [] then []
    else (if ClientOf(accepted[0].1) == c then [accepted[0].1] else []) + TakenFrom(accepted[1..], c)
  }

  /** Requests of client c: the server has taken the first `nextExp - 1`, all from socket c, which is
      bound from the first one on. */
  ghost predicate UpOk(up: Channel, bound: Option<nat>, nextExp: nat, taken: seq<Message>, c: nat) {
    && 0 < nextExp && Carries(up, nextExp - 1, REQUEST) && AllOf(up.sent, c)
    && bound == (if nextExp == 1 then None else Some(c)) && taken == up.sent[..nextExp - 1]
  }

  /** Responses to client c: the gateway has passed on the first `gateExp - 1`. */
  ghost predicate DownOk(down: Channel, nextOut: nat, gateExp: nat, got: seq<Message>, answers: seq<Message>, c: nat) {
    && 0 < gateExp && Carries(down, gateExp - 1, RESPONSE) && AllOf(down.sent, c)
    && nextOut == |down.sent| + 1 && got == down.sent[..gateExp - 1] && answers == down.sent
  }

  ghost predicate ClientOk(w: Net, c: nat, n: nat)
    requires Shaped(w, n) && c < n
  {
    && UpOk(w.up[c], w.server.bound[c], w.server.nextExp[c], TakenFrom(w.accepted, c), c)
    && DownOk(w.down[c], w.nextOut[c], w.gateExp[c], w.got[c], OfClient(w.answered, c), c)
  }

  /** Requests are taken only from the socket of the client they name. */
  ghost predicate OwnSockets(accepted: seq<(nat, Message)>) {
    forall i :: 0 <= i < |accepted| ==> accepted[i].0 == ClientOf(accepted[i].1)
  }

  ghost predicate Inv(w: Net, n: nat) {
    Shaped(w, n) && OwnSockets(w.accepted) && forall c :: 0 <= c < n ==> ClientOk(w, c, n)
  }

  lemma {:induction false} TakenFromMore(a: seq<(nat, Message)>, b: seq<(nat, Message)>, c: nat)
    ensures TakenFrom(a + b, c) == TakenFrom(a, c) + TakenFrom(b, c)
  {
    if a == [] {
      assert a + b == b;
    } else {
      var first := if ClientOf(a[0].1) == c then [a[0].1] else [];
      calc {
        TakenFrom(a + b, c);
        { assert (a + b)[0] == a[0] && (a + b)[1..] == a[1..] + b; }
        first + TakenFrom(a[1..] + b, c);
        { TakenFromMore(a[1..], b, c); }
        first + (TakenFrom(a[1..], c) + TakenFrom(b, c));
        (first + TakenFrom(a[1..], c)) + TakenFrom(b, c);
        TakenFrom(a, c) + TakenFrom(b, c);
      }
    }
  }

  lemma {:induction false} TakenFromOne(s: nat, ms: seq<Message>, c: nat)
    requires AllOf(ms, s)
    ensures TakenFrom(From(s, ms), c) == if s == c then ms else []
  {
    if ms != [] {
      assert From(s, ms)[0].1 == ms[0] && From(s, ms)[1..] == From(s, ms[1..]) && ms == [ms[0]] + ms[1..];
      TakenFromOne(s, ms[1..], c);
    }
  }

  lemma {:induction false} AnswersMore(a: seq<Message>, m: Message, c: nat)
    ensures OfClient(a + [m], c) == OfClient(a, c) + if ClientOf(m) == c then [m] else []
  {
    if a == [] {
      assert (a + [m])[1..] == [];
    } else {
      var first := if ClientOf(a[0]) == c then [a[0]] else [];
      var last := if ClientOf(m) == c then [m] else [];
      calc {
        OfClient(a + [m], c);
        { assert (a + [m])[0] == a[0] && (a + [m])[1..] == a[1..] + [m]; }
        first + OfClient(a[1..] + [m], c);
        { AnswersMore(a[1..], m, c); }
        first + (OfClient(a[1..], c) + last);
        (first + OfClient(a[1..], c)) + last;
        OfClient(a, c) + last;
      }
    }
  }

  lemma {:induction false} RequestedKeeps(w: Net, c: nat, m: Message, n: nat)
    requires Inv(w, n) && Enabled(w, Requested(c, m), n)
    ensures Inv(Next(w, Requested(c, m), n), n)
  {
    hide Carries, DownOk, TakenFrom, OfClient, Fits, Send, OwnSockets;
    var w' := Next(w, Requested(c, m), n);
    assert ClientOk(w, c, n);
    SentMore(w.up[c], w.server.nextExp[c] - 1, m, REQUEST);
    forall d | 0 <= d < n
      ensures ClientOk(w', d, n)
    {
      assert ClientOk(w, d, n);
    }
  }

  lemma {:induction false} SentMore(ch: Channel, taken: nat, m: Message, widths: seq<nat>)
    requires Carries(ch, taken, widths) && Fits([|ch.sent| + 1] + m, widths)
    ensures |m| + 1 == |widths|
    ensures var after := Send(ch, |ch.sent| + 1, m, widths);
      Carries(after, taken, widths) && after.sent == ch.sent + [m] && taken <= |ch.sent|
        && after.sent[..taken] == ch.sent[..taken]
  {
    SendKeeps(ch, taken, m, widths);
  }

  /** All requests a delivery completes are accepted: no mismatch of socket or number. */
  lemma {:induction false} ServerTakes(w: Net, c: nat, bytes: nat, n: nat, taken: nat) returns (q: nat)
    requires Inv(w, n) && Enabled(w, ReachedServer(c, bytes), n) && taken + 1 == w.server.nextExp[c]
    ensures Size(REQUEST) > 0 && taken <= q <= |w.up[c].sent|
      && Carries(Deliver(w.up[c], bytes, Size(REQUEST)), q, REQUEST)
    ensures FromClients(RequestsIn(Arrived(w.up[c], bytes)), n)
    ensures var ms := w.up[c].sent[taken..q];
      && AllOf(ms, c)
      && TakeAll(w.server, c, RequestsIn(Arrived(w.up[c], bytes)))
         == Taken(Server(if ms == [] then w.server.bound else w.server.bound[c := Some(c)],
                         w.server.nextExp[c := q + 1]), ms)
  {
    hide Carries, DownOk, TakenFrom, OfClient, OwnSockets, TakeAll, ReadAll, Frames, Numbered;
    Sizes();
    assert ClientOk(w, c, n);
    q := DeliverReads(w.up[c], taken, bytes, REQUEST);
    TakesExpected(w.server, c, c, w.up[c].sent[taken..q]);
  }

  lemma {:induction false} ReachedServerKeeps(w: Net, c: nat, bytes: nat, n: nat)
    requires Inv(w, n) && Enabled(w, ReachedServer(c, bytes), n)
    ensures Safe(w, ReachedServer(c, bytes), n) && Inv(Next(w, ReachedServer(c, bytes), n), n)
  {
    hide Carries, DownOk, TakenFrom, OfClient, TakeAll, Deliver, RequestsIn, From, FromClients, AllOf, Size;
    Sizes();
    assert ClientOk(w, c, n);
    var taken := w.server.nextExp[c] - 1;
    var q := ServerTakes(w, c, bytes, n, taken);
    var ms, w' := w.up[c].sent[taken..q], Next(w, ReachedServer(c, bytes), n);
    DeliverKeepsSent(w.up[c], bytes, Size(REQUEST));
    FromOne(c, ms);
    forall d | 0 <= d < n
      ensures ClientOk(w', d, n)
    {
      assert ClientOk(w, d, n);
      TakenFromMore(w.accepted, From(c, ms), d);
      TakenFromOne(c, ms, d);
      assert d == c ==> w.up[c].sent[..q] == w.up[c].sent[..taken] + ms;
    }
  }

  lemma {:induction false} DeliverKeepsSent(ch: Channel, k: nat, n: nat)
    requires k <= |ch.flight| && 0 < n
    ensures Deliver(ch, k, n).sent == ch.sent
  {
  }

  lemma {:induction false} FromOne(c: nat, ms: seq<Message>)
    requires AllOf(ms, c)
    ensures OwnSockets(From(c, ms))
  {
  }

  lemma {:induction false} RespondedKeeps(w: Net, m: Message, n: nat)
    requires Inv(w, n) && Enabled(w, Responded(m), n)
    ensures Safe(w, Responded(m), n) && Inv(Next(w, Responded(m), n), n)
  {
    hide Carries, TakenFrom, OfClient, Fits, Send, OwnSockets;
    var c := ClientOf(m);
    assert ClientOk(w, c, n);
    var w' := Next(w, Responded(m), n);
    SentMore(w.down[c], w.gateExp[c] - 1, m, RESPONSE);
    forall d | 0 <= d < n
      ensures ClientOk(w', d, n)
    {
      assert ClientOk(w, d, n);
      AnswersMore(w.answered, m, d);
    }
  }

  lemma {:induction false} AllOfStretch(ms: seq<Message>, c: nat, lo: nat, hi: nat)
    requires AllOf(ms, c) && lo <= hi <= |ms|
    ensures AllOf(ms[lo..hi], c)
  {
  }

  lemma {:induction false} ReachedGatewayKeeps(w: Net, c: nat, bytes: nat, n: nat)
    requires Inv(w, n) && Enabled(w, ReachedGateway(c, bytes), n)
    ensures Inv(Next(w, ReachedGateway(c, bytes), n), n)
  {
    hide Carries, UpOk, TakenFrom, OfClient, Deliver, OwnSockets, PassAll, Frames, ReadAll, Numbered, AllOf, Size,
      Arrived;
    Sizes();
    assert ClientOk(w, c, n);
    var passed, w' := w.gateExp[c] - 1, Next(w, ReachedGateway(c, bytes), n);
    var q := DeliverReads(w.down[c], passed, bytes, RESPONSE);
    AllOfStretch(w.down[c].sent, c, passed, q);
    PassesExpected(c, passed + 1, w.down[c].sent[passed..q]);
    DeliverKeepsSent(w.down[c], bytes, Size(RESPONSE));
    assert w.down[c].sent[..q] == w.down[c].sent[..passed] + w.down[c].sent[passed..q];
    forall d | 0 <= d < n
      ensures ClientOk(w', d, n)
    {
      assert ClientOk(w, d, n);
    }
  }

  /** Every step is safe and keeps both directions of every connection in order. */
  lemma {:induction false} StepKeeps(w: Net, e: Event, n: nat)
    requires Inv(w, n) && Enabled(w, e, n)
    ensures Safe(w, e, n) && Inv(Next(w, e, n), n)
  {
    hide ClientOk, OwnSockets, Next;
    match e
    case Requested(c, m) => RequestedKeeps(w, c, m, n);
    case ReachedServer(c, bytes) => ReachedServerKeeps(w, c, bytes, n);
    case Responded(m) => RespondedKeeps(w, m, n);
    case ReachedGateway(c, bytes) => ReachedGatewayKeeps(w, c, bytes, n);
  }

  // ----- whole runs

  const SILENT := Channel([], [], [])

  function Opening(n: nat): Net {
    Net(seq(n, _ => SILENT), Server(seq(n, _ => None), seq(n, _ => 1)), [],
        seq(n, _ => 1), [], seq(n, _ => SILENT), seq(n, _ => 1), seq(n, _ => []))
  }

  ghost predicate Runs(w: Net, es: seq<Event>, n: nat, end: Net)
    decreases es
  {
    if es == [] then w == end
    else Shaped(w, n) && Enabled(w, es[0], n) && Safe(w, es[0], n) && Runs(Next(w, es[0], n), es[1..], n, end)
  }

  lemma {:induction false} RunKeeps(w: Net, es: seq<Event>, n: nat, end: Net)
    requires Inv(w, n) && Runs(w, es, n, end)
    ensures Inv(end, n)
    decreases es
  {
    if es != [] {
      StepKeeps(w, es[0], n);
      RunKeeps(Next(w, es[0], n), es[1..], n, end);
    }
  }

  lemma {:induction false} SilentCarries(widths: seq<nat>)
    requires 0 < Size(widths) && widths != []
    ensures Carries(SILENT, 0, widths)
  {
  }

  lemma {:induction false} OpeningInv(n: nat)
    ensures Inv(Opening(n), n)
  {
    hide Carries, Size;
    Sizes();
    SilentCarries(REQUEST);
    SilentCarries(RESPONSE);
    assert SILENT.sent[..0] == [];
    forall c | 0 <= c < n
      ensures ClientOk(Opening(n), c, n)
    {
    }
  }

  /** What the invariant says of one client, in terms of messages only. */
  ghost predicate Delivers(w: Net, c: nat, n: nat)
    requires Shaped(w, n) && c < n
  {
    && TakenFrom(w.accepted, c) <= w.up[c].sent
    && w.server.nextExp[c] == |TakenFrom(w.accepted, c)| + 1
    && (w.up[c].inbox == w.up[c].flight == [] ==> TakenFrom(w.accepted, c) == w.up[c].sent)
    && w.got[c] <= OfClient(w.answered, c)
    && w.gateExp[c] == |w.got[c]| + 1
    && (w.down[c].inbox == w.down[c].flight == [] ==> w.got[c] == OfClient(w.answered, c))
  }

  lemma {:induction false} InvDelivers(w: Net, c: nat, n: nat)
    requires Inv(w, n) && c < n
    ensures Delivers(w, c, n)
  {
    hide OfClient, TakenFrom, Stream, Sendable, Size, OwnSockets, AllOf;
    assert ClientOk(w, c, n);
    if w.up[c].inbox == w.up[c].flight == [] {
      QuietMeansAll(w.up[c], w.server.nextExp[c] - 1, REQUEST);
    }
    if w.down[c].inbox == w.down[c].flight == [] {
      QuietMeansAll(w.down[c], w.gateExp[c] - 1, RESPONSE);
    }
  }

  /** End to end, both ways, over every run: the server has taken, of each client, its first
      requests in the order they were made, each once, unchanged and only from the client's
      own socket; and each gateway has passed on the first responses to its client likewise.
      The next step, whatever it is, finds the client ids and sockets it needs. */
  lemma {:induction false} DeliveredInOrder(n: nat, es: seq<Event>, end: Net)
    requires Runs(Opening(n), es, n, end)
    ensures Shaped(end, n) && OwnSockets(end.accepted)
    ensures forall c :: 0 <= c < n ==> Delivers(end, c, n)
    ensures forall e :: Enabled(end, e, n) ==> Safe(end, e, n)
  {
    hide Delivers, OwnSockets, ClientOk, Safe;
    OpeningInv(n);
    RunKeeps(Opening(n), es, n, end);
    forall c | 0 <= c < n
      ensures Delivers(end, c, n)
    {
      InvDelivers(end, c, n);
    }
    forall e | Enabled(end, e, n)
      ensures Safe(end, e, n)
    {
      StepKeeps(end, e, n);
    }
  }

  // ----- nothing stands in the way of a message

  /** Once nothing is in flight, nothing is left in the buffer either. */
  lemma {:induction false} NothingLeft(ch: Channel, taken: nat, widths: seq<nat>)
    requires Carries(ch, taken, widths) && ch.flight == []
    ensures taken == |ch.sent|
  {
    StreamIsLong(ch.sent[taken..], taken + 1, widths);
    assert ch.inbox + ch.flight == ch.inbox;
  }

  lemma {:induction false} StreamIsLong(ms: seq<Message>, first: nat, widths: seq<nat>)
    requires forall i :: 0 <= i < |ms| ==> |ms[i]| + 1 == |widths|
    ensures ms != [] ==> Size(widths) <= |Stream(ms, first, widths)|
  {
  }

  lemma {:induction false} TwoSteps(w: Net, e: Event, f: Event, n: nat)
    requires Inv(w, n) && Enabled(w, e, n)
    ensures Safe(w, e, n) && Inv(Next(w, e, n), n)
    ensures var v := Next(w, e, n); Enabled(v, f, n) ==>
      Safe(v, f, n) && Inv(Next(v, f, n), n) && Runs(w, [e, f], n, Next(v, f, n))
  {
    hide Inv, Enabled, Safe, Next;
    InvShaped(w, n);
    StepKeeps(w, e, n);
    var v := Next(w, e, n);
    if Enabled(v, f, n) {
      StepKeeps(v, f, n);
      var z := Next(v, f, n);
      assert [e, f][1..] == [f] && [f][1..] == [];
      assert Runs(z, [], n, z);
      assert Runs(v, [f], n, z);
    }
  }

  lemma {:induction false} InvShaped(w: Net, n: nat)
    requires Inv(w, n)
    ensures Shaped(w, n)
  {
  }

  /** From any state that can come about: what a client asks next is sent behind all it asked before,
      and when the bytes have arrived the server has taken all of it, from the client's socket. */
  lemma {:induction false} RequestArrives(n: nat, es: seq<Event>, mid: Net, c: nat, m: Message)
    requires Runs(Opening(n), es, n, mid)
    requires c < n && ClientOf(m) == c && Shaped(mid, n) && Fits([|mid.up[c].sent| + 1] + m, REQUEST)
    ensures exists k, end :: (
      && Runs(mid, [Requested(c, m), ReachedServer(c, k)], n, end) && Shaped(end, n)
      && TakenFrom(end.accepted, c) == mid.up[c].sent + [m] && end.server.bound[c] == Some(c))
  {
    hide Carries, TakenFrom, OwnSockets, DownOk, Fits, Frame, Runs;
    OpeningInv(n);
    RunKeeps(Opening(n), es, n, mid);
    var e := Requested(c, m);
    StepKeeps(mid, e, n);
    var w := Next(mid, e, n);
    var f := ReachedServer(c, |w.up[c].flight|);
    TwoSteps(mid, e, f, n);
    var end := Next(w, f, n);
    assert ClientOk(end, c, n) && end.up[c].flight == [] && end.up[c].sent == mid.up[c].sent + [m];
    NothingLeft(end.up[c], end.server.nextExp[c] - 1, REQUEST);
    assert end.up[c].sent[..|end.up[c].sent|] == end.up[c].sent;
  }

  /** The same for what the server answers a client it has heard from. */
  lemma {:induction false} ResponseArrives(n: nat, es: seq<Event>, mid: Net, c: nat, m: Message)
    requires Runs(Opening(n), es, n, mid)
    requires c < n && ClientOf(m) == c && Shaped(mid, n) && mid.server.bound[c].Some?
    requires Fits([mid.nextOut[c]] + m, RESPONSE)
    ensures exists k, end :: (
      && Runs(mid, [Responded(m), ReachedGateway(c, k)], n, end) && Shaped(end, n)
      && end.got[c] == OfClient(mid.answered, c) + [m])
  {
    hide Carries, TakenFrom, OwnSockets, UpOk, OfClient, Fits, Frame, Runs;
    OpeningInv(n);
    RunKeeps(Opening(n), es, n, mid);
    assert ClientOk(mid, c, n);
    var e := Responded(m);
    StepKeeps(mid, e, n);
    var w := Next(mid, e, n);
    var f := ReachedGateway(c, |w.down[c].flight|);
    TwoSteps(mid, e, f, n);
    var end := Next(w, f, n);
    assert ClientOk(end, c, n) && end.down[c].flight == [] && end.answered == mid.answered + [m];
    NothingLeft(end.down[c], end.gateExp[c] - 1, RESPONSE);
    AnswersMore(mid.answered, m, c);
    assert end.down[c].sent[..|end.down[c].sent|] == end.down[c].sent;
  }
}
