/** One direction of a connection: messages are queued, leave in partial sends, arrive in arbitrary
    chunks and are decoded.  What is handled is always what was queued, in order. */
module WireLink {
  import opened WireBytes
  import opened WireMessages
  import opened WireRoundTrip
  import opened WireStream
  import opened WireFraming

  const SEND_BUFFER := 16384

  /** sendMessage: `send(k)` is the result of the k-th call of send; send never takes more than it
      was offered. */
  datatype Sent = Sent(ok: bool, out: seq<byte>)

  function Offered(out: seq<byte>): nat {
    if |out| < SEND_BUFFER then |out| else SEND_BUFFER
  }

  function Taken(out: seq<byte>, result: int): int {
    if result > Offered(out) then Offered(out) else result
  }

  function SendLoop(out: seq<byte>, send: nat -> int, k: nat): (r: Sent)
    ensures |r.out| <= |out| && r.out == out[|out| - |r.out|..]
    decreases |out|
  {
    if out == [] then Sent(true, out)
    else if Taken(out, send(k)) < 0 then Sent(false, out)
    else if Taken(out, send(k)) == 0 then Sent(true, out)
    else SendLoop(out[Taken(out, send(k))..], send, k + 1)
  }

  /** One end of the server's connection to a client (Network.h:24-33). */
  class Client {
    const out: Stream
    var connected: bool

    constructor ()
      ensures out.bytes == [] && connected && fresh(out)
    {
      out := new Stream();
      connected := true;
    }

    /** Network::sendToClient: serialize first to know the size. */
    method SendToClient(m: Message) returns (ok: bool)
      modifies out
      ensures ok == connected
      ensures out.bytes == if connected then old(out.bytes) + Frame(m) else old(out.bytes)
    {
      if !connected { return false; }
      var message := new Stream();
      message.Serialize(m);
      assert message.bytes == Encode(m);
      out.AddInt(|message.bytes|);
      out.bytes := out.bytes + message.bytes;
      Regroup(old(out.bytes), Bytes(|Encode(m)|, 4), Encode(m));
      return true;
    }

    method SendMessage(send: nat -> int) returns (ok: bool)
      modifies out
      ensures Sent(ok, out.bytes) == SendLoop(old(out.bytes), send, 0)
    {
      var k := 0;
      while out.bytes != []
        invariant SendLoop(out.bytes, send, k) == SendLoop(old(out.bytes), send, 0)
        decreases |out.bytes|
      {
        var sent := Taken(out.bytes, send(k));
        if sent < 0 { return false; }
        if sent == 0 { return true; }
        out.bytes := out.bytes[sent..];
        k := k + 1;
      }
      return true;
    }
  }

  /** The whole direction.  `lost` is what a closed connection never sent. */
  datatype Link = Link(queued: seq<Message>, connected: bool, out: seq<byte>, lost: seq<byte>, wire: seq<byte>,
                       box: Inbox)

  datatype Event =
    | Queue(message: Message)      // sendToClient, broadcast, writeMessage
    | Send(send: nat -> int)       // sendMessage
    | Receive(n: nat)              // readTcpData: n bytes arrive, every complete frame is decoded
    | ReceiveOne(n: nat)           // Network::update: n bytes arrive, at most one frame is decoded

  function Start(): Link {
    Link([], true, [], [], [], Inbox([], [], Open))
  }

  function AtMost(n: nat, b: seq<byte>): nat {
    if n < |b| then n else |b|
  }

  function Step(l: Link, e: Event, handlers: set<byte>): Link {
    match e
    case Queue(m) => if l.connected then l.(queued := l.queued + [m], out := l.out + Frame(m)) else l
    case Send(send) =>
      AfterSend(l, SendLoop(l.out, send, 0))
    case Receive(n) =>
      var k := AtMost(n, l.wire);
      l.(wire := l.wire[k..], box := Arrive(l.box, l.wire[..k], handlers))
    case ReceiveOne(n) =>
      var k := AtMost(n, l.wire);
      l.(wire := l.wire[k..], box := ArriveOne(l.box, l.wire[..k], handlers))
  }

  /** What was sent is on the wire; after an error the client is closed and the rest is lost. */
  function AfterSend(l: Link, r: Sent): Link
    requires |r.out| <= |l.out|
  {
    var moved := l.wire + l.out[..|l.out| - |r.out|];
    if r.ok then l.(out := r.out, wire := moved)
    else l.(connected := false, out := [], lost := r.out + l.lost, wire := moved)
  }

  /** Network::update appends what it received and decodes at most one message; it goes on when the
      message has no handler (NetworkImpl.h:214-226). */
  function ArriveOne(box: Inbox, chunk: seq<byte>, handlers: set<byte>): Inbox {
    var b := box.(stream := box.stream + chunk);
    if b.status == Open && Available(b.stream) then Dispatch(b, handlers, Open) else b
  }

  /** What the two ends must respect: sizes that fit their fields, a handler for every message, and
      a receive buffer below two gigabytes. */
  ghost predicate Allowed(l: Link, e: Event, handlers: set<byte>) {
    match e
    case Queue(m) => Sendable(m) && ProtocolId(m) in handlers
    case Send(_) => true
    case Receive(n) => |l.box.stream| + n < 0x8000_0000
    case ReceiveOne(n) => |l.box.stream| + n < 0x8000_0000
  }

  ghost predicate Sendable(m: Message) {
    Fits(m) && |Encode(m)| < 0x8000_0000
  }

  ghost predicate AllSendable(ms: seq<Message>, handlers: set<byte>) {
    forall m :: m in ms ==> Sendable(m) && ProtocolId(m) in handlers
  }

  /** The queued messages that are not handled yet. */
  function Rest(queued: seq<Message>, box: Inbox): seq<Message> {
    if |box.handled| <= |queued| then queued[|box.handled|..] else []
  }

  /** The receiver is on track: it handled the first queued messages, and its buffer followed by the
      bytes `tail` still to arrive are exactly the frames of the others. */
  ghost predicate OnTrack(queued: seq<Message>, box: Inbox, tail: seq<byte>, handlers: set<byte>) {
    && AllSendable(queued, handlers)
    && box.status == Open
    && box.handled <= queued
    && box.stream + tail == Frames(Rest(queued, box))
  }

  /** The bytes that have not arrived, in the order they were queued. */
  function Ahead(l: Link): seq<byte> {
    l.wire + (l.out + l.lost)
  }

  /** Every byte of every queued message is somewhere on its way, in order. */
  ghost predicate LinkInv(l: Link, handlers: set<byte>) {
    && OnTrack(l.queued, l.box, Ahead(l), handlers)
    && (l.connected ==> l.lost == [])
    && (!l.connected ==> l.out == [])
  }

  // ---------- one frame ----------

  lemma PrefixOfBoth(a: seq<byte>, b: seq<byte>, c: seq<byte>, d: seq<byte>, n: nat)
    requires a + b == c + d && n <= |a| && n <= |c|
    ensures a[..n] == c[..n]
  {
    assert a[..n] == (a + b)[..n];
    assert c[..n] == (c + d)[..n];
  }

  /** While less than a whole frame is there it is not available; from then on it is. */
  lemma FrameAvailable(m: Message, stream: seq<byte>, tail: seq<byte>, more: seq<byte>)
    requires Sendable(m) && stream + tail == Frame(m) + more && |stream| < 0x8000_0000
    ensures Available(stream) <==> |stream| >= |Frame(m)|
  {
    if |stream| >= 4 {
      PrefixOfBoth(stream, tail, Frame(m), more, 4);
      FrameSize(|Encode(m)|, Encode(m));
      SizesFit(|Encode(m)|, |stream| - 4);
    }
  }

  lemma SizesFit(m: nat, n: nat)
    requires m < 0x8000_0000 && n < 0x8000_0000
    ensures Signed(Bytes(m, 4), TWO32) == m && Signed(Bytes(n, 4), TWO32) == n
  {
    SignedBytes(m, 4);
    SignedBytes(n, 4);
    Widths();
  }

  lemma FrameSize(size: int, message: seq<byte>)
    ensures (Bytes(size, 4) + message)[..4] == Bytes(size, 4) && (Bytes(size, 4) + message)[4..] == message
  {
  }

  lemma NothingAvailable(stream: seq<byte>, tail: seq<byte>, ms: seq<Message>)
    requires stream + tail == Frames(ms)
    ensures ms == [] ==> !Available(stream) && stream == []
  {
    assert |stream + tail| == |stream| + |tail|;
  }

  lemma Drop(a: seq<byte>, b: seq<byte>, c: seq<byte>, d: seq<byte>)
    requires a + b == c + d && |a| >= |c|
    ensures a == c + a[|c|..] && a[|c|..] + b == d
  {
    PrefixOfBoth(a, b, c, d, |c|);
    assert a[|c|..] + b == (a + b)[|c|..];
    assert d == (c + d)[|c|..];
  }

  lemma FrameTaken(m: Message, rest: seq<byte>)
    requires Sendable(m)
    ensures Decode((Frame(m) + rest)[4..]) == Received(m, rest)
  {
    Regroup(Bytes(|Encode(m)|, 4), Encode(m), rest);
    FrameSize(|Encode(m)|, Encode(m) + rest);
    RoundTrip(m, rest);
  }

  // ---------- draining ----------

  /** A complete frame is the next queued message. */
  lemma TakeNext(queued: seq<Message>, box: Inbox, tail: seq<byte>, handlers: set<byte>, unhandled: Status)
    requires OnTrack(queued, box, tail, handlers) && |box.stream| < 0x8000_0000 && Available(box.stream)
    ensures OnTrack(queued, Dispatch(box, handlers, unhandled), tail, handlers)
    ensures |Dispatch(box, handlers, unhandled).handled| == |box.handled| + 1
    ensures |Dispatch(box, handlers, unhandled).stream| < |box.stream|
  {
    var ms := Rest(queued, box);
    NothingAvailable(box.stream, tail, ms);
    var m, more := ms[0], Frames(ms[1..]);
    assert m in queued;
    FrameAvailable(m, box.stream, tail, more);
    Drop(box.stream, tail, Frame(m), more);
    var rest := box.stream[|Frame(m)|..];
    FrameTaken(m, rest);
    NextOnTrack(queued, box, rest, tail, handlers);
  }

  lemma NextOnTrack(queued: seq<Message>, box: Inbox, rest: seq<byte>, tail: seq<byte>, handlers: set<byte>)
    requires AllSendable(queued, handlers) && box.status == Open && box.handled <= queued
    requires Rest(queued, box) != [] && rest + tail == Frames(Rest(queued, box)[1..])
    ensures OnTrack(queued, Inbox(rest, box.handled + [Rest(queued, box)[0]], Open), tail, handlers)
  {
    var h := |box.handled|;
    assert queued[h..][1..] == queued[h + 1..];
    assert box.handled + [queued[h]] <= queued;
  }

  lemma {:induction false} DrainOnTrack(queued: seq<Message>, box: Inbox, tail: seq<byte>, handlers: set<byte>)
    requires OnTrack(queued, box, tail, handlers) && |box.stream| < 0x8000_0000
    ensures OnTrack(queued, Drain(box, handlers), tail, handlers)
    ensures LeftOver(Drain(box, handlers).stream, Rest(queued, Drain(box, handlers)))
    decreases |box.stream|
  {
    if Available(box.stream) {
      TakeNext(queued, box, tail, handlers, Disconnected);
      DrainOnTrack(queued, TakeMessage(box, handlers), tail, handlers);
    } else {
      NotAvailable(queued, box, tail, handlers);
    }
  }

  /** The bytes left over are a proper prefix of the next frame. */
  ghost predicate LeftOver(stream: seq<byte>, ms: seq<Message>) {
    if ms == [] then stream == [] else |stream| < |Frame(ms[0])| && stream == Frame(ms[0])[..|stream|]
  }

  lemma NotAvailable(queued: seq<Message>, box: Inbox, tail: seq<byte>, handlers: set<byte>)
    requires OnTrack(queued, box, tail, handlers) && |box.stream| < 0x8000_0000 && !Available(box.stream)
    ensures LeftOver(box.stream, Rest(queued, box))
  {
    var ms := Rest(queued, box);
    assert ms != [] ==> ms[0] in queued;
    Incomplete(box.stream, tail, ms);
  }

  lemma Incomplete(stream: seq<byte>, tail: seq<byte>, ms: seq<Message>)
    requires stream + tail == Frames(ms) && |stream| < 0x8000_0000 && !Available(stream)
    requires ms != [] ==> Sendable(ms[0])
    ensures LeftOver(stream, ms)
  {
    if ms == [] {
      NothingAvailable(stream, tail, ms);
    } else {
      var m, more := ms[0], Frames(ms[1..]);
      FrameAvailable(m, stream, tail, more);
      PrefixOfBoth(stream, tail, Frame(m), more, |stream|);
    }
  }

  // ---------- the invariant ----------

  lemma {:induction false} FramesAppend(ms: seq<Message>, m: Message)
    ensures Frames(ms + [m]) == Frames(ms) + Frame(m)
  {
    if ms == [] {
      assert ms + [m] == [m] && [m][1..] == [];
    } else {
      assert (ms + [m])[1..] == ms[1..] + [m];
      FramesAppend(ms[1..], m);
      Regroup(Frame(ms[0]), Frames(ms[1..]), Frame(m));
    }
  }

  lemma QueueOnTrack(queued: seq<Message>, box: Inbox, tail: seq<byte>, m: Message, handlers: set<byte>)
    requires OnTrack(queued, box, tail, handlers) && Sendable(m) && ProtocolId(m) in handlers
    ensures OnTrack(queued + [m], box, tail + Frame(m), handlers)
  {
    assert Rest(queued + [m], box) == Rest(queued, box) + [m];
    FramesAppend(Rest(queued, box), m);
    Regroup(box.stream, tail, Frame(m));
  }

  lemma QueueAhead(wire: seq<byte>, out: seq<byte>, frame: seq<byte>)
    ensures wire + ((out + frame) + []) == (wire + (out + [])) + frame
  {
    assert out + [] == out && (out + frame) + [] == out + frame;
    Regroup(wire, out, frame);
  }

  lemma QueueInv(l: Link, m: Message, handlers: set<byte>)
    requires LinkInv(l, handlers) && Allowed(l, Queue(m), handlers)
    ensures LinkInv(Step(l, Queue(m), handlers), handlers)
  {
    if l.connected {
      QueueOnTrack(l.queued, l.box, Ahead(l), m, handlers);
      QueueAhead(l.wire, l.out, Frame(m));
    }
  }

  lemma SendAhead(wire: seq<byte>, out: seq<byte>, n: nat, lost: seq<byte>)
    requires n <= |out|
    ensures (wire + out[..n]) + (out[n..] + lost) == wire + (out + lost)
    ensures (wire + out[..n]) + ([] + (out[n..] + lost)) == wire + (out + lost)
  {
    var head, rest := out[..n], out[n..];
    assert out == head + rest;
    Regroup(head, rest, lost);
    Regroup(wire, head, rest + lost);
    assert [] + (rest + lost) == rest + lost;
  }

  /** Moving bytes between the parts of a link does not matter, as long as their order stays. */
  lemma BytesMoved(l: Link, next: Link, handlers: set<byte>)
    requires LinkInv(l, handlers) && next.queued == l.queued && next.box == l.box && Ahead(next) == Ahead(l)
    requires (next.connected ==> next.lost == []) && (!next.connected ==> next.out == [])
    ensures LinkInv(next, handlers)
  {
  }

  lemma AfterSendAhead(l: Link, r: Sent)
    requires |r.out| <= |l.out| && r.out == l.out[|l.out| - |r.out|..]
    ensures Ahead(AfterSend(l, r)) == Ahead(l)
  {
    SendAhead(l.wire, l.out, |l.out| - |r.out|, l.lost);
  }

  lemma SendInv(l: Link, send: nat -> int, handlers: set<byte>)
    requires LinkInv(l, handlers)
    ensures var next := Step(l, Send(send), handlers); LinkInv(next, handlers)
  {
    var r := SendLoop(l.out, send, 0);
    AfterSendAhead(l, r);
    BytesMoved(l, AfterSend(l, r), handlers);
  }

  lemma ReceiveSplit(stream: seq<byte>, wire: seq<byte>, k: nat, tail: seq<byte>)
    requires k <= |wire|
    ensures stream + (wire + tail) == (stream + wire[..k]) + (wire[k..] + tail)
  {
    assert wire == wire[..k] + wire[k..];
    Regroup(wire[..k], wire[k..], tail);
    Regroup(stream, wire[..k], wire[k..] + tail);
  }

  /** The receiver stays on track when bytes only move into its buffer. */
  lemma ReceiveOnTrack(l: Link, k: nat, handlers: set<byte>)
    requires LinkInv(l, handlers) && k <= |l.wire|
    ensures OnTrack(l.queued, l.box.(stream := l.box.stream + l.wire[..k]), l.wire[k..] + (l.out + l.lost), handlers)
  {
    ReceiveSplit(l.box.stream, l.wire, k, l.out + l.lost);
  }

  lemma ReceiveInv(l: Link, n: nat, handlers: set<byte>)
    requires LinkInv(l, handlers) && Allowed(l, Receive(n), handlers)
    ensures var next := Step(l, Receive(n), handlers);
            LinkInv(next, handlers) && LeftOver(next.box.stream, Rest(next.queued, next.box))
  {
    var k := AtMost(n, l.wire);
    ReceiveOnTrack(l, k, handlers);
    DrainOnTrack(l.queued, l.box.(stream := l.box.stream + l.wire[..k]), l.wire[k..] + (l.out + l.lost), handlers);
  }

  lemma ReceiveOneInv(l: Link, n: nat, handlers: set<byte>)
    requires LinkInv(l, handlers) && Allowed(l, ReceiveOne(n), handlers)
    ensures LinkInv(Step(l, ReceiveOne(n), handlers), handlers)
  {
    var k := AtMost(n, l.wire);
    ReceiveOnTrack(l, k, handlers);
    var before := l.box.(stream := l.box.stream + l.wire[..k]);
    if Available(before.stream) {
      TakeNext(l.queued, before, l.wire[k..] + (l.out + l.lost), handlers, Open);
    }
  }

  lemma StepInv(l: Link, e: Event, handlers: set<byte>)
    requires LinkInv(l, handlers) && Allowed(l, e, handlers)
    ensures LinkInv(Step(l, e, handlers), handlers)
  {
    match e {
      case Queue(m) => QueueInv(l, m, handlers);
      case Send(send) => SendInv(l, send, handlers);
      case Receive(n) => ReceiveInv(l, n, handlers);
      case ReceiveOne(n) => ReceiveOneInv(l, n, handlers);
    }
  }

  // ---------- runs ----------

  ghost predicate AllAllowed(l: Link, es: seq<Event>, handlers: set<byte>)
    decreases |es|
  {
    es == [] || (Allowed(l, es[0], handlers) && AllAllowed(Step(l, es[0], handlers), es[1..], handlers))
  }

  function Run(l: Link, es: seq<Event>, handlers: set<byte>): Link
    decreases |es|
  {
    if es == [] then l else Run(Step(l, es[0], handlers), es[1..], handlers)
  }

  lemma {:induction false} RunInv(l: Link, es: seq<Event>, handlers: set<byte>)
    requires LinkInv(l, handlers) && AllAllowed(l, es, handlers)
    ensures LinkInv(Run(l, es, handlers), handlers)
    decreases |es|
  {
    if es != [] {
      StepInv(l, es[0], handlers);
      RunInv(Step(l, es[0], handlers), es[1..], handlers);
    }
  }

  lemma {:induction false} RunAppend(l: Link, es: seq<Event>, e: Event, handlers: set<byte>)
    ensures Run(l, es + [e], handlers) == Step(Run(l, es, handlers), e, handlers)
    ensures AllAllowed(l, es + [e], handlers) <==>
            AllAllowed(l, es, handlers) && Allowed(Run(l, es, handlers), e, handlers)
    decreases |es|
  {
    if es == [] {
      assert es + [e] == [e] && [e][1..] == [];
    } else {
      assert (es + [e])[1..] == es[1..] + [e];
      RunAppend(Step(l, es[0], handlers), es[1..], e, handlers);
    }
  }

  /** For every pattern of queueing, partial sends and received chunks: the handled messages are the
      first queued ones, in order, and the receiver neither disconnects nor reads past a message. */
  lemma Fifo(es: seq<Event>, handlers: set<byte>)
    requires AllAllowed(Start(), es, handlers)
    ensures var l := Run(Start(), es, handlers);
            && l.box.status == Open
            && l.box.handled <= l.queued
            && l.box.stream + Ahead(l) == Frames(Rest(l.queued, l.box))
  {
    RunInv(Start(), es, handlers);
  }

  /** After the debugger reads, what is left in its buffer is a proper prefix of the next frame; and
      once every byte has arrived, every queued message has been handled. */
  lemma FifoComplete(es: seq<Event>, n: nat, handlers: set<byte>)
    requires AllAllowed(Start(), es + [Receive(n)], handlers)
    ensures var l := Run(Start(), es + [Receive(n)], handlers);
            && LeftOver(l.box.stream, Rest(l.queued, l.box))
            && (Ahead(l) == [] ==> l.box.handled == l.queued && l.box.stream == [])
  {
    var l := Run(Start(), es, handlers);
    RunAppend(Start(), es, Receive(n), handlers);
    RunInv(Start(), es, handlers);
    ReceiveInv(l, n, handlers);
    AllArrived(Step(l, Receive(n), handlers), handlers);
  }

  lemma AllArrived(l: Link, handlers: set<byte>)
    requires LinkInv(l, handlers) && LeftOver(l.box.stream, Rest(l.queued, l.box))
    ensures Ahead(l) == [] ==> l.box.handled == l.queued && l.box.stream == []
  {
    var ms := Rest(l.queued, l.box);
    assert Ahead(l) == [] ==> l.box.stream == Frames(ms);
    assert ms != [] ==> |Frames(ms)| >= |Frame(ms[0])|;
  }

  /** The server decodes one message per update: once every byte is in its buffer, each update
      handles exactly the next message. */
  lemma UpdateHandlesNext(l: Link, handlers: set<byte>)
    requires LinkInv(l, handlers) && Allowed(l, ReceiveOne(0), handlers)
    requires Ahead(l) == [] && l.box.handled != l.queued
    ensures Step(l, ReceiveOne(0), handlers).box.handled == l.queued[..|l.box.handled| + 1]
  {
    var box := l.box.(stream := l.box.stream + l.wire[..0]);
    assert box == l.box && box.stream + [] == box.stream;
    var ms := Rest(l.queued, box);
    assert ms[0] in l.queued;
    FrameAvailable(ms[0], box.stream, [], Frames(ms[1..]));
    TakeNext(l.queued, box, [], handlers, Open);
  }

  /** A message without a handler costs the server that message only: the next frame is still taken
      from the right place.  The debugger disconnects. */
  lemma UnhandledDropped(m: Message, rest: seq<byte>, handled: seq<Message>, handlers: set<byte>)
    requires Sendable(m) && ProtocolId(m) !in handlers && |Frame(m) + rest| < 0x8000_0000
    ensures Available(Frame(m) + rest)
    ensures ArriveOne(Inbox(Frame(m) + rest, handled, Open), [], handlers) == Inbox(rest, handled, Open)
    ensures TakeMessage(Inbox(Frame(m) + rest, handled, Open), handlers) == Inbox(rest, handled, Disconnected)
  {
    FrameAvailable(m, Frame(m) + rest, [], rest);
    assert (Frame(m) + rest) + [] == Frame(m) + rest;
    FrameTaken(m, rest);
  }
}
