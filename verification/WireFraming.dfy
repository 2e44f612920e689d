/** Length-prefixed frames: when a message counts as complete, how it is taken off a stream, and
    how a stream is drained (ProtocolMessageFactory.h, AIDebugger.cpp, NetworkImpl.h). */
module WireFraming {
  import opened Wrappers
  import opened WireBytes
  import opened WireMessages
  import opened WireRoundTrip
  import opened WireStream

  /** The size in front, then the message (NetworkImpl.h:258-262). */
  function Frame(m: Message): seq<byte> {
    Bytes(|Encode(m)|, 4) + Encode(m)
  }

  function Frames(ms: seq<Message>): seq<byte> {
    if ms == [] then [] else Frame(ms[0]) + Frames(ms[1..])
  }

  /** peekInt: -1 when there are fewer than four bytes. */
  function PeekInt(b: seq<byte>): int {
    if |b| < 4 then -1 else Signed(b[..4], TWO32)
  }

  /** isNewMessageAvailable; the length of the stream is cut to an int. */
  predicate Available(b: seq<byte>) {
    PeekInt(b) != -1 && PeekInt(b) <= Signed(Bytes(|b| - 4, 4), TWO32)
  }

  lemma SizeOf(b: seq<byte>)
    requires 4 <= |b| < 0x8000_0000
    ensures PeekInt(b) == IntValue(b[..4]) && Signed(Bytes(|b| - 4, 4), TWO32) == |b| - 4
  {
    assert Signed(b[..4], TWO32) == IntValue(b[..4]) by { OffWire(b[..4]); }
    CutFits(|b| - 4);
  }

  lemma CutFits(n: nat)
    requires n < 0x8000_0000
    ensures Signed(Bytes(n, 4), TWO32) == n
  {
    SignedBytes(n, 4);
    Widths();
  }

  // ---------- reading never lengthens a stream ----------

  lemma {:induction false} LoopShorter<T>(decode: seq<byte> -> Option<Got<T>>, n: int, b: seq<byte>, done: seq<T>)
    requires forall c :: decode(c).Some? ==> |decode(c).value.rest| <= |c|
    ensures DecodeLoop(decode, n, b, done).Some? ==> |DecodeLoop(decode, n, b, done).value.rest| <= |b|
    decreases n
  {
    if n > 0 && decode(b).Some? {
      LoopShorter(decode, n - 1, decode(b).value.rest, done + [decode(b).value.value]);
    }
  }

  lemma IntsShorter(n: int, b: seq<byte>)
    ensures DecodeMany(ReadInt, n, b).Some? ==> |DecodeMany(ReadInt, n, b).value.rest| <= |b|
  {
    LoopShorter(ReadInt, n, b, []);
  }

  lemma TextsShorter(n: int, b: seq<byte>)
    ensures DecodeMany(ReadText, n, b).Some? ==> |DecodeMany(ReadText, n, b).value.rest| <= |b|
  {
    LoopShorter(ReadText, n, b, []);
  }

  lemma {:induction false} AttributesShorter(n: int, b: seq<byte>, done: seq<Attribute>)
    ensures AttributeLoop(n, b, done).Some? ==> |AttributeLoop(n, b, done).value.rest| <= |b|
    decreases n
  {
    if n > 0 && DecodeAttribute(b).Some? {
      AttributesShorter(n - 1, DecodeAttribute(b).value.rest, Insert(done, DecodeAttribute(b).value.value));
    }
  }

  lemma StateShorter(b: seq<byte>)
    ensures DecodeState(b).Some? ==> |DecodeState(b).value.rest| <= |b|
  {
    forall c ensures DecodeWorldState(c).Some? ==> |DecodeWorldState(c).value.rest| <= |c| {
      var v := DecodePlace(c);
      if v.Some? && ReadShort(v.value.rest).Some? {
        var size := ReadShort(v.value.rest).value;
        AttributesShorter(size.value, size.rest, []);
      }
    }
    if ReadInt(b).Some? { LoopShorter(DecodeWorldState, ReadInt(b).value.value, ReadInt(b).value.rest, []); }
  }

  lemma StaticShorter(b: seq<byte>)
    ensures DecodeStatic(b).Some? ==> |DecodeStatic(b).value.rest| <= |b|
  {
    forall c ensures DecodeNodeStatic(c).Some? ==> |DecodeNodeStatic(c).value.rest| <= |c| {
      if ReadInt(c).Some? { TextsShorter(5, ReadInt(c).value.rest); }
    }
    if ReadInt(b).Some? {
      var r := ReadInt(b).value.rest;
      if ReadInt(r).Some? { LoopShorter(DecodeNodeStatic, ReadInt(r).value.value, ReadInt(r).value.rest, []); }
    }
  }

  lemma DetailsShorter(b: seq<byte>)
    ensures DecodeDetails(b).Some? ==> |DecodeDetails(b).value.rest| <= |b|
  {
    if ReadInt(b).Some? {
      var r := ReadInt(b).value.rest;
      if ReadShort(r).Some? { LoopShorter(DecodeAggroEntry, ReadShort(r).value.value, ReadShort(r).value.rest, []); }
    }
  }

  lemma EditShorter(n: nat, b: seq<byte>)
    ensures DecodeEdit(n, b).Some? ==> |DecodeEdit(n, b).value.rest| <= |b|
  {
    IntsShorter(2, b);
    var v := DecodeMany(ReadInt, 2, b);
    if v.Some? { TextsShorter(n, v.value.rest); }
  }

  lemma SmallShorter(id: byte, b: seq<byte>)
    ensures DecodeSmall(id, b).Some? ==> |DecodeSmall(id, b).value.rest| <= |b|
  {
  }

  lemma BodyShorter(id: byte, b: seq<byte>)
    requires id <= 12
    ensures DecodeBody(id, b).Some? ==> |DecodeBody(id, b).value.rest| <= |b|
  {
    if id == 1 {
      StateShorter(b);
    } else if id == 2 {
      StaticShorter(b);
    } else if id == 3 {
      DetailsShorter(b);
    } else if id == 7 {
      if ReadInt(b).Some? { TextsShorter(ReadInt(b).value.value, ReadInt(b).value.rest); }
    } else if id >= 10 {
      EditShorter(0, b);
      EditShorter(3, b);
    } else {
      SmallShorter(id, b);
    }
  }

  lemma DecodeShorter(b: seq<byte>)
    ensures Decode(b).Received? ==> |Decode(b).rest| < |b|
  {
    if b != [] && b[0] <= 12 { BodyShorter(b[0], b[1..]); }
  }

  // ---------- draining a stream ----------

  datatype Status = Open | Disconnected | Overran

  /** The receiving end: bytes not decoded yet, and the messages handled so far. */
  datatype Inbox = Inbox(stream: seq<byte>, handled: seq<Message>, status: Status)

  /** ProtocolMessageFactory::create and the handler call that follows it; `handlers` are the ids that
      have a handler, and `unhandled` is what a message without one makes of the connection. */
  function Dispatch(box: Inbox, handlers: set<byte>, unhandled: Status): (r: Inbox)
    requires Available(box.stream)
    ensures box.status == Open && r.status == Open ==> |r.stream| < |box.stream|
  {
    DecodeShorter(box.stream[4..]);
    match Decode(box.stream[4..])
    case Received(m, rest) =>
      if ProtocolId(m) in handlers then Inbox(rest, box.handled + [m], box.status)
      else Inbox(rest, box.handled, unhandled)
    case Unknown(rest) => Inbox(rest, box.handled, Disconnected)
    case Overrun => Inbox([], box.handled, Overran)
  }

  /** The debugger disconnects when a message has no handler (AIDebugger.cpp:283-299). */
  function TakeMessage(box: Inbox, handlers: set<byte>): (r: Inbox)
    requires Available(box.stream)
    ensures box.status == Open && r.status == Open ==> |r.stream| < |box.stream|
  {
    Dispatch(box, handlers, Disconnected)
  }

  /** The inner loop of readTcpData: decode every complete frame. */
  function Drain(box: Inbox, handlers: set<byte>): Inbox
    decreases box.status == Open, |box.stream|
  {
    if box.status != Open || !Available(box.stream) then box else Drain(TakeMessage(box, handlers), handlers)
  }

  /** A chunk arrives and everything complete is decoded. */
  function Arrive(box: Inbox, chunk: seq<byte>, handlers: set<byte>): Inbox {
    if box.status == Open then Drain(box.(stream := box.stream + chunk), handlers) else box
  }

  function ArriveAll(box: Inbox, chunks: seq<seq<byte>>, handlers: set<byte>): Inbox
    decreases |chunks|
  {
    if chunks == [] then box else ArriveAll(Arrive(box, chunks[0], handlers), chunks[1..], handlers)
  }

  /** AIDebugger, the receiving part. */
  class Debugger {
    const stream: Stream
    const handlers: set<byte>
    var handled: seq<Message>
    var status: Status

    ghost function State(): Inbox
      reads this, stream
    {
      Inbox(stream.bytes, handled, status)
    }

    constructor (handlers: set<byte>)
      ensures State() == Inbox([], [], Open) && this.handlers == handlers && fresh(stream)
    {
      this.handlers := handlers;
      stream := new Stream();
      handled, status := [], Open;
    }

    method NewMessageAvailable() returns (r: bool)
      ensures r == Available(stream.bytes)
      ensures |stream.bytes| < 0x8000_0000 ==>
                (r <==> |stream.bytes| >= 4 && var size := IntValue(stream.bytes[..4]);
                   size != -1 && size <= |stream.bytes| - 4)
    {
      if 4 <= |stream.bytes| < 0x8000_0000 { SizeOf(stream.bytes); }
      var size := PeekInt(stream.bytes);
      if size == -1 { return false; }
      var streamSize := Signed(Bytes(|stream.bytes| - 4, 4), TWO32);
      if size > streamSize { return false; }
      return true;
    }

    method Create() returns (r: Received)
      requires Available(stream.bytes)
      modifies stream
      ensures match Decode(old(stream.bytes)[4..])
              case Received(m, rest) => r == Received(m, []) && stream.bytes == rest
              case Unknown(rest) => r == Unknown([]) && stream.bytes == rest
              case Overrun => r == Overrun
    {
      stream.bytes := stream.bytes[4..];
      var id := stream.TakeByte();
      if id == None { return Overrun; }
      if id.value > 12 { return Unknown([]); }
      var m := stream.TakeBody(id.value);
      if m == None { return Overrun; }
      return Received(m.value, []);
    }

    method HandleMessage()
      requires Available(stream.bytes)
      modifies this, stream
      ensures State() == TakeMessage(old(State()), handlers)
      ensures |old(stream.bytes)| > 4 && old(stream.bytes)[4] > 12 ==>
                status == Disconnected && handled == old(handled) && stream.bytes == old(stream.bytes)[5..]
    {
      var r := Create();
      match r
      case Received(m, _) =>
        if ProtocolId(m) in handlers { handled := handled + [m]; } else { status := Disconnected; }
      case Unknown(_) => status := Disconnected;
      case Overrun =>
        stream.bytes := [];
        status := Overran;
    }

    /** `chunks` is what the socket returns, one entry per readAll. */
    method ReadTcpData(chunks: seq<seq<byte>>)
      modifies this, stream
      ensures State() == ArriveAll(old(State()), chunks, handlers)
    {
      var k := 0;
      while k < |chunks|
        invariant k <= |chunks|
        invariant ArriveAll(State(), chunks[k..], handlers) == ArriveAll(old(State()), chunks, handlers)
      {
        assert chunks[k..][1..] == chunks[k + 1..];
        if status == Open {
          ReadChunk(chunks[k]);
        }
        k := k + 1;
      }
      assert chunks[k..] == [];
    }

    method ReadChunk(data: seq<byte>)
      requires status == Open
      modifies this, stream
      ensures State() == Arrive(old(State()), data, handlers)
    {
      for i := 0 to |data|
        invariant stream.bytes == old(stream.bytes) + data[..i] && handled == old(handled) && status == Open
      {
        stream.AddByte(data[i]);
        assert data[..i + 1] == data[..i] + [data[i]];
      }
      assert data[..|data|] == data;
      ghost var all := Drain(State(), handlers);
      while true
        invariant Drain(State(), handlers) == all
        decreases status == Open, |stream.bytes|
      {
        if status != Open { break; }
        var available := NewMessageAvailable();
        if !available { break; }
        HandleMessage();
      }
    }
  }
}
