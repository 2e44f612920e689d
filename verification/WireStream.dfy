/** The deque of bytes that messages are written to and read from, changed in place the way the
    serializers do it. */
module WireStream {
  import opened Wrappers
  import opened WireBytes
  import opened WireMessages

  /** A read gave what the decoder says; None stands for running off the end of the stream. */
  predicate Took<T(==)>(r: Option<T>, left: seq<byte>, spec: Option<Got<T>>) {
    match spec
    case None => r == None
    case Some(Got(x, rest)) => r == Some(x) && left == rest
  }

  /** One turn of a reading loop: `r` and `rest` are what reading one element gave. */
  lemma LoopStep<T>(decode: seq<byte> -> Option<Got<T>>, n: int, next: int, b: seq<byte>, done: seq<T>, r: Option<T>,
        rest: seq<byte>)
    requires n > 0 && next == n - 1 && Took(r, rest, decode(b))
    ensures DecodeLoop(decode, n, b, done) == if r.None? then None else DecodeLoop(decode, next, rest, done + [r.value])
  {
  }

  function StatesLeft(n: int, b: seq<byte>, done: seq<WorldState>): Option<Got<seq<WorldState>>> {
    DecodeLoop(DecodeWorldState, n, b, done)
  }

  /** Reading `n` more states after `done` gives `all`. */
  ghost predicate Pending(n: int, b: seq<byte>, done: seq<WorldState>, all: Option<Got<seq<WorldState>>>) {
    all == StatesLeft(n, b, done)
  }

  lemma AllPending(n: int, b: seq<byte>)
    ensures Pending(n, b, [], DecodeMany(DecodeWorldState, n, b))
  {
  }

  lemma NonePending(n: int, b: seq<byte>, done: seq<WorldState>, all: Option<Got<seq<WorldState>>>)
    requires n <= 0 && Pending(n, b, done, all)
    ensures all == Some(Got(done, b))
  {
  }

  lemma NextState(n: int, next: int, b: seq<byte>, done: seq<WorldState>, r: Option<WorldState>, rest: seq<byte>)
    requires n > 0 && next == n - 1 && Took(r, rest, DecodeWorldState(b))
    ensures StatesLeft(n, b, done) == if r == None then None else StatesLeft(next, rest, done + [r.value])
  {
    LoopStep(DecodeWorldState, n, next, b, done, r, rest);
  }

  lemma OneMoreWritten<T>(encode: T -> seq<byte>, xs: seq<T>, i: nat, out: seq<byte>)
    requires i < |xs|
    ensures out + EncodeMany(encode, xs[i..]) == (out + encode(xs[i])) + EncodeMany(encode, xs[i + 1..])
  {
    assert xs[i..][1..] == xs[i + 1..];
    Regroup(out, encode(xs[i]), EncodeMany(encode, xs[i + 1..]));
  }

  class Stream {
    var bytes: seq<byte>

    constructor ()
      ensures bytes == []
    {
      bytes := [];
    }

    // ---------- writing ----------

    method AddByte(b: byte)
      modifies this
      ensures bytes == old(bytes) + [b]
    {
      bytes := bytes + [b];
    }

    method AddBool(v: bool)
      modifies this
      ensures bytes == old(bytes) + [BoolByte(v)] && bytes == old(bytes) + [if v then 1 else 0]
    {
      AddByte(BoolByte(v));
    }

    /** Push the low byte of `v` and shift it out. */
    method AddLow(v: int) returns (high: int)
      modifies this
      ensures bytes == old(bytes) + [v % 256] && high == v / 256
    {
      AddByte(v % 256);
      high := v / 256;
    }

    method AddShort(v: int)
      modifies this
      ensures bytes == old(bytes) + Bytes(v, 2) && bytes == old(bytes) + ShortOnWire(v)
    {
      OnWire(v);
      var high := AddLow(v);
      high := AddLow(high);
    }

    method AddInt(v: int)
      modifies this
      ensures bytes == old(bytes) + Bytes(v, 4) && bytes == old(bytes) + IntOnWire(v)
    {
      OnWire(v);
      var high := AddLow(v);
      high := AddLow(high);
      ghost var mid := high;
      high := AddLow(high);
      high := AddLow(high);
      assert Bytes(v, 4) == [v % 256] + ([v / 256 % 256] + Bytes(mid, 2));
    }

    method AddLong(v: int)
      modifies this
      ensures bytes == old(bytes) + Bytes(v, 8) && bytes == old(bytes) + LongOnWire(v)
    {
      OnWire(v);
      var v1 := AddLow(v);
      var v2 := AddLow(v1);
      var v3 := AddLow(v2);
      var v4 := AddLow(v3);
      ghost var half := bytes;
      assert half == old(bytes) + [v % 256, v1 % 256, v2 % 256, v3 % 256];
      var v5 := AddLow(v4);
      var v6 := AddLow(v5);
      var v7 := AddLow(v6);
      var v8 := AddLow(v7);
      assert bytes == half + [v4 % 256, v5 % 256, v6 % 256, v7 % 256];
      assert Bytes(v4, 4) == [v4 % 256, v5 % 256, v6 % 256, v7 % 256] by {
        assert Bytes(v6, 2) == [v6 % 256, v7 % 256];
      }
      assert Bytes(v2, 6) == [v2 % 256, v3 % 256] + Bytes(v4, 4);
      assert Bytes(v, 8) == [v % 256, v1 % 256] + Bytes(v2, 6);
    }

    method AddText(s: text)
      modifies this
      ensures bytes == old(bytes) + TextBytes(s) && bytes == old(bytes) + (s + [0])
    {
      for i := 0 to |s|
        invariant bytes == old(bytes) + s[..i]
      {
        AddByte(s[i]);
        assert s[..i + 1] == s[..i] + [s[i]];
      }
      AddByte(0);
      assert s[..|s|] == s;
    }

    method WriteAggro(entries: seq<AggroEntry>)
      modifies this
      ensures bytes == old(bytes) + EncodeAggro(entries)
    {
      AddShort(|entries|);
      ghost var start := bytes;
      for i := 0 to |entries|
        invariant bytes + EncodeMany(EncodeAggroEntry, entries[i..]) == start + EncodeMany(EncodeAggroEntry, entries)
      {
        OneMoreWritten(EncodeAggroEntry, entries, i, bytes);
        ghost var before := bytes;
        AddInt(entries[i].id);
        AddInt(entries[i].aggro);
        Regroup(before, Bytes(entries[i].id, 4), Bytes(entries[i].aggro, 4));
      }
      Regroup(old(bytes), Bytes(|entries|, 2), EncodeMany(EncodeAggroEntry, entries));
    }

    method WriteHeader(n: StateNode)
      modifies this
      ensures bytes == old(bytes) + EncodeHeader(n)
    {
      AddInt(n.nodeId);
      AddText(n.condition);
      AddLong(n.lastRun);
      AddByte(n.status);
      AddBool(n.running);
      AddShort(|n.children|);
      Regroup6(old(bytes), Bytes(n.nodeId, 4), TextBytes(n.condition), Bytes(n.lastRun, 8), [n.status],
               [BoolByte(n.running)], Bytes(|n.children|, 2));
    }

    method WriteNode(n: StateNode)
      modifies this
      ensures bytes == old(bytes) + EncodeNode(n)
      decreases n
    {
      WriteHeader(n);
      ghost var start := bytes;
      for i := 0 to |n.children|
        invariant bytes + EncodeChildren(n, i) == start + EncodeChildren(n, 0)
      {
        Regroup(bytes, EncodeNode(n.children[i]), EncodeChildren(n, i + 1));
        WriteNode(n.children[i]);
      }
      assert bytes == start + EncodeChildren(n, 0);
      Regroup(old(bytes), EncodeHeader(n), EncodeChildren(n, 0));
    }

    method WriteAttributes(attributes: seq<Attribute>)
      modifies this
      ensures bytes == old(bytes) + EncodeAttributes(attributes)
    {
      AddShort(|attributes|);
      ghost var start := bytes;
      for i := 0 to |attributes|
        invariant bytes + EncodeMany(EncodeAttribute, attributes[i..]) ==
                  start + EncodeMany(EncodeAttribute, attributes)
      {
        OneMoreWritten(EncodeAttribute, attributes, i, bytes);
        ghost var before := bytes;
        AddText(attributes[i].key);
        AddText(attributes[i].value);
        Regroup(before, TextBytes(attributes[i].key), TextBytes(attributes[i].value));
      }
      Regroup(old(bytes), Bytes(|attributes|, 2), EncodeMany(EncodeAttribute, attributes));
    }

    method WriteWorldState(s: WorldState)
      modifies this
      ensures bytes == old(bytes) + EncodeWorldState(s)
    {
      AddInt(s.id);
      AddInt(s.x);
      AddInt(s.y);
      AddInt(s.z);
      AddInt(s.orientation);
      Regroup5(old(bytes), Bytes(s.id, 4), Bytes(s.x, 4), Bytes(s.y, 4), Bytes(s.z, 4), Bytes(s.orientation, 4));
      assert bytes == old(bytes) + EncodePlace(s);
      WriteAttributes(s.attributes);
      Regroup(old(bytes), EncodePlace(s), EncodeAttributes(s.attributes));
    }

    method WriteStates(states: seq<WorldState>)
      modifies this
      ensures bytes == old(bytes) + EncodeCounted(EncodeWorldState, states)
    {
      AddInt(|states|);
      ghost var start := bytes;
      for i := 0 to |states|
        invariant bytes + EncodeMany(EncodeWorldState, states[i..]) == start + EncodeMany(EncodeWorldState, states)
      {
        OneMoreWritten(EncodeWorldState, states, i, bytes);
        WriteWorldState(states[i]);
      }
      Regroup(old(bytes), Bytes(|states|, 4), EncodeMany(EncodeWorldState, states));
    }

    method WriteNodeStatic(s: NodeStatic)
      modifies this
      ensures bytes == old(bytes) + EncodeNodeStatic(s)
    {
      AddInt(s.id);
      ghost var start := bytes;
      AddText(s.name);
      AddText(s.nodeType);
      AddText(s.parameters);
      AddText(s.conditionType);
      AddText(s.conditionParameters);
      FiveTexts(start, s.name, s.nodeType, s.parameters, s.conditionType, s.conditionParameters);
      Regroup(old(bytes), Bytes(s.id, 4), EncodeMany(TextBytes, Texts(s)));
    }

    method WriteStatics(nodes: seq<NodeStatic>)
      modifies this
      ensures bytes == old(bytes) + EncodeCounted(EncodeNodeStatic, nodes)
    {
      AddInt(|nodes|);
      ghost var start := bytes;
      for i := 0 to |nodes|
        invariant bytes + EncodeMany(EncodeNodeStatic, nodes[i..]) == start + EncodeMany(EncodeNodeStatic, nodes)
      {
        OneMoreWritten(EncodeNodeStatic, nodes, i, bytes);
        WriteNodeStatic(nodes[i]);
      }
      Regroup(old(bytes), Bytes(|nodes|, 4), EncodeMany(EncodeNodeStatic, nodes));
    }

    method WriteNames(names: seq<text>)
      modifies this
      ensures bytes == old(bytes) + EncodeCounted(TextBytes, names)
    {
      AddInt(|names|);
      ghost var start := bytes;
      for i := 0 to |names|
        invariant bytes + EncodeMany(TextBytes, names[i..]) == start + EncodeMany(TextBytes, names)
      {
        OneMoreWritten(TextBytes, names, i, bytes);
        AddText(names[i]);
      }
      Regroup(old(bytes), Bytes(|names|, 4), EncodeMany(TextBytes, names));
    }

    method WriteEdit(id: int32, chrId: int32)
      modifies this
      ensures bytes == old(bytes) + EncodeMany(IntBytes, [id, chrId])
    {
      AddInt(id);
      AddInt(chrId);
      TwoInts(old(bytes), id, chrId);
    }

    method WriteEditTexts(name: text, nodeType: text, condition: text)
      modifies this
      ensures bytes == old(bytes) + EncodeMany(TextBytes, [name, nodeType, condition])
    {
      AddText(name);
      AddText(nodeType);
      AddText(condition);
      ThreeTexts(old(bytes), name, nodeType, condition);
    }

    /** `serialize` of each message class. */
    method Serialize(m: Message)
      modifies this
      ensures bytes == old(bytes) + Encode(m)
    {
      AddByte(ProtocolId(m));
      ghost var start := bytes;
      WriteBody(m);
      Regroup(old(bytes), [ProtocolId(m)], EncodeBody(m));
    }

    method WriteBody(m: Message)
      modifies this
      ensures bytes == old(bytes) + EncodeBody(m)
    {
      match m
      case Ping =>
      case State(states) => WriteStates(states);
      case CharacterStatic(chrId, nodes) =>
        AddInt(chrId);
        WriteStatics(nodes);
        Regroup(old(bytes), Bytes(chrId, 4), EncodeCounted(EncodeNodeStatic, nodes));
      case CharacterDetails(chrId, aggro, root) =>
        AddInt(chrId);
        WriteAggro(aggro);
        WriteNode(root);
        Regroup(old(bytes) + Bytes(chrId, 4), EncodeAggro(aggro), EncodeNode(root));
        Regroup(old(bytes), Bytes(chrId, 4), EncodeAggro(aggro) + EncodeNode(root));
      case Select(chrId) => AddInt(chrId);
      case Pause(pause) => AddBool(pause);
      case Change(name) => AddText(name);
      case Names(names) => WriteNames(names);
      case Reset =>
      case Step(millis) => AddLong(millis);
      case UpdateNode(nodeId, chrId, name, nodeType, condition) =>
        WriteEdit(nodeId, chrId);
        WriteEditTexts(name, nodeType, condition);
        Regroup(old(bytes), EncodeMany(IntBytes, [nodeId, chrId]), EncodeMany(TextBytes, [name, nodeType, condition]));
      case DeleteNode(nodeId, chrId) =>
        WriteEdit(nodeId, chrId);
      case AddNode(nodeId, chrId, name, nodeType, condition) =>
        WriteEdit(nodeId, chrId);
        WriteEditTexts(name, nodeType, condition);
        Regroup(old(bytes), EncodeMany(IntBytes, [nodeId, chrId]), EncodeMany(TextBytes, [name, nodeType, condition]));
    }

    // ---------- reading: None when the stream ends too early ----------

    method TakeByte() returns (r: Option<byte>)
      modifies this
      ensures Took(r, bytes, ReadByte(old(bytes)))
      ensures if old(bytes) == [] then r == None else r == Some(old(bytes)[0]) && bytes == old(bytes)[1..]
    {
      if bytes == [] { return None; }
      r := Some(bytes[0]);
      bytes := bytes[1..];
    }

    method TakeBool() returns (r: Option<bool>)
      modifies this
      ensures Took(r, bytes, ReadBool(old(bytes)))
      ensures if old(bytes) == [] then r == None else r == Some(old(bytes)[0] == 1) && bytes == old(bytes)[1..]
    {
      var b := TakeByte();
      if b == None { return None; }
      return Some(b.value == 1);
    }

    /** The `n` bytes that readShort, readInt and readLong move into their buffer. */
    method TakeBuffer(n: nat) returns (r: Option<seq<byte>>)
      modifies this
      ensures if n <= |old(bytes)| then r == Some(old(bytes)[..n]) && bytes == old(bytes)[n..] else r == None
    {
      var buf: seq<byte> := [];
      for i := 0 to n
        invariant i <= |old(bytes)| && buf == old(bytes)[..i] && bytes == old(bytes)[i..]
      {
        var b := TakeByte();
        if b == None { return None; }
        buf := buf + [b.value];
      }
      return Some(buf);
    }

    method TakeShort() returns (r: Option<int16>)
      modifies this
      ensures Took(r, bytes, ReadShort(old(bytes)))
      ensures if |old(bytes)| < 2 then r == None
              else r.Some? && r.value == ShortValue(old(bytes)[..2]) && bytes == old(bytes)[2..]
    {
      var buf := TakeBuffer(2);
      if buf == None { return None; }
      OffWire(buf.value);
      SignedRange(buf.value);
      Widths();
      return Some(Signed(buf.value, TWO16));
    }

    method TakeInt() returns (r: Option<int32>)
      modifies this
      ensures Took(r, bytes, ReadInt(old(bytes)))
      ensures if |old(bytes)| < 4 then r == None
              else r.Some? && r.value == IntValue(old(bytes)[..4]) && bytes == old(bytes)[4..]
    {
      var buf := TakeBuffer(4);
      if buf == None { return None; }
      OffWire(buf.value);
      SignedRange(buf.value);
      Widths();
      return Some(Signed(buf.value, TWO32));
    }

    method TakeLong() returns (r: Option<int64>)
      modifies this
      ensures Took(r, bytes, ReadLong(old(bytes)))
      ensures if |old(bytes)| < 8 then r == None
              else r.Some? && r.value == LongValue(old(bytes)[..8]) && bytes == old(bytes)[8..]
    {
      var buf := TakeBuffer(8);
      if buf == None { return None; }
      OffWire(buf.value);
      SignedRange(buf.value);
      Widths();
      return Some(Signed(buf.value, TWO64));
    }

    method TakeText() returns (r: Option<text>)
      modifies this
      ensures Took(r, bytes, ReadText(old(bytes)))
      ensures if 0 !in old(bytes) then r == None
              else r.Some? && 0 !in r.value && old(bytes) == r.value + [0] + bytes
    {
      TextUpToNul(bytes);
      var s: text := [];
      TextStart(ReadText(bytes));
      while true
        invariant PrependText(s, ReadText(bytes)) == ReadText(old(bytes))
        decreases |bytes|
      {
        TextStep(s, bytes);
        var chr := TakeByte();
        if chr == None { return None; }
        if chr.value == 0 { break; }
        s := s + [chr.value];
      }
      return Some(s);
    }

    method TakeAggroEntry() returns (r: Option<AggroEntry>)
      modifies this
      ensures Took(r, bytes, DecodeAggroEntry(old(bytes)))
    {
      var id := TakeInt();
      if id == None { return None; }
      var aggro := TakeInt();
      if aggro == None { return None; }
      return Some(AggroEntry(id.value, aggro.value));
    }

    method TakeAggro() returns (r: Option<seq<AggroEntry>>)
      modifies this
      ensures Took(r, bytes, DecodeAggro(old(bytes)))
      ensures |old(bytes)| >= 2 && old(bytes)[1] >= 128 ==> r == Some([]) && bytes == old(bytes)[2..]
    {
      var size := TakeShort();
      if size == None { return None; }
      var n: int := size.value;
      var entries: seq<AggroEntry> := [];
      ghost var left, all := n, DecodeLoop(DecodeAggroEntry, n, bytes, entries);
      var i := 0;
      while i < n
        invariant left == n - i
        invariant DecodeLoop(DecodeAggroEntry, left, bytes, entries) == all
        decreases left
      {
        var e := TakeAggroEntry();
        if e == None { return None; }
        entries := entries + [e.value];
        i, left := i + 1, left - 1;
      }
      return Some(entries);
    }

    method TakeHeader() returns (r: Option<Header>)
      modifies this
      ensures Took(r, bytes, DecodeHeader(old(bytes)))
    {
      var nodeId := TakeInt();
      if nodeId == None { return None; }
      var condition := TakeText();
      if condition == None { return None; }
      var lastRun := TakeLong();
      if lastRun == None { return None; }
      var status := TakeByte();
      if status == None { return None; }
      var running := TakeBool();
      if running == None { return None; }
      var count := TakeShort();
      if count == None { return None; }
      return Some(Header(StateNode(nodeId.value, condition.value, lastRun.value, status.value, running.value, []),
                         count.value));
    }

    /** readNode: the loop index is a uint8_t, the count an int16_t. */
    method TakeNode() returns (r: Option<StateNode>)
      modifies this
      ensures Took(r, bytes, DecodeNode(old(bytes)))
      decreases |bytes|
    {
      var h := TakeHeader();
      if h == None { return None; }
      var count := h.value.count;
      ghost var all := DecodeChildren(0, count, bytes, []);
      var children: seq<StateNode> := [];
      var i: byte := 0;
      while i < count
        invariant |bytes| < |old(bytes)|
        invariant DecodeChildren(i, count, bytes, children) == all
        decreases |bytes|
      {
        var child := TakeNode();
        if child == None { return None; }
        children := children + [child.value];
        i := Increment(i);
      }
      return Some(h.value.node.(children := children));
    }

    method TakeAttribute() returns (r: Option<Attribute>)
      modifies this
      ensures Took(r, bytes, DecodeAttribute(old(bytes)))
    {
      var key := TakeText();
      if key == None { return None; }
      var value := TakeText();
      if value == None { return None; }
      return Some(Attribute(key.value, value.value));
    }

    method TakeAttributes() returns (r: Option<seq<Attribute>>)
      modifies this
      ensures Took(r, bytes, DecodeAttributes(old(bytes)))
      ensures |old(bytes)| >= 2 && old(bytes)[1] >= 128 ==> r == None
    {
      var size := TakeShort();
      if size == None || size.value < 0 { return None; }
      var n: int := size.value;
      var attributes: seq<Attribute> := [];
      ghost var left, all := n, AttributeLoop(n, bytes, attributes);
      var i := 0;
      while i < n
        invariant left == n - i
        invariant AttributeLoop(left, bytes, attributes) == all
        decreases left
      {
        var a := TakeAttribute();
        if a == None { return None; }
        attributes := Insert(attributes, a.value);
        i, left := i + 1, left - 1;
      }
      return Some(attributes);
    }

    method TakePlace() returns (r: Option<WorldState>)
      modifies this
      ensures Took(r, bytes, DecodePlace(old(bytes)))
    {
      var id := TakeInt();
      if id == None { return None; }
      var x := TakeInt();
      if x == None { return None; }
      var y := TakeInt();
      if y == None { return None; }
      var z := TakeInt();
      if z == None { return None; }
      var orientation := TakeInt();
      if orientation == None { return None; }
      FiveInts(old(bytes));
      return Some(WorldState(id.value, x.value, y.value, z.value, orientation.value, []));
    }

    method TakeWorldState() returns (r: Option<WorldState>)
      modifies this
      ensures Took(r, bytes, DecodeWorldState(old(bytes)))
    {
      var s := TakePlace();
      if s == None { return None; }
      var attributes := TakeAttributes();
      if attributes == None { return None; }
      return Some(s.value.(attributes := attributes.value));
    }

    method TakeStates() returns (r: Option<seq<WorldState>>)
      modifies this
      ensures Took(r, bytes, DecodeCounted(DecodeWorldState, old(bytes)))
      ensures |old(bytes)| >= 4 && old(bytes)[3] >= 128 ==> r == Some([]) && bytes == old(bytes)[4..]
    {
      var size := TakeInt();
      if size == None { return None; }
      ghost var all := DecodeMany(DecodeWorldState, size.value, bytes);
      AllPending(size.value, bytes);
      r := TakeStateList(size.value, all);
    }

    method TakeNextState(done: seq<WorldState>, ghost n: int, ghost next: int, ghost all: Option<Got<seq<WorldState>>>)
      returns (ok: bool, states: seq<WorldState>)
      requires n > 0 && next == n - 1 && Pending(n, bytes, done, all)
      modifies this
      ensures if ok then Pending(next, bytes, states, all) else all == None
    {
      var r := TakeWorldState();
      NextState(n, next, old(bytes), done, r, bytes);
      if r == None { return false, done; }
      return true, done + [r.value];
    }

    method TakeStateList(n: int, ghost all: Option<Got<seq<WorldState>>>) returns (r: Option<seq<WorldState>>)
      requires Pending(n, bytes, [], all)
      modifies this
      ensures Took(r, bytes, all)
    {
      var states: seq<WorldState> := [];
      ghost var left := n;
      var i := 0;
      while i < n
        invariant left == n - i && Pending(left, bytes, states, all)
      {
        ghost var next := left - 1;
        var ok;
        ok, states := TakeNextState(states, left, next, all);
        if !ok { return None; }
        i, left := i + 1, next;
      }
      NonePending(left, bytes, states, all);
      return Some(states);
    }

    /** Several ints in a row. */
    method TakeInts(n: nat) returns (r: Option<seq<int32>>)
      modifies this
      ensures Took(r, bytes, DecodeMany(ReadInt, n, old(bytes)))
    {
      ghost var all := DecodeMany(ReadInt, n, bytes);
      var ints: seq<int32> := [];
      for i := 0 to n
        invariant DecodeLoop(ReadInt, n - i, bytes, ints) == all
      {
        var v := TakeInt();
        if v == None { return None; }
        ints := ints + [v.value];
      }
      return Some(ints);
    }

    /** Several strings in a row; also the loop of AINamesMessage. */
    method TakeTexts(n: int) returns (r: Option<seq<text>>)
      modifies this
      ensures Took(r, bytes, DecodeMany(ReadText, n, old(bytes)))
    {
      var texts: seq<text> := [];
      ghost var left, all := n, DecodeLoop(ReadText, n, bytes, texts);
      var i := 0;
      while i < n
        invariant left == n - i
        invariant DecodeLoop(ReadText, left, bytes, texts) == all
        decreases left
      {
        var t := TakeText();
        if t == None { return None; }
        texts := texts + [t.value];
        i, left := i + 1, left - 1;
      }
      return Some(texts);
    }

    method TakeNodeStatic() returns (r: Option<NodeStatic>)
      modifies this
      ensures Took(r, bytes, DecodeNodeStatic(old(bytes)))
    {
      var id := TakeInt();
      if id == None { return None; }
      var t := TakeTexts(5);
      if t == None { return None; }
      return Some(NodeStatic(id.value, t.value[0], t.value[1], t.value[2], t.value[3], t.value[4]));
    }

    method TakeStatics(n: int) returns (r: Option<seq<NodeStatic>>)
      modifies this
      ensures Took(r, bytes, DecodeMany(DecodeNodeStatic, n, old(bytes)))
    {
      var nodes: seq<NodeStatic> := [];
      ghost var left, all := n, DecodeLoop(DecodeNodeStatic, n, bytes, nodes);
      var i := 0;
      while i < n
        invariant left == n - i
        invariant DecodeLoop(DecodeNodeStatic, left, bytes, nodes) == all
        decreases left
      {
        var node := TakeNodeStatic();
        if node == None { return None; }
        nodes := nodes + [node.value];
        i, left := i + 1, left - 1;
      }
      return Some(nodes);
    }

    /** The size is converted to a size_t and reserved, so a negative one ends the read. */
    method TakeStatic() returns (r: Option<Message>)
      modifies this
      ensures Took(r, bytes, DecodeStatic(old(bytes)))
      ensures |old(bytes)| >= 8 && old(bytes)[7] >= 128 ==> r == None
    {
      var chrId := TakeInt();
      if chrId == None { return None; }
      var size := TakeInt();
      if size == None || size.value < 0 { return None; }
      var nodes := TakeStatics(size.value);
      if nodes == None { return None; }
      return Some(CharacterStatic(chrId.value, nodes.value));
    }

    method TakeDetails() returns (r: Option<Message>)
      modifies this
      ensures Took(r, bytes, DecodeDetails(old(bytes)))
    {
      var chrId := TakeInt();
      if chrId == None { return None; }
      var aggro := TakeAggro();
      if aggro == None { return None; }
      var root := TakeNode();
      if root == None { return None; }
      return Some(CharacterDetails(chrId.value, aggro.value, root.value));
    }

    method TakeNames() returns (r: Option<Message>)
      modifies this
      ensures Took(r, bytes, DecodeNames(old(bytes)))
      ensures |old(bytes)| >= 4 && old(bytes)[3] >= 128 ==> r == Some(Names([])) && bytes == old(bytes)[4..]
    {
      var size := TakeInt();
      if size == None { return None; }
      var names := TakeTexts(size.value);
      if names == None { return None; }
      return Some(Names(names.value));
    }

    method TakeEdit(n: nat) returns (r: Option<(int32, int32, seq<text>)>)
      modifies this
      ensures Took(r, bytes, DecodeEdit(n, old(bytes)))
    {
      var v := TakeInts(2);
      if v == None { return None; }
      var t := TakeTexts(n);
      if t == None { return None; }
      return Some((v.value[0], v.value[1], t.value));
    }

    method TakeSmall(id: byte) returns (r: Option<Message>)
      modifies this
      ensures Took(r, bytes, DecodeSmall(id, old(bytes)))
    {
      if id == 4 {
        var chrId := TakeInt();
        return if chrId == None then None else Some(Select(chrId.value));
      } else if id == 5 {
        var pause := TakeBool();
        return if pause == None then None else Some(Pause(pause.value));
      } else if id == 6 {
        var name := TakeText();
        return if name == None then None else Some(Change(name.value));
      } else if id == 9 {
        var millis := TakeLong();
        return if millis == None then None else Some(Step(millis.value));
      } else if id == 0 {
        return Some(Ping);
      } else {
        return Some(Reset);
      }
    }

    method TakeBody(id: byte) returns (r: Option<Message>)
      requires id <= 12
      modifies this
      ensures Took(r, bytes, DecodeBody(id, old(bytes)))
    {
      if id == 1 {
        var states := TakeStates();
        return if states == None then None else Some(State(states.value));
      } else if id == 2 {
        r := TakeStatic();
      } else if id == 3 {
        r := TakeDetails();
      } else if id == 7 {
        r := TakeNames();
      } else if id == 10 || id == 11 || id == 12 {
        r := TakeEditMessage(id);
      } else {
        r := TakeSmall(id);
      }
    }

    method TakeEditMessage(id: byte) returns (r: Option<Message>)
      requires 10 <= id <= 12
      modifies this
      ensures Took(r, bytes, DecodeBody(id, old(bytes)))
    {
      var e := TakeEdit(if id == 11 then 0 else 3);
      if e == None { return None; }
      var (node, chrId, t) := e.value;
      if id == 10 {
        return Some(UpdateNode(node, chrId, t[0], t[1], t[2]));
      } else if id == 11 {
        return Some(DeleteNode(node, chrId));
      } else {
        return Some(AddNode(node, chrId, t[0], t[1], t[2]));
      }
    }
  }

  /** Ints taken one after the other are the ints at their positions. */
  lemma FiveInts(b: seq<byte>)
    requires |b| >= 20
    ensures b[4..][..4] == b[4..8] && b[4..][4..] == b[8..]
    ensures b[8..][..4] == b[8..12] && b[8..][4..] == b[12..]
    ensures b[12..][..4] == b[12..16] && b[12..][4..] == b[16..]
    ensures b[16..][..4] == b[16..20] && b[16..][4..] == b[20..]
    ensures b[0..4] == b[..4]
  {
  }

  function PrependText(done: text, r: Option<Got<text>>): Option<Got<text>> {
    match r
    case None => None
    case Some(Got(s, rest)) => Some(Got(done + s, rest))
  }

  lemma TextStart(r: Option<Got<text>>)
    ensures PrependText([], r) == r
  {
    if r.Some? { assert [] + r.value.value == r.value.value; }
  }

  lemma TextStep(done: text, b: seq<byte>)
    ensures b == [] ==> ReadText(b) == None
    ensures b != [] && b[0] == 0 ==> PrependText(done, ReadText(b)) == Some(Got(done, b[1..]))
    ensures b != [] && b[0] != 0 ==> PrependText(done, ReadText(b)) == PrependText(done + [b[0]], ReadText(b[1..]))
  {
    assert done + [] == done;
    if b != [] && ReadText(b[1..]).Some? {
      var s := ReadText(b[1..]).value.value;
      assert (done + [b[0]]) + s == done + ([b[0]] + s);
    }
  }

  lemma Regroup6(o: seq<byte>, a: seq<byte>, b: seq<byte>, c: seq<byte>, d: seq<byte>, e: seq<byte>, f: seq<byte>)
    ensures (((((o + a) + b) + c) + d) + e) + f == o + (a + (b + (c + (d + (e + f)))))
  {
    Regroup((((o + a) + b) + c) + d, e, f);
    Regroup(((o + a) + b) + c, d, e + f);
    Regroup((o + a) + b, c, d + (e + f));
    Regroup(o + a, b, c + (d + (e + f)));
    Regroup(o, a, b + (c + (d + (e + f))));
  }

  lemma Regroup5(o: seq<byte>, a: seq<byte>, b: seq<byte>, c: seq<byte>, d: seq<byte>, e: seq<byte>)
    ensures ((((o + a) + b) + c) + d) + e == o + (a + (b + (c + (d + e))))
  {
    Regroup(((o + a) + b) + c, d, e);
    Regroup((o + a) + b, c, d + e);
    Regroup(o + a, b, c + (d + e));
    Regroup(o, a, b + (c + (d + e)));
  }

  lemma {:induction false} AppendOne<T>(encode: T -> seq<byte>, xs: seq<T>, x: T, out: seq<byte>)
    ensures (out + EncodeMany(encode, xs)) + encode(x) == out + EncodeMany(encode, xs + [x])
  {
    if xs == [] {
      assert [x][1..] == [];
    } else {
      AppendOne(encode, xs[1..], x, []);
      assert (xs + [x])[1..] == xs[1..] + [x];
      var tail := EncodeMany(encode, xs[1..]);
      assert [] + tail == tail && [] + EncodeMany(encode, xs[1..] + [x]) == EncodeMany(encode, xs[1..] + [x]);
      Regroup(encode(xs[0]), tail, encode(x));
    }
    Regroup(out, EncodeMany(encode, xs), encode(x));
  }

  lemma TwoInts(out: seq<byte>, a: int32, b: int32)
    ensures (out + Bytes(a, 4)) + Bytes(b, 4) == out + EncodeMany(IntBytes, [a, b])
  {
    AppendOne(IntBytes, [], a, out);
    AppendOne(IntBytes, [a], b, out);
    assert [] + [a] == [a] && out + EncodeMany(IntBytes, []) == out && [a] + [b] == [a, b];
  }

  lemma ThreeTexts(out: seq<byte>, a: text, b: text, c: text)
    ensures ((out + TextBytes(a)) + TextBytes(b)) + TextBytes(c) == out + EncodeMany(TextBytes, [a, b, c])
  {
    AppendOne(TextBytes, [], a, out);
    AppendOne(TextBytes, [a], b, out);
    AppendOne(TextBytes, [a, b], c, out);
    assert [] + [a] == [a] && out + EncodeMany(TextBytes, []) == out && [a] + [b] == [a, b]
        && [a, b] + [c] == [a, b, c];
  }

  lemma FiveTexts(out: seq<byte>, a: text, b: text, c: text, d: text, e: text)
    ensures ((((out + TextBytes(a)) + TextBytes(b)) + TextBytes(c)) + TextBytes(d)) + TextBytes(e)
         == out + EncodeMany(TextBytes, [a, b, c, d, e])
  {
    ThreeTexts(out, a, b, c);
    AppendOne(TextBytes, [a, b, c], d, out);
    AppendOne(TextBytes, [a, b, c, d], e, out);
    assert [a, b, c] + [d] == [a, b, c, d] && [a, b, c, d] + [e] == [a, b, c, d, e];
  }
}
