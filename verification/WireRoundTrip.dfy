/** A message comes back from the wire unchanged exactly when it fits, and the bytes behind it are
    left alone. */
module WireRoundTrip {
  import opened Wrappers
  import opened WireBytes
  import opened WireMessages

  /** Decoding the body after `id` gives `m` and leaves `rest`. */
  ghost predicate Comes(m: Message, rest: seq<byte>) {
    DecodeBody(ProtocolId(m), EncodeBody(m) + rest) == Some(Got(m, rest))
  }

  lemma StateComes(m: Message, rest: seq<byte>)
    requires m.State? && Fits(m)
    ensures Comes(m, rest)
  {
    forall s, r | s in m.states ensures DecodeWorldState(EncodeWorldState(s) + r) == Some(Got(s, r)) {
      WorldStateRoundTrip(s, r);
    }
    CountedRoundTrip(EncodeWorldState, DecodeWorldState, m.states, rest);
  }

  lemma StaticComes(m: Message, rest: seq<byte>)
    requires m.CharacterStatic? && Fits(m)
    ensures Comes(m, rest)
  {
    forall n, r | n in m.nodes ensures DecodeNodeStatic(EncodeNodeStatic(n) + r) == Some(Got(n, r)) {
      NodeStaticRoundTrip(n, r);
    }
    var counted := EncodeCounted(EncodeNodeStatic, m.nodes);
    CountedRoundTrip(EncodeNodeStatic, DecodeNodeStatic, m.nodes, rest);
    Regroup(Bytes(m.chrId, 4), counted, rest);
    IntRoundTrip(m.chrId, counted + rest);
  }

  lemma DetailsComes(m: Message, rest: seq<byte>)
    requires m.CharacterDetails? && Fits(m)
    ensures Comes(m, rest)
  {
    var aggro, root := EncodeAggro(m.aggro), EncodeNode(m.root);
    Regroup(Bytes(m.chrId, 4), aggro + root, rest);
    Regroup(aggro, root, rest);
    IntRoundTrip(m.chrId, aggro + (root + rest));
    AggroRoundTrip(m.aggro, root + rest);
    NodeRoundTrip(m.root, rest);
  }

  lemma NamesComes(m: Message, rest: seq<byte>)
    requires m.Names? && Fits(m)
    ensures Comes(m, rest)
  {
    forall t: text, r | t in m.names ensures ReadText(TextBytes(t) + r) == Some(Got(t, r)) {
      assert NoNul(t);
      TextRoundTrip(t, r);
    }
    CountedRoundTrip(TextBytes, ReadText, m.names, rest);
  }

  lemma EditRoundTrip(id: int32, chrId: int32, texts: seq<text>, rest: seq<byte>)
    requires AllNoNul(texts)
    ensures DecodeEdit(|texts|, EncodeEdit(id, chrId, texts) + rest) == Some(Got((id, chrId, texts), rest))
  {
    var ints := [id, chrId];
    Regroup(EncodeMany(IntBytes, ints), EncodeMany(TextBytes, texts), rest);
    IntsRoundTrip(ints, EncodeMany(TextBytes, texts) + rest);
    TextsRoundTrip(texts, rest);
  }

  lemma UpdateComes(id: int32, chrId: int32, name: text, nodeType: text, condition: text, rest: seq<byte>)
    requires AllNoNul([name, nodeType, condition])
    ensures DecodeUpdate(EncodeEdit(id, chrId, [name, nodeType, condition]) + rest)
         == Some(Got(UpdateNode(id, chrId, name, nodeType, condition), rest))
  {
    EditRoundTrip(id, chrId, [name, nodeType, condition], rest);
  }

  lemma AddComes(id: int32, chrId: int32, name: text, nodeType: text, condition: text, rest: seq<byte>)
    requires AllNoNul([name, nodeType, condition])
    ensures DecodeAdd(EncodeEdit(id, chrId, [name, nodeType, condition]) + rest)
         == Some(Got(AddNode(id, chrId, name, nodeType, condition), rest))
  {
    EditRoundTrip(id, chrId, [name, nodeType, condition], rest);
  }

  lemma DeleteComes(id: int32, chrId: int32, rest: seq<byte>)
    ensures DecodeDelete(EncodeEdit(id, chrId, []) + rest) == Some(Got(DeleteNode(id, chrId), rest))
  {
    EditRoundTrip(id, chrId, [], rest);
  }

  lemma EmptyComes(m: Message, rest: seq<byte>)
    requires m.Ping? || m.Reset?
    ensures Comes(m, rest)
  {
    assert EncodeBody(m) + rest == rest;
  }

  lemma PauseComes(pause: bool, rest: seq<byte>)
    ensures Comes(Pause(pause), rest)
  {
    var b := [BoolByte(pause)] + rest;
    assert b[1..] == rest;
  }

  lemma SelectComes(chrId: int32, rest: seq<byte>)
    ensures DecodeSelect(Bytes(chrId, 4) + rest) == Some(Got(Select(chrId), rest))
  {
    IntRoundTrip(chrId, rest);
  }

  lemma ChangeComes(name: text, rest: seq<byte>)
    requires NoNul(name)
    ensures DecodeChange(TextBytes(name) + rest) == Some(Got(Change(name), rest))
  {
    TextRoundTrip(name, rest);
  }

  lemma StepComes(millis: int64, rest: seq<byte>)
    ensures DecodeStep(Bytes(millis, 8) + rest) == Some(Got(Step(millis), rest))
  {
    LongRoundTrip(millis, rest);
  }

  lemma ListComes(m: Message, rest: seq<byte>)
    requires (m.State? || m.CharacterStatic? || m.CharacterDetails? || m.Names?) && Fits(m)
    ensures Comes(m, rest)
  {
    match m {
      case State(_) => StateComes(m, rest);
      case CharacterStatic(_, _) => StaticComes(m, rest);
      case CharacterDetails(_, _, _) => DetailsComes(m, rest);
      case Names(_) => NamesComes(m, rest);
    }
  }

  lemma UpdateBody(m: Message)
    requires m.UpdateNode?
    ensures EncodeBody(m) == EncodeEdit(m.nodeId, m.chrId, [m.name, m.nodeType, m.condition]) && ProtocolId(m) == 10
  {
  }

  lemma UpdateDispatched(b: seq<byte>)
    ensures DecodeBody(10, b) == DecodeUpdate(b)
  {
  }

  lemma UpdateMessage(m: Message, rest: seq<byte>)
    requires m.UpdateNode? && Fits(m)
    ensures Comes(m, rest)
  {
    UpdateBody(m);
    UpdateDispatched(EncodeBody(m) + rest);
    UpdateComes(m.nodeId, m.chrId, m.name, m.nodeType, m.condition, rest);
  }

  lemma AddBody(m: Message)
    requires m.AddNode?
    ensures EncodeBody(m) == EncodeEdit(m.nodeId, m.chrId, [m.name, m.nodeType, m.condition]) && ProtocolId(m) == 12
  {
  }

  lemma AddDispatched(b: seq<byte>)
    ensures DecodeBody(12, b) == DecodeAdd(b)
  {
  }

  lemma AddMessage(m: Message, rest: seq<byte>)
    requires m.AddNode? && Fits(m)
    ensures Comes(m, rest)
  {
    AddBody(m);
    AddDispatched(EncodeBody(m) + rest);
    AddComes(m.nodeId, m.chrId, m.name, m.nodeType, m.condition, rest);
  }

  lemma DeleteMessage(m: Message, rest: seq<byte>)
    requires m.DeleteNode?
    ensures Comes(m, rest)
  {
    DeleteComes(m.nodeId, m.chrId, rest);
  }

  lemma ScalarComes(m: Message, rest: seq<byte>)
    requires (m.Select? || m.Change? || m.Step?) && Fits(m)
    ensures Comes(m, rest)
  {
    match m {
      case Select(chrId) => SelectComes(chrId, rest);
      case Change(name) => ChangeComes(name, rest);
      case Step(millis) => StepComes(millis, rest);
    }
  }

  lemma BodyRoundTrip(m: Message, rest: seq<byte>)
    requires Fits(m)
    ensures Comes(m, rest)
  {
    if m.State? || m.CharacterStatic? || m.CharacterDetails? || m.Names? {
      ListComes(m, rest);
    } else if m.UpdateNode? {
      UpdateMessage(m, rest);
    } else if m.AddNode? {
      AddMessage(m, rest);
    } else if m.DeleteNode? {
      DeleteMessage(m, rest);
    } else if m.Select? || m.Change? || m.Step? {
      ScalarComes(m, rest);
    } else if m.Pause? {
      PauseComes(m.pause, rest);
    } else {
      EmptyComes(m, rest);
    }
  }

  // ---------- every decoded message fits ----------

  lemma BodyDecoded(id: byte, b: seq<byte>)
    requires id <= 12
    ensures DecodeBody(id, b).Some? ==> Fits(DecodeBody(id, b).value.value)
  {
    if id == 1 {
      StateDecoded(b);
    } else if id == 2 {
      StaticDecoded(b);
    } else if id == 3 {
      DetailsDecoded(b);
    } else if id == 7 {
      NamesDecoded(b);
    } else if id == 10 || id == 12 {
      EditDecoded(b);
    }
  }

  lemma StateDecoded(b: seq<byte>)
    ensures DecodeState(b).Some? ==> Fits(DecodeState(b).value.value)
  {
    forall c ensures DecodeWorldState(c).Some? ==> WorldStateFits(DecodeWorldState(c).value.value) {
      var v := DecodePlace(c);
      if v.Some? { AttributesDecoded(v.value.rest); }
    }
    var n := ReadInt(b);
    if n.Some? { ManyDecoded(DecodeWorldState, WorldStateFits, n.value.value, n.value.rest); }
  }

  lemma StaticDecoded(b: seq<byte>)
    ensures DecodeStatic(b).Some? ==> Fits(DecodeStatic(b).value.value)
  {
    forall c ensures DecodeNodeStatic(c).Some? ==> NodeStaticFits(DecodeNodeStatic(c).value.value) {
      NodeStaticDecoded(c);
    }
    var id := ReadInt(b);
    if id.Some? {
      var n := ReadInt(id.value.rest);
      if n.Some? { ManyDecoded(DecodeNodeStatic, NodeStaticFits, n.value.value, n.value.rest); }
    }
  }

  lemma DetailsDecoded(b: seq<byte>)
    ensures DecodeDetails(b).Some? ==> Fits(DecodeDetails(b).value.value)
  {
    var id := ReadInt(b);
    if id.Some? {
      var aggro := DecodeAggro(id.value.rest);
      if aggro.Some? { NodeDecoded(aggro.value.rest); }
    }
  }

  lemma NamesDecoded(b: seq<byte>)
    ensures DecodeNames(b).Some? ==> Fits(DecodeNames(b).value.value)
  {
    var n := ReadInt(b);
    if n.Some? { TextsDecoded(n.value.value, n.value.rest); }
  }

  lemma EditDecoded(b: seq<byte>)
    ensures DecodeEdit(3, b).Some? ==> AllNoNul(DecodeEdit(3, b).value.value.2)
    ensures DecodeUpdate(b).Some? ==> Fits(DecodeUpdate(b).value.value)
    ensures DecodeAdd(b).Some? ==> Fits(DecodeAdd(b).value.value)
  {
    var v := DecodeMany(ReadInt, 2, b);
    if v.Some? {
      TextsDecoded(3, v.value.rest);
      var e := DecodeEdit(3, b);
      if e.Some? {
        var t := e.value.value.2;
        assert t == [t[0], t[1], t[2]];
      }
    }
  }

  // ---------- the main results ----------

  lemma DecodedFits(b: seq<byte>)
    ensures Decode(b).Received? ==> Fits(Decode(b).message)
  {
    if b != [] && b[0] <= 12 { BodyDecoded(b[0], b[1..]); }
  }

  /** Decoding what was serialized gives the message back and leaves the following bytes untouched,
      for exactly the messages that fit. */
  lemma RoundTrip(m: Message, rest: seq<byte>)
    ensures Decode(Encode(m) + rest) == Received(m, rest) <==> Fits(m)
  {
    if Fits(m) { FitComes(m, rest); } else { DecodedFits(Encode(m) + rest); }
  }

  lemma FitComes(m: Message, rest: seq<byte>)
    requires Fits(m)
    ensures Decode(Encode(m) + rest) == Received(m, rest)
  {
    var b := Encode(m) + rest;
    assert b[0] == ProtocolId(m) && b[1..] == EncodeBody(m) + rest;
    BodyRoundTrip(m, rest);
  }

  /** Serialized messages that fit can be told apart, even with other bytes behind them. */
  lemma EncodeInjective(m: Message, n: Message, r: seq<byte>, t: seq<byte>)
    requires Fits(m) && Fits(n) && Encode(m) + r == Encode(n) + t
    ensures m == n && r == t
  {
    RoundTrip(m, r);
    RoundTrip(n, t);
  }
}
