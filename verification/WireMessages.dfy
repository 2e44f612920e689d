/** The messages between the AI server and the debugger (IProtocolMessage.h and the AI*Message.h
    files): what is written, what is read back, and when the two agree. */
module WireMessages {
  import opened Wrappers
  import opened WireBytes

  // ---------- lists ----------

  function EncodeMany<T>(encode: T -> seq<byte>, xs: seq<T>): seq<byte> {
    if xs == [] then [] else encode(xs[0]) + EncodeMany(encode, xs[1..])
  }

  /** The loop `for (i = 0; i < n; ++i)` that appends `n` elements to `done`, none for a negative
      count. */
  function DecodeLoop<T>(decode: seq<byte> -> Option<Got<T>>, n: int, b: seq<byte>,
      done: seq<T>): (r: Option<Got<seq<T>>>)
    ensures r.Some? ==> |r.value.value| == |done| + if n < 0 then 0 else n
    decreases n
  {
    if n <= 0 then Some(Got(done, b))
    else
      match decode(b)
      case None => None
      case Some(Got(x, rest)) => DecodeLoop(decode, n - 1, rest, done + [x])
  }

  function DecodeMany<T>(decode: seq<byte> -> Option<Got<T>>, n: int, b: seq<byte>): (r: Option<Got<seq<T>>>)
    ensures r.Some? ==> |r.value.value| == if n < 0 then 0 else n
  {
    DecodeLoop(decode, n, b, [])
  }

  lemma Regroup(a: seq<byte>, b: seq<byte>, c: seq<byte>)
    ensures (a + b) + c == a + (b + c)
  {
  }

  lemma {:induction false} LoopRoundTrip<T>(encode: T -> seq<byte>, decode: seq<byte> -> Option<Got<T>>,
                                            xs: seq<T>, rest: seq<byte>, done: seq<T>)
    requires forall x, r :: x in xs ==> decode(encode(x) + r) == Some(Got(x, r))
    ensures DecodeLoop(decode, |xs|, EncodeMany(encode, xs) + rest, done) == Some(Got(done + xs, rest))
    decreases xs
  {
    if xs == [] {
      assert EncodeMany(encode, xs) + rest == rest && done + xs == done;
    } else {
      LoopRoundTrip(encode, decode, xs[1..], rest, done + [xs[0]]);
      var tail := EncodeMany(encode, xs[1..]);
      Regroup(encode(xs[0]), tail, rest);
      assert decode(encode(xs[0]) + (tail + rest)) == Some(Got(xs[0], tail + rest));
      assert (done + [xs[0]]) + xs[1..] == done + xs;
    }
  }

  lemma ManyRoundTrip<T>(encode: T -> seq<byte>, decode: seq<byte> -> Option<Got<T>>, xs: seq<T>, rest: seq<byte>)
    requires forall x, r :: x in xs ==> decode(encode(x) + r) == Some(Got(x, r))
    ensures DecodeMany(decode, |xs|, EncodeMany(encode, xs) + rest) == Some(Got(xs, rest))
  {
    LoopRoundTrip(encode, decode, xs, rest, []);
    assert [] + xs == xs;
  }

  /** Every decoded element has what decoding one element guarantees. */
  lemma {:induction false} LoopDecoded<T>(decode: seq<byte> -> Option<Got<T>>, fits: T -> bool, n: int, b: seq<byte>,
                                          done: seq<T>)
    requires forall c :: decode(c).Some? ==> fits(decode(c).value.value)
    requires forall x :: x in done ==> fits(x)
    ensures var r := DecodeLoop(decode, n, b, done); r.Some? ==> forall x :: x in r.value.value ==> fits(x)
    decreases n
  {
    if n > 0 && decode(b).Some? {
      LoopDecoded(decode, fits, n - 1, decode(b).value.rest, done + [decode(b).value.value]);
    }
  }

  lemma ManyDecoded<T>(decode: seq<byte> -> Option<Got<T>>, fits: T -> bool, n: int, b: seq<byte>)
    requires forall c :: decode(c).Some? ==> fits(decode(c).value.value)
    ensures DecodeMany(decode, n, b).Some? ==> forall x :: x in DecodeMany(decode, n, b).value.value ==> fits(x)
  {
    LoopDecoded(decode, fits, n, b, []);
  }

  // ---------- aggro list and behaviour tree of one character ----------

  datatype AggroEntry = AggroEntry(id: int32, aggro: float32)

  datatype StateNode = StateNode(nodeId: int32, condition: text, lastRun: int64, status: byte, running: bool,
                                 children: seq<StateNode>)

  function EncodeAggroEntry(e: AggroEntry): seq<byte> {
    Bytes(e.id, 4) + Bytes(e.aggro, 4)
  }

  function DecodeAggroEntry(b: seq<byte>): Option<Got<AggroEntry>> {
    match ReadInt(b)
    case None => None
    case Some(Got(id, r)) =>
      match ReadInt(r)
      case None => None
      case Some(Got(aggro, rest)) => Some(Got(AggroEntry(id, aggro), rest))
  }

  /** writeAggro: the number of entries is cut to 16 bits. */
  function EncodeAggro(entries: seq<AggroEntry>): seq<byte> {
    Bytes(|entries|, 2) + EncodeMany(EncodeAggroEntry, entries)
  }

  function DecodeAggro(b: seq<byte>): Option<Got<seq<AggroEntry>>> {
    match ReadShort(b)
    case None => None
    case Some(Got(size, r)) => DecodeMany(DecodeAggroEntry, size, r)
  }

  /** The fields of a node before its children. */
  function EncodeHeader(n: StateNode): seq<byte> {
    Bytes(n.nodeId, 4) + (TextBytes(n.condition) + (Bytes(n.lastRun, 8) + ([n.status] + ([BoolByte(n.running)]
    + Bytes(|n.children|, 2)))))
  }

  function EncodeNode(n: StateNode): seq<byte>
    decreases n, 1
  {
    EncodeHeader(n) + EncodeChildren(n, 0)
  }

  function EncodeChildren(n: StateNode, i: nat): seq<byte>
    requires i <= |n.children|
    decreases n, 0, |n.children| - i
  {
    if i == |n.children| then [] else EncodeNode(n.children[i]) + EncodeChildren(n, i + 1)
  }

  /** A node without its children, and how many are announced. */
  datatype Header = Header(node: StateNode, count: int16)

  function DecodeHeader(b: seq<byte>): (r: Option<Got<Header>>)
    ensures r.Some? ==> |r.value.rest| < |b|
    ensures r.Some? ==> 0 !in r.value.value.node.condition && r.value.value.node.children == []
  {
    match ReadInt(b)
    case None => None
    case Some(Got(nodeId, r1)) =>
      match ReadText(r1)
      case None => None
      case Some(Got(condition, r2)) =>
        match ReadLong(r2)
        case None => None
        case Some(Got(lastRun, r3)) =>
          match ReadByte(r3)
          case None => None
          case Some(Got(status, r4)) =>
            match ReadBool(r4)
            case None => None
            case Some(Got(running, r5)) =>
              match ReadShort(r5)
              case None => None
              case Some(Got(count, rest)) =>
                Some(Got(Header(StateNode(nodeId, condition, lastRun, status, running, []), count), rest))
  }

  function DecodeNode(b: seq<byte>): (r: Option<Got<StateNode>>)
    ensures r.Some? ==> |r.value.rest| < |b|
    decreases |b|, 0
  {
    match DecodeHeader(b)
    case None => None
    case Some(Got(h, r)) =>
      match DecodeChildren(0, h.count, r, [])
      case None => None
      case Some(Got(children, rest)) => Some(Got(h.node.(children := children), rest))
  }

  /** `++i` on an 8-bit index. */
  function Increment(i: byte): byte {
    if i == 0xFF then 0 else i + 1
  }

  /** The loop over the children: its index has 8 bits and wraps, so with a count above 255 it only
      ends by running off the end of the stream. */
  function DecodeChildren(i: byte, count: int16, b: seq<byte>, done: seq<StateNode>): (r: Option<Got<seq<StateNode>>>)
    ensures r.Some? ==> |r.value.rest| <= |b|
    decreases |b|, 1
  {
    if i >= count then Some(Got(done, b))
    else
      match DecodeNode(b)
      case None => None
      case Some(Got(child, rest)) => DecodeChildren(Increment(i), count, rest, done + [child])
  }

  /** At most 255 children everywhere, and no NUL in a condition. */
  predicate NodeFits(n: StateNode) {
    0 !in n.condition && |n.children| <= 0xFF && forall i :: 0 <= i < |n.children| ==> NodeFits(n.children[i])
  }

  lemma HeaderRegroup(a: seq<byte>, b: seq<byte>, c: seq<byte>, d: seq<byte>, e: seq<byte>, f: seq<byte>,
      rest: seq<byte>)
    ensures (a + (b + (c + (d + (e + f))))) + rest == a + (b + (c + (d + (e + (f + rest)))))
  {
    Regroup(e, f, rest);
    Regroup(d, e + f, rest);
    Regroup(c, d + (e + f), rest);
    Regroup(b, c + (d + (e + f)), rest);
    Regroup(a, b + (c + (d + (e + f))), rest);
  }

  lemma HeaderRoundTrip(n: StateNode, rest: seq<byte>)
    requires 0 !in n.condition && |n.children| < 0x8000
    ensures DecodeHeader(EncodeHeader(n) + rest) == Some(Got(Header(n.(children := []), |n.children|), rest))
  {
    var r5 := Bytes(|n.children|, 2) + rest;
    var r4 := [BoolByte(n.running)] + r5;
    var r3 := [n.status] + r4;
    var r2 := Bytes(n.lastRun, 8) + r3;
    var r1 := TextBytes(n.condition) + r2;
    HeaderRegroup(Bytes(n.nodeId, 4), TextBytes(n.condition), Bytes(n.lastRun, 8), [n.status],
                  [BoolByte(n.running)], Bytes(|n.children|, 2), rest);
    IntRoundTrip(n.nodeId, r1);
    TextRoundTrip(n.condition, r2);
    LongRoundTrip(n.lastRun, r3);
    assert r3[1..] == r4 && r4[1..] == r5;
    ShortRoundTrip(|n.children|, rest);
  }

  lemma {:induction false} NodeRoundTrip(n: StateNode, rest: seq<byte>)
    requires NodeFits(n)
    ensures DecodeNode(EncodeNode(n) + rest) == Some(Got(n, rest))
    decreases n, 1
  {
    Regroup(EncodeHeader(n), EncodeChildren(n, 0), rest);
    HeaderRoundTrip(n, EncodeChildren(n, 0) + rest);
    ChildrenRoundTrip(n, 0, rest);
    assert n.children[..0] == [];
  }

  lemma {:induction false} ChildrenRoundTrip(n: StateNode, i: nat, rest: seq<byte>)
    requires NodeFits(n) && i <= |n.children|
    ensures DecodeChildren(i, |n.children|, EncodeChildren(n, i) + rest, n.children[..i]) == Some(Got(n.children, rest))
    decreases n, 0, |n.children| - i
  {
    if i == |n.children| {
      assert EncodeChildren(n, i) + rest == rest && n.children[..i] == n.children;
    } else {
      var c, tail := n.children[i], EncodeChildren(n, i + 1);
      Regroup(EncodeNode(c), tail, rest);
      NodeRoundTrip(c, tail + rest);
      ChildrenRoundTrip(n, i + 1, rest);
      OneMoreChild(i, |n.children|, EncodeChildren(n, i) + rest, n.children[..i], c, tail + rest);
      TakeOneMore(n.children, i);
    }
  }

  lemma TakeOneMore<T>(xs: seq<T>, i: nat)
    requires i < |xs|
    ensures xs[..i + 1] == xs[..i] + [xs[i]]
  {
  }

  lemma OneMoreChild(i: byte, count: int16, b: seq<byte>, done: seq<StateNode>, child: StateNode, r: seq<byte>)
    requires i < count && DecodeNode(b) == Some(Got(child, r))
    ensures DecodeChildren(i, count, b, done) == DecodeChildren(Increment(i), count, r, done + [child])
  {
  }

  predicate NodesFit(ns: seq<StateNode>) {
    forall j :: 0 <= j < |ns| ==> NodeFits(ns[j])
  }

  /** A decoded node fits: in particular no count above 255 is ever decoded. */
  lemma {:induction false} NodeDecoded(b: seq<byte>)
    ensures DecodeNode(b).Some? ==> NodeFits(DecodeNode(b).value.value)
    decreases |b|, 0
  {
    var h := DecodeHeader(b);
    if h.Some? {
      ChildrenDecoded(0, h.value.value.count, h.value.rest, []);
    }
  }

  lemma OneMoreFits(done: seq<StateNode>, child: StateNode)
    requires NodesFit(done) && NodeFits(child)
    ensures NodesFit(done + [child])
  {
  }

  lemma {:induction false} ChildrenDecoded(i: byte, count: int16, b: seq<byte>, done: seq<StateNode>)
    requires |done| == i && NodesFit(done)
    ensures var r := DecodeChildren(i, count, b, done); r.Some? ==> |r.value.value| <= 0xFF && NodesFit(r.value.value)
    decreases |b|, 1
  {
    if count > 0xFF {
      EndlessLoop(i, count, b, done);
    } else if i < count && DecodeNode(b).Some? {
      NodeDecoded(b);
      var child := DecodeNode(b).value;
      OneMoreChild(i, count, b, done, child.value, child.rest);
      OneMoreFits(done, child.value);
      ChildrenDecoded(i + 1, count, child.rest, done + [child.value]);
    }
  }

  /** With a count above 255 the loop over the children never ends well. */
  lemma {:induction false} EndlessLoop(i: byte, count: int16, b: seq<byte>, done: seq<StateNode>)
    requires count > 0xFF
    ensures DecodeChildren(i, count, b, done) == None
    decreases |b|
  {
    if DecodeNode(b).Some? {
      EndlessLoop(Increment(i), count, DecodeNode(b).value.rest, done + [DecodeNode(b).value.value]);
    }
  }

  lemma AggroRoundTrip(entries: seq<AggroEntry>, rest: seq<byte>)
    ensures DecodeAggro(EncodeAggro(entries) + rest) == Some(Got(entries, rest)) <==> |entries| < 0x8000
  {
    var many := EncodeMany(EncodeAggroEntry, entries);
    Regroup(Bytes(|entries|, 2), many, rest);
    ShortRoundTrip(|entries|, many + rest);
    if |entries| < 0x8000 {
      forall e: AggroEntry, r ensures DecodeAggroEntry(EncodeAggroEntry(e) + r) == Some(Got(e, r)) {
        Regroup(Bytes(e.id, 4), Bytes(e.aggro, 4), r);
        IntRoundTrip(e.id, Bytes(e.aggro, 4) + r);
        IntRoundTrip(e.aggro, r);
      }
      ManyRoundTrip(EncodeAggroEntry, DecodeAggroEntry, entries, rest);
    }
  }

  // ---------- state of the world ----------

  datatype Attribute = Attribute(key: text, value: text)

  /** A character's attributes, in the order in which the map enumerates them. */
  datatype WorldState = WorldState(id: int32, x: float32, y: float32, z: float32, orientation: float32,
                                   attributes: seq<Attribute>)

  predicate HasKey(attributes: seq<Attribute>, key: text) {
    exists a :: a in attributes && a.key == key
  }

  predicate DistinctKeys(attributes: seq<Attribute>) {
    forall i, j :: 0 <= i < j < |attributes| ==> attributes[i].key != attributes[j].key
  }

  /** Inserting under a key that is taken does nothing. */
  function Insert(attributes: seq<Attribute>, a: Attribute): seq<Attribute> {
    if HasKey(attributes, a.key) then attributes else attributes + [a]
  }

  predicate AllFit(attributes: seq<Attribute>) {
    forall a :: a in attributes ==> AttributeFits(a)
  }

  lemma InsertFits(attributes: seq<Attribute>, a: Attribute)
    requires DistinctKeys(attributes) && AllFit(attributes) && AttributeFits(a)
    ensures DistinctKeys(Insert(attributes, a)) && AllFit(Insert(attributes, a))
    ensures |Insert(attributes, a)| <= |attributes| + 1
  {
    if !HasKey(attributes, a.key) {
      forall i | 0 <= i < |attributes| ensures attributes[i].key != a.key {
        assert attributes[i] in attributes;
      }
    }
  }

  function EncodeAttribute(a: Attribute): seq<byte> {
    TextBytes(a.key) + TextBytes(a.value)
  }

  function DecodeAttribute(b: seq<byte>): (r: Option<Got<Attribute>>)
    ensures r.Some? ==> AttributeFits(r.value.value)
  {
    match ReadText(b)
    case None => None
    case Some(Got(key, r)) =>
      match ReadText(r)
      case None => None
      case Some(Got(value, rest)) => Some(Got(Attribute(key, value), rest))
  }

  predicate AttributeFits(a: Attribute) {
    0 !in a.key && 0 !in a.value
  }

  function EncodeAttributes(attributes: seq<Attribute>): seq<byte> {
    Bytes(|attributes|, 2) + EncodeMany(EncodeAttribute, attributes)
  }

  /** The loop of readAttributes. */
  function AttributeLoop(n: int, b: seq<byte>, done: seq<Attribute>): (r: Option<Got<seq<Attribute>>>)
    decreases n
  {
    if n <= 0 then Some(Got(done, b))
    else
      match DecodeAttribute(b)
      case None => None
      case Some(Got(a, rest)) => AttributeLoop(n - 1, rest, Insert(done, a))
  }

  /** readAttributes: a negative size cannot be reserved. */
  function DecodeAttributes(b: seq<byte>): Option<Got<seq<Attribute>>> {
    match ReadShort(b)
    case None => None
    case Some(Got(size, r)) =>
      if size < 0 then None else AttributeLoop(size, r, [])
  }

  predicate AttributesFit(attributes: seq<Attribute>) {
    |attributes| < 0x8000 && DistinctKeys(attributes) && AllFit(attributes)
  }

  lemma AttributeRoundTrip(a: Attribute, rest: seq<byte>)
    requires AttributeFits(a)
    ensures DecodeAttribute(EncodeAttribute(a) + rest) == Some(Got(a, rest))
  {
    Regroup(TextBytes(a.key), TextBytes(a.value), rest);
    TextRoundTrip(a.key, TextBytes(a.value) + rest);
    TextRoundTrip(a.value, rest);
  }

  lemma {:induction false} AttributeLoopRoundTrip(attributes: seq<Attribute>, i: nat, rest: seq<byte>)
    requires AttributesFit(attributes) && i <= |attributes|
    ensures AttributeLoop(|attributes| - i, EncodeMany(EncodeAttribute, attributes[i..]) + rest, attributes[..i])
         == Some(Got(attributes, rest))
    decreases |attributes| - i
  {
    if i == |attributes| {
      assert attributes[i..] == [] && attributes[..i] == attributes;
      assert EncodeMany(EncodeAttribute, []) + rest == rest;
    } else {
      var a, tail := attributes[i], EncodeMany(EncodeAttribute, attributes[i + 1..]);
      assert attributes[i..][1..] == attributes[i + 1..];
      Regroup(EncodeAttribute(a), tail, rest);
      AttributeRoundTrip(a, tail + rest);
      TakeOneMore(attributes, i);
      assert !HasKey(attributes[..i], a.key);
      AttributeLoopRoundTrip(attributes, i + 1, rest);
    }
  }

  lemma AttributesRoundTrip(attributes: seq<Attribute>, rest: seq<byte>)
    requires AttributesFit(attributes)
    ensures DecodeAttributes(EncodeAttributes(attributes) + rest) == Some(Got(attributes, rest))
  {
    var many := EncodeMany(EncodeAttribute, attributes);
    Regroup(Bytes(|attributes|, 2), many, rest);
    ShortRoundTrip(|attributes|, many + rest);
    AttributeLoopRoundTrip(attributes, 0, rest);
    assert attributes[0..] == attributes && attributes[..0] == [];
  }

  lemma NextAttribute(n: int, b: seq<byte>, done: seq<Attribute>)
    requires n > 0 && DecodeAttribute(b).Some?
    ensures var a := DecodeAttribute(b).value;
      AttributeLoop(n, b, done) == AttributeLoop(n - 1, a.rest, Insert(done, a.value))
  {
  }

  lemma {:induction false} AttributeLoopDecoded(n: int, b: seq<byte>, done: seq<Attribute>)
    requires DistinctKeys(done) && AllFit(done)
    requires n >= 0 && |done| + n < 0x8000
    ensures var r := AttributeLoop(n, b, done); r.Some? ==> AttributesFit(r.value.value)
    decreases n
  {
    if n > 0 && DecodeAttribute(b).Some? {
      var a := DecodeAttribute(b).value;
      InsertFits(done, a.value);
      AttributeLoopDecoded(n - 1, a.rest, Insert(done, a.value));
      NextAttribute(n, b, done);
    }
  }

  lemma AttributesDecoded(b: seq<byte>)
    ensures DecodeAttributes(b).Some? ==> AttributesFit(DecodeAttributes(b).value.value)
  {
    var n := ReadShort(b);
    if n.Some? && n.value.value >= 0 {
      AttributeLoopDecoded(n.value.value, n.value.rest, []);
    }
  }

  /** `a` is the first of the attributes read under its key. */
  ghost predicate CameFirst(read: seq<Attribute>, a: Attribute) {
    exists i :: 0 <= i < |read| && read[i] == a && forall j :: 0 <= j < i ==> read[j].key != a.key
  }

  ghost function FirstOnes(read: seq<Attribute>): set<Attribute> {
    set a | a in read && CameFirst(read, a)
  }

  function Members(done: seq<Attribute>): set<Attribute> {
    set a | a in done
  }

  /** `done` holds exactly the attributes that came first under their keys. */
  ghost predicate KeepsFirst(read: seq<Attribute>, done: seq<Attribute>) {
    Members(done) == FirstOnes(read)
  }

  lemma Kept(read: seq<Attribute>, done: seq<Attribute>, a: Attribute)
    ensures CameFirst(read, a) ==> a in read
    ensures KeepsFirst(read, done) ==> (a in done <==> CameFirst(read, a))
  {
    assert a in done <==> a in Members(done);
    assert a in FirstOnes(read) <==> CameFirst(read, a);
  }

  /** Under every key that was read some attribute came first. */
  lemma {:induction false} FirstRead(read: seq<Attribute>, i: nat) returns (a: Attribute)
    requires i < |read|
    ensures CameFirst(read, a) && a.key == read[i].key
    decreases i
  {
    a := read[i];
    if k :| 0 <= k < i && read[k].key == read[i].key {
      a := FirstRead(read, k);
    }
  }

  lemma CameFirstMore(read: seq<Attribute>, c: Attribute, a: Attribute)
    ensures CameFirst(read + [c], a) <==>
            CameFirst(read, a) || (a == c && forall j :: 0 <= j < |read| ==> read[j].key != c.key)
  {
    var more := read + [c];
    if i :| 0 <= i < |read| && read[i] == a && forall j :: 0 <= j < i ==> read[j].key != a.key {
      assert more[i] == a && forall j :: 0 <= j < i ==> more[j].key != a.key;
    }
    if i :| 0 <= i < |more| && more[i] == a && forall j :: 0 <= j < i ==> more[j].key != a.key {
      assert forall j :: 0 <= j < i ==> read[j] == more[j];
      if i < |read| { assert read[i] == a; }
    }
    if a == c && forall j :: 0 <= j < |read| ==> read[j].key != c.key { assert more[|read|] == a; }
  }

  /** The loop of readAttributes: of the pairs read so far, one more included, `done` holds those that came
      first under their keys. */
  lemma InsertKeepsFirst(read: seq<Attribute>, done: seq<Attribute>, c: Attribute)
    requires KeepsFirst(read, done)
    ensures KeepsFirst(read + [c], Insert(done, c))
  {
    if HasKey(done, c.key) {
      var b :| b in done && b.key == c.key;
      Kept(read, done, b);
      assert exists j :: 0 <= j < |read| && read[j].key == c.key;
    } else {
      forall j | 0 <= j < |read| ensures read[j].key != c.key {
        var b := FirstRead(read, j);
        Kept(read, done, b);
      }
    }
    forall a: Attribute ensures a in Members(Insert(done, c)) <==> a in FirstOnes(read + [c]) {
      CameFirstMore(read, c, a);
      Kept(read, done, a);
      Kept(read + [c], done, a);
    }
  }

  function IntBytes(v: int32): seq<byte> {
    Bytes(v, 4)
  }

  /** Id, position and orientation. */
  function EncodePlace(s: WorldState): seq<byte> {
    Bytes(s.id, 4) + (Bytes(s.x, 4) + (Bytes(s.y, 4) + (Bytes(s.z, 4) + Bytes(s.orientation, 4))))
  }

  function EncodeWorldState(s: WorldState): seq<byte> {
    EncodePlace(s) + EncodeAttributes(s.attributes)
  }

  /** The int at position `i`. */
  function IntAt(b: seq<byte>, i: nat): int32
    requires i + 4 <= |b|
  {
    SignedRange(b[i..i + 4]); Widths();
    Signed(b[i..i + 4], TWO32)
  }

  /** A state without its attributes: five ints in a row. */
  function DecodePlace(b: seq<byte>): Option<Got<WorldState>> {
    if |b| < 20 then None
    else Some(Got(WorldState(IntAt(b, 0), IntAt(b, 4), IntAt(b, 8), IntAt(b, 12), IntAt(b, 16), []), b[20..]))
  }

  function DecodeWorldState(b: seq<byte>): (r: Option<Got<WorldState>>) {
    match DecodePlace(b)
    case None => None
    case Some(Got(s, r)) =>
      match DecodeAttributes(r)
      case None => None
      case Some(Got(attributes, rest)) => Some(Got(s.(attributes := attributes), rest))
  }

  predicate WorldStateFits(s: WorldState) {
    AttributesFit(s.attributes)
  }

  /** An int written after `pre`. */
  lemma IntAtRoundTrip(pre: seq<byte>, v: int32, post: seq<byte>)
    ensures |pre + (Bytes(v, 4) + post)| >= |pre| + 4
    ensures IntAt(pre + (Bytes(v, 4) + post), |pre|) == v
  {
    var b := pre + (Bytes(v, 4) + post);
    assert b[|pre|..|pre| + 4] == Bytes(v, 4);
    SignedBytes(v, 4);
    Widths();
  }

  lemma PlaceRegroup(a: seq<byte>, b: seq<byte>, c: seq<byte>, d: seq<byte>, e: seq<byte>, rest: seq<byte>)
    ensures (a + (b + (c + (d + e)))) + rest == a + (b + (c + (d + (e + rest))))
    ensures a + (b + (c + (d + (e + rest)))) == (((a + b) + c) + d) + (e + rest)
    ensures a + (b + (c + (d + (e + rest)))) == ((a + b) + c) + (d + (e + rest))
    ensures a + (b + (c + (d + (e + rest)))) == (a + b) + (c + (d + (e + rest)))
  {
    Regroup(d, e, rest);
    Regroup(c, d + e, rest);
    Regroup(b, c + (d + e), rest);
    Regroup(a, b + (c + (d + e)), rest);
    Regroup(a, b, c + (d + (e + rest)));
    Regroup(a + b, c, d + (e + rest));
    Regroup((a + b) + c, d, e + rest);
  }

  lemma PlaceRoundTrip(s: WorldState, rest: seq<byte>)
    ensures DecodePlace(EncodePlace(s) + rest) == Some(Got(s.(attributes := []), rest))
  {
    var a, b, c, d, e := Bytes(s.id, 4), Bytes(s.x, 4), Bytes(s.y, 4), Bytes(s.z, 4), Bytes(s.orientation, 4);
    PlaceRegroup(a, b, c, d, e, rest);
    var tail := b + (c + (d + (e + rest)));
    assert [] + (a + tail) == a + tail;
    IntAtRoundTrip([], s.id, tail);
    IntAtRoundTrip(a, s.x, c + (d + (e + rest)));
    IntAtRoundTrip(a + b, s.y, d + (e + rest));
    IntAtRoundTrip((a + b) + c, s.z, e + rest);
    IntAtRoundTrip(((a + b) + c) + d, s.orientation, rest);
    LastPart(((a + b) + c) + d, e, rest);
  }

  lemma LastPart(a: seq<byte>, b: seq<byte>, rest: seq<byte>)
    ensures (a + (b + rest))[|a| + |b|..] == rest
  {
  }

  lemma WorldStateRoundTrip(s: WorldState, rest: seq<byte>)
    requires WorldStateFits(s)
    ensures DecodeWorldState(EncodeWorldState(s) + rest) == Some(Got(s, rest))
  {
    Regroup(EncodePlace(s), EncodeAttributes(s.attributes), rest);
    PlaceRoundTrip(s, EncodeAttributes(s.attributes) + rest);
    AttributesRoundTrip(s.attributes, rest);
  }

  lemma IntsRoundTrip(ints: seq<int32>, rest: seq<byte>)
    ensures DecodeMany(ReadInt, |ints|, EncodeMany(IntBytes, ints) + rest) == Some(Got(ints, rest))
  {
    forall v: int32, r ensures ReadInt(IntBytes(v) + r) == Some(Got(v, r)) {
      IntRoundTrip(v, r);
    }
    ManyRoundTrip(IntBytes, ReadInt, ints, rest);
  }

  // ---------- static node data ----------

  datatype NodeStatic = NodeStatic(id: int32, name: text, nodeType: text, parameters: text, conditionType: text,
                                   conditionParameters: text)

  function Texts(s: NodeStatic): seq<text> {
    [s.name, s.nodeType, s.parameters, s.conditionType, s.conditionParameters]
  }

  function EncodeNodeStatic(s: NodeStatic): seq<byte> {
    Bytes(s.id, 4) + EncodeMany(TextBytes, Texts(s))
  }

  function DecodeNodeStatic(b: seq<byte>): (r: Option<Got<NodeStatic>>) {
    match ReadInt(b)
    case None => None
    case Some(Got(id, r)) =>
      match DecodeMany(ReadText, 5, r)
      case None => None
      case Some(Got(t, rest)) => Some(Got(NodeStatic(id, t[0], t[1], t[2], t[3], t[4]), rest))
  }

  predicate NoNul(t: text) {
    0 !in t
  }

  predicate AllNoNul(ts: seq<text>) {
    forall t :: t in ts ==> NoNul(t)
  }

  predicate NodeStaticFits(s: NodeStatic) {
    AllNoNul(Texts(s))
  }

  lemma TextsRoundTrip(ts: seq<text>, rest: seq<byte>)
    requires AllNoNul(ts)
    ensures DecodeMany(ReadText, |ts|, EncodeMany(TextBytes, ts) + rest) == Some(Got(ts, rest))
  {
    forall t: text, r | t in ts ensures ReadText(TextBytes(t) + r) == Some(Got(t, r)) {
      TextRoundTrip(t, r);
    }
    ManyRoundTrip(TextBytes, ReadText, ts, rest);
  }

  lemma TextsDecoded(n: int, b: seq<byte>)
    ensures DecodeMany(ReadText, n, b).Some? ==> AllNoNul(DecodeMany(ReadText, n, b).value.value)
  {
    ManyDecoded(ReadText, NoNul, n, b);
  }

  lemma NodeStaticRoundTrip(s: NodeStatic, rest: seq<byte>)
    requires NodeStaticFits(s)
    ensures DecodeNodeStatic(EncodeNodeStatic(s) + rest) == Some(Got(s, rest))
  {
    var many := EncodeMany(TextBytes, Texts(s));
    Regroup(Bytes(s.id, 4), many, rest);
    IntRoundTrip(s.id, many + rest);
    TextsRoundTrip(Texts(s), rest);
  }

  lemma NodeStaticDecoded(b: seq<byte>)
    ensures DecodeNodeStatic(b).Some? ==> NodeStaticFits(DecodeNodeStatic(b).value.value)
  {
    var id := ReadInt(b);
    if id.Some? {
      TextsDecoded(5, id.value.rest);
    }
  }

  // ---------- lists behind an int32 count ----------

  function EncodeCounted<T>(encode: T -> seq<byte>, xs: seq<T>): seq<byte> {
    Bytes(|xs|, 4) + EncodeMany(encode, xs)
  }

  function DecodeCounted<T>(decode: seq<byte> -> Option<Got<T>>, b: seq<byte>): (r: Option<Got<seq<T>>>)
    ensures r.Some? ==> |r.value.value| < 0x8000_0000
  {
    match ReadInt(b)
    case None => None
    case Some(Got(size, r)) => DecodeMany(decode, size, r)
  }

  lemma CountedRoundTrip<T>(encode: T -> seq<byte>, decode: seq<byte> -> Option<Got<T>>, xs: seq<T>, rest: seq<byte>)
    requires |xs| < 0x8000_0000 && forall x, r :: x in xs ==> decode(encode(x) + r) == Some(Got(x, r))
    ensures ReadInt(EncodeCounted(encode, xs) + rest).Some?
    ensures ReadInt(EncodeCounted(encode, xs) + rest).value.value == |xs|
    ensures DecodeCounted(decode, EncodeCounted(encode, xs) + rest) == Some(Got(xs, rest))
  {
    var many := EncodeMany(encode, xs);
    Regroup(Bytes(|xs|, 4), many, rest);
    IntRoundTrip(|xs|, many + rest);
    ManyRoundTrip(encode, decode, xs, rest);
  }

  // ---------- messages ----------

  /** The thirteen messages; a constructor per ProtocolId. */
  datatype Message =
    | Ping
    | State(states: seq<WorldState>)
    | CharacterStatic(chrId: int32, nodes: seq<NodeStatic>)
    | CharacterDetails(chrId: int32, aggro: seq<AggroEntry>, root: StateNode)
    | Select(chrId: int32)
    | Pause(pause: bool)
    | Change(name: text)
    | Names(names: seq<text>)
    | Reset
    | Step(millis: int64)
    | UpdateNode(nodeId: int32, chrId: int32, name: text, nodeType: text, condition: text)
    | DeleteNode(nodeId: int32, chrId: int32)
    | AddNode(nodeId: int32, chrId: int32, name: text, nodeType: text, condition: text)

  function ProtocolId(m: Message): byte {
    match m
    case Ping => 0
    case State(_) => 1
    case CharacterStatic(_, _) => 2
    case CharacterDetails(_, _, _) => 3
    case Select(_) => 4
    case Pause(_) => 5
    case Change(_) => 6
    case Names(_) => 7
    case Reset => 8
    case Step(_) => 9
    case UpdateNode(_, _, _, _, _) => 10
    case DeleteNode(_, _) => 11
    case AddNode(_, _, _, _, _) => 12
  }

  function EncodeEdit(id: int32, chrId: int32, texts: seq<text>): seq<byte> {
    EncodeMany(IntBytes, [id, chrId]) + EncodeMany(TextBytes, texts)
  }

  /** What `serialize` writes after the id. */
  function EncodeBody(m: Message): seq<byte> {
    match m
    case Ping => []
    case State(states) => EncodeCounted(EncodeWorldState, states)
    case CharacterStatic(chrId, nodes) => Bytes(chrId, 4) + EncodeCounted(EncodeNodeStatic, nodes)
    case CharacterDetails(chrId, aggro, root) => Bytes(chrId, 4) + (EncodeAggro(aggro) + EncodeNode(root))
    case Select(chrId) => Bytes(chrId, 4)
    case Pause(pause) => [BoolByte(pause)]
    case Change(name) => TextBytes(name)
    case Names(names) => EncodeCounted(TextBytes, names)
    case Reset => []
    case Step(millis) => Bytes(millis, 8)
    case UpdateNode(nodeId, chrId, name, nodeType, condition) => EncodeEdit(nodeId, chrId, [name, nodeType, condition])
    case DeleteNode(nodeId, chrId) => EncodeEdit(nodeId, chrId, [])
    case AddNode(nodeId, chrId, name, nodeType, condition) => EncodeEdit(nodeId, chrId, [name, nodeType, condition])
  }

  /** IProtocolMessage::serialize. */
  function Encode(m: Message): seq<byte> {
    [ProtocolId(m)] + EncodeBody(m)
  }

  function DecodeState(b: seq<byte>): Option<Got<Message>> {
    match DecodeCounted(DecodeWorldState, b)
    case None => None
    case Some(Got(states, rest)) => Some(Got(State(states), rest))
  }

  /** The size becomes a size_t: a negative one cannot be reserved. */
  function DecodeStatic(b: seq<byte>): Option<Got<Message>> {
    match ReadInt(b)
    case None => None
    case Some(Got(chrId, r)) =>
      if ReadInt(r).Some? && ReadInt(r).value.value < 0 then None
      else
        match DecodeCounted(DecodeNodeStatic, r)
        case None => None
        case Some(Got(nodes, rest)) => Some(Got(CharacterStatic(chrId, nodes), rest))
  }

  function DecodeDetails(b: seq<byte>): Option<Got<Message>> {
    match ReadInt(b)
    case None => None
    case Some(Got(chrId, r1)) =>
      match DecodeAggro(r1)
      case None => None
      case Some(Got(aggro, r2)) =>
        match DecodeNode(r2)
        case None => None
        case Some(Got(root, rest)) => Some(Got(CharacterDetails(chrId, aggro, root), rest))
  }

  function DecodeNames(b: seq<byte>): Option<Got<Message>> {
    match DecodeCounted(ReadText, b)
    case None => None
    case Some(Got(names, rest)) => Some(Got(Names(names), rest))
  }

  function DecodeEdit(n: nat, b: seq<byte>): (r: Option<Got<(int32, int32, seq<text>)>>)
    ensures r.Some? ==> |r.value.value.2| == n
  {
    match DecodeMany(ReadInt, 2, b)
    case None => None
    case Some(Got(v, r)) =>
      match DecodeMany(ReadText, n, r)
      case None => None
      case Some(Got(t, rest)) => Some(Got((v[0], v[1], t), rest))
  }

  function DecodeUpdate(b: seq<byte>): Option<Got<Message>> {
    match DecodeEdit(3, b)
    case None => None
    case Some(Got((id, chrId, t), rest)) => Some(Got(UpdateNode(id, chrId, t[0], t[1], t[2]), rest))
  }

  function DecodeAdd(b: seq<byte>): Option<Got<Message>> {
    match DecodeEdit(3, b)
    case None => None
    case Some(Got((id, chrId, t), rest)) => Some(Got(AddNode(id, chrId, t[0], t[1], t[2]), rest))
  }

  function DecodeDelete(b: seq<byte>): Option<Got<Message>> {
    match DecodeEdit(0, b)
    case None => None
    case Some(Got((id, chrId, _), rest)) => Some(Got(DeleteNode(id, chrId), rest))
  }

  function DecodeSelect(b: seq<byte>): Option<Got<Message>> {
    match ReadInt(b)
    case None => None
    case Some(Got(chrId, rest)) => Some(Got(Select(chrId), rest))
  }

  function DecodePause(b: seq<byte>): Option<Got<Message>> {
    match ReadBool(b)
    case None => None
    case Some(Got(pause, rest)) => Some(Got(Pause(pause), rest))
  }

  function DecodeChange(b: seq<byte>): Option<Got<Message>> {
    match ReadText(b)
    case None => None
    case Some(Got(name, rest)) => Some(Got(Change(name), rest))
  }

  function DecodeStep(b: seq<byte>): Option<Got<Message>> {
    match ReadLong(b)
    case None => None
    case Some(Got(millis, rest)) => Some(Got(Step(millis), rest))
  }

  function DecodeSmall(id: byte, b: seq<byte>): Option<Got<Message>> {
    if id == 4 then DecodeSelect(b)
    else if id == 5 then DecodePause(b)
    else if id == 6 then DecodeChange(b)
    else if id == 9 then DecodeStep(b)
    else if id == 0 then Some(Got(Ping, b))
    else Some(Got(Reset, b))
  }

  /** The constructor that reads the body of message `id` from a stream; None when it runs off the
      end of the stream or cannot allocate. */
  function DecodeBody(id: byte, b: seq<byte>): Option<Got<Message>>
    requires id <= 12
  {
    if id == 1 then DecodeState(b)
    else if id == 2 then DecodeStatic(b)
    else if id == 3 then DecodeDetails(b)
    else if id == 7 then DecodeNames(b)
    else if id == 10 then DecodeUpdate(b)
    else if id == 11 then DecodeDelete(b)
    else if id == 12 then DecodeAdd(b)
    else DecodeSmall(id, b)
  }

  /** What a stream of bytes is taken for. */
  datatype Received = Received(message: Message, rest: seq<byte>) | Unknown(rest: seq<byte>) | Overrun

  /** The part of ProtocolMessageFactory::create after the size. */
  function Decode(b: seq<byte>): Received {
    if b == [] then Overrun
    else if b[0] > 12 then Unknown(b[1..])
    else
      match DecodeBody(b[0], b[1..])
      case None => Overrun
      case Some(Got(m, rest)) => Received(m, rest)
  }

  /** The messages that survive the wire: no NUL in a string, and every count within its field. */
  predicate Fits(m: Message) {
    match m
    case State(states) => |states| < 0x8000_0000 && forall s :: s in states ==> WorldStateFits(s)
    case CharacterStatic(_, nodes) => |nodes| < 0x8000_0000 && forall n :: n in nodes ==> NodeStaticFits(n)
    case CharacterDetails(_, aggro, root) => |aggro| < 0x8000 && NodeFits(root)
    case Change(name) => NoNul(name)
    case Names(names) => |names| < 0x8000_0000 && AllNoNul(names)
    case UpdateNode(_, _, name, nodeType, condition) => AllNoNul([name, nodeType, condition])
    case AddNode(_, _, name, nodeType, condition) => AllNoNul([name, nodeType, condition])
    case _ => true
  }
}
