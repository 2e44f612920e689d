/** The wire format told a second time, as the list of fields a message consists of (the `serialize` methods
    of the AI*Message.h files): the id of its type, then its fields in order, each as its own bytes. */
module WireLayout {
  import opened WireBytes
  import opened WireMessages

  datatype Field = Byte(b: byte) | Flag(v: bool) | Short(n: int) | Int(n: int) | Long(n: int) | Text(t: text)

  function FieldBytes(f: Field): seq<byte> {
    match f
    case Byte(b) => [b]
    case Flag(v) => [if v then 1 else 0]
    case Short(n) => ShortOnWire(n)
    case Int(n) => IntOnWire(n)
    case Long(n) => LongOnWire(n)
    case Text(t) => t + [0]
  }

  function Wire(fs: seq<Field>): seq<byte> {
    if fs == [] then [] else FieldBytes(fs[0]) + Wire(fs[1..])
  }

  /** The fields of several elements, one element after the other. */
  function Each<T>(fields: T -> seq<Field>, xs: seq<T>): seq<Field> {
    if xs == [] then [] else fields(xs[0]) + Each(fields, xs[1..])
  }

  function AggroFields(e: AggroEntry): seq<Field> {
    [Int(e.id), Int(e.aggro)]
  }

  function NodeFields(n: StateNode): seq<Field>
    decreases n, 1
  {
    [Int(n.nodeId), Text(n.condition), Long(n.lastRun), Byte(n.status), Flag(n.running), Short(|n.children|)]
    + ChildFields(n, 0)
  }

  function ChildFields(n: StateNode, i: nat): seq<Field>
    requires i <= |n.children|
    decreases n, 0, |n.children| - i
  {
    if i == |n.children| then [] else NodeFields(n.children[i]) + ChildFields(n, i + 1)
  }

  function AttributeFields(a: Attribute): seq<Field> {
    [Text(a.key), Text(a.value)]
  }

  function StateFields(s: WorldState): seq<Field> {
    [Int(s.id), Int(s.x), Int(s.y), Int(s.z), Int(s.orientation), Short(|s.attributes|)]
    + Each(AttributeFields, s.attributes)
  }

  function StaticFields(s: NodeStatic): seq<Field> {
    [Int(s.id), Text(s.name), Text(s.nodeType), Text(s.parameters), Text(s.conditionType), Text(s.conditionParameters)]
  }

  function NameFields(t: text): seq<Field> {
    [Text(t)]
  }

  function Fields(m: Message): seq<Field> {
    match m
    case Ping => [Byte(0)]
    case State(states) => [Byte(1), Int(|states|)] + Each(StateFields, states)
    case CharacterStatic(chrId, nodes) => [Byte(2), Int(chrId), Int(|nodes|)] + Each(StaticFields, nodes)
    case CharacterDetails(chrId, aggro, root) =>
      [Byte(3), Int(chrId), Short(|aggro|)] + Each(AggroFields, aggro) + NodeFields(root)
    case Select(chrId) => [Byte(4), Int(chrId)]
    case Pause(pause) => [Byte(5), Flag(pause)]
    case Change(name) => [Byte(6), Text(name)]
    case Names(names) => [Byte(7), Int(|names|)] + Each(NameFields, names)
    case Reset => [Byte(8)]
    case Step(millis) => [Byte(9), Long(millis)]
    case UpdateNode(nodeId, chrId, name, nodeType, condition) =>
      [Byte(10), Int(nodeId), Int(chrId), Text(name), Text(nodeType), Text(condition)]
    case DeleteNode(nodeId, chrId) => [Byte(11), Int(nodeId), Int(chrId)]
    case AddNode(parentId, chrId, name, nodeType, condition) =>
      [Byte(12), Int(parentId), Int(chrId), Text(name), Text(nodeType), Text(condition)]
  }

  lemma {:induction false} WireAppend(fs: seq<Field>, gs: seq<Field>)
    ensures Wire(fs + gs) == Wire(fs) + Wire(gs)
  {
    if fs == [] {
      assert fs + gs == gs;
    } else {
      WireAppend(fs[1..], gs);
      assert (fs + gs)[1..] == fs[1..] + gs;
      Regroup(FieldBytes(fs[0]), Wire(fs[1..]), Wire(gs));
    }
  }

  lemma WireCons(f: Field, fs: seq<Field>)
    ensures Wire([f] + fs) == FieldBytes(f) + Wire(fs)
  {
    assert ([f] + fs)[1..] == fs;
  }

  lemma WireTwo(f: Field, g: Field)
    ensures Wire([f, g]) == FieldBytes(f) + FieldBytes(g)
  {
    assert [f, g] == [f] + [g] && [g] == [g] + [];
    WireCons(f, [g]);
    WireCons(g, []);
    assert FieldBytes(g) + [] == FieldBytes(g);
  }

  lemma WireFive(a: Field, b: Field, c: Field, d: Field, e: Field)
    ensures Wire([a, b, c, d, e]) ==
            FieldBytes(a) + (FieldBytes(b) + (FieldBytes(c) + (FieldBytes(d) + FieldBytes(e))))
  {
    WireTwo(d, e);
    WireCons(c, [d, e]);
    WireCons(b, [c, d, e]);
    WireCons(a, [b, c, d, e]);
    assert [c] + [d, e] == [c, d, e] && [b] + [c, d, e] == [b, c, d, e] && [a] + [b, c, d, e] == [a, b, c, d, e];
  }

  lemma WireSix(a: Field, b: Field, c: Field, d: Field, e: Field, f: Field)
    ensures Wire([a, b, c, d, e, f]) ==
            FieldBytes(a) + (FieldBytes(b) + (FieldBytes(c) + (FieldBytes(d) + (FieldBytes(e) + FieldBytes(f)))))
  {
    WireFive(b, c, d, e, f);
    WireCons(a, [b, c, d, e, f]);
    assert [a] + [b, c, d, e, f] == [a, b, c, d, e, f];
  }

  /** The fields of a list are what writing its elements one after the other gives. */
  lemma {:induction false} EachLayout<T>(encode: T -> seq<byte>, fields: T -> seq<Field>, xs: seq<T>)
    requires forall x :: x in xs ==> encode(x) == Wire(fields(x))
    ensures EncodeMany(encode, xs) == Wire(Each(fields, xs))
  {
    if xs != [] {
      EachLayout(encode, fields, xs[1..]);
      WireAppend(fields(xs[0]), Each(fields, xs[1..]));
    }
  }

  lemma FieldBytesAre(v: int)
    ensures FieldBytes(Short(v)) == Bytes(v, 2)
    ensures FieldBytes(Int(v)) == Bytes(v, 4)
    ensures FieldBytes(Long(v)) == Bytes(v, 8)
  {
    OnWire(v);
  }

  lemma AggroLayout(entries: seq<AggroEntry>)
    ensures EncodeAggro(entries) == Wire([Short(|entries|)] + Each(AggroFields, entries))
  {
    forall e | e in entries ensures EncodeAggroEntry(e) == Wire(AggroFields(e)) {
      WireTwo(Int(e.id), Int(e.aggro));
      FieldBytesAre(e.id);
      FieldBytesAre(e.aggro);
    }
    EachLayout(EncodeAggroEntry, AggroFields, entries);
    WireCons(Short(|entries|), Each(AggroFields, entries));
    FieldBytesAre(|entries|);
  }

  lemma HeaderLayout(n: StateNode)
    ensures EncodeHeader(n) == Wire([Int(n.nodeId), Text(n.condition), Long(n.lastRun), Byte(n.status), Flag(n.running),
                                     Short(|n.children|)])
  {
    WireSix(Int(n.nodeId), Text(n.condition), Long(n.lastRun), Byte(n.status), Flag(n.running), Short(|n.children|));
    FieldBytesAre(n.nodeId);
    FieldBytesAre(n.lastRun);
    FieldBytesAre(|n.children|);
  }

  lemma {:induction false} NodeLayout(n: StateNode)
    ensures EncodeNode(n) == Wire(NodeFields(n))
    decreases n, 1
  {
    HeaderLayout(n);
    ChildrenLayout(n, 0);
    WireAppend([Int(n.nodeId), Text(n.condition), Long(n.lastRun), Byte(n.status), Flag(n.running),
                Short(|n.children|)], ChildFields(n, 0));
  }

  lemma {:induction false} ChildrenLayout(n: StateNode, i: nat)
    requires i <= |n.children|
    ensures EncodeChildren(n, i) == Wire(ChildFields(n, i))
    decreases n, 0, |n.children| - i
  {
    if i < |n.children| {
      NodeLayout(n.children[i]);
      ChildrenLayout(n, i + 1);
      WireAppend(NodeFields(n.children[i]), ChildFields(n, i + 1));
    }
  }

  lemma AttributesLayout(attributes: seq<Attribute>)
    ensures EncodeAttributes(attributes) == Wire([Short(|attributes|)] + Each(AttributeFields, attributes))
  {
    forall a | a in attributes ensures EncodeAttribute(a) == Wire(AttributeFields(a)) {
      WireTwo(Text(a.key), Text(a.value));
    }
    EachLayout(EncodeAttribute, AttributeFields, attributes);
    WireCons(Short(|attributes|), Each(AttributeFields, attributes));
    FieldBytesAre(|attributes|);
  }

  lemma PlaceLayout(s: WorldState)
    ensures EncodePlace(s) == Wire([Int(s.id), Int(s.x), Int(s.y), Int(s.z), Int(s.orientation)])
  {
    WireFive(Int(s.id), Int(s.x), Int(s.y), Int(s.z), Int(s.orientation));
    FieldBytesAre(s.id);
    FieldBytesAre(s.x);
    FieldBytesAre(s.y);
    FieldBytesAre(s.z);
    FieldBytesAre(s.orientation);
  }

  lemma StateLayout(s: WorldState)
    ensures EncodeWorldState(s) == Wire(StateFields(s))
  {
    PlaceLayout(s);
    AttributesLayout(s.attributes);
    var place := [Int(s.id), Int(s.x), Int(s.y), Int(s.z), Int(s.orientation)];
    var counted := [Short(|s.attributes|)] + Each(AttributeFields, s.attributes);
    WireAppend(place, counted);
    assert StateFields(s) == place + counted;
  }

  lemma StaticLayout(s: NodeStatic)
    ensures EncodeNodeStatic(s) == Wire(StaticFields(s))
  {
    TextsLayout(Texts(s));
    var t := Each(NameFields, Texts(s));
    FiveNames(s);
    WireCons(Int(s.id), t);
    FieldBytesAre(s.id);
    assert StaticFields(s) == [Int(s.id)] + t;
  }

  lemma FiveNames(s: NodeStatic)
    ensures Each(NameFields, Texts(s)) ==
            [Text(s.name), Text(s.nodeType), Text(s.parameters), Text(s.conditionType), Text(s.conditionParameters)]
  {
    NamesAre(Texts(s));
  }

  lemma {:induction false} NamesAre(ts: seq<text>)
    ensures |Each(NameFields, ts)| == |ts|
    ensures forall i :: 0 <= i < |ts| ==> Each(NameFields, ts)[i] == Text(ts[i])
  {
    if ts != [] { NamesAre(ts[1..]); }
  }

  lemma OneName(t: text)
    ensures TextBytes(t) == Wire(NameFields(t))
  {
    assert NameFields(t) == [Text(t)] + [];
    WireCons(Text(t), []);
    assert FieldBytes(Text(t)) + [] == FieldBytes(Text(t));
  }

  lemma TextsLayout(ts: seq<text>)
    ensures EncodeMany(TextBytes, ts) == Wire(Each(NameFields, ts))
  {
    forall t: text | t in ts ensures TextBytes(t) == Wire(NameFields(t)) { OneName(t); }
    EachLayout(TextBytes, NameFields, ts);
  }

  lemma CountedLayout<T>(encode: T -> seq<byte>, fields: T -> seq<Field>, xs: seq<T>)
    requires forall x :: x in xs ==> encode(x) == Wire(fields(x))
    ensures EncodeCounted(encode, xs) == Wire([Int(|xs|)] + Each(fields, xs))
  {
    EachLayout(encode, fields, xs);
    WireCons(Int(|xs|), Each(fields, xs));
    FieldBytesAre(|xs|);
  }

  /** Two ints and some texts, as the messages that edit a tree have them. */
  lemma EditLayout(id: int32, chrId: int32, ts: seq<text>)
    ensures EncodeEdit(id, chrId, ts) == Wire([Int(id), Int(chrId)] + Each(NameFields, ts))
  {
    TextsLayout(ts);
    WireTwo(Int(id), Int(chrId));
    WireAppend([Int(id), Int(chrId)], Each(NameFields, ts));
    FieldBytesAre(id);
    FieldBytesAre(chrId);
    assert [id, chrId][1..] == [chrId] && [chrId][1..] == [];
    assert EncodeMany(IntBytes, [chrId]) == Bytes(chrId, 4) + [];
    assert EncodeMany(IntBytes, [id, chrId]) == Bytes(id, 4) + Bytes(chrId, 4);
  }

  lemma StatesLayout(states: seq<WorldState>)
    ensures Encode(State(states)) == Wire(Fields(State(states)))
  {
    forall s | s in states ensures EncodeWorldState(s) == Wire(StateFields(s)) { StateLayout(s); }
    CountedLayout(EncodeWorldState, StateFields, states);
    Headed(1, [Int(|states|)] + Each(StateFields, states));
    assert Fields(State(states)) == [Byte(1)] + ([Int(|states|)] + Each(StateFields, states));
  }

  lemma Headed(id: byte, fs: seq<Field>)
    ensures Wire([Byte(id)] + fs) == [id] + Wire(fs)
  {
    WireCons(Byte(id), fs);
  }

  lemma StaticsLayout(chrId: int32, nodes: seq<NodeStatic>)
    ensures Encode(CharacterStatic(chrId, nodes)) == Wire(Fields(CharacterStatic(chrId, nodes)))
  {
    forall s | s in nodes ensures EncodeNodeStatic(s) == Wire(StaticFields(s)) { StaticLayout(s); }
    CountedLayout(EncodeNodeStatic, StaticFields, nodes);
    var counted := [Int(|nodes|)] + Each(StaticFields, nodes);
    FieldBytesAre(chrId);
    WireCons(Int(chrId), counted);
    Headed(2, [Int(chrId)] + counted);
    assert Fields(CharacterStatic(chrId, nodes)) == [Byte(2)] + ([Int(chrId)] + counted);
  }

  lemma NamesLayout(names: seq<text>)
    ensures Encode(Names(names)) == Wire(Fields(Names(names)))
  {
    forall t: text | t in names ensures TextBytes(t) == Wire(NameFields(t)) { OneName(t); }
    CountedLayout(TextBytes, NameFields, names);
    Headed(7, [Int(|names|)] + Each(NameFields, names));
    assert Fields(Names(names)) == [Byte(7)] + ([Int(|names|)] + Each(NameFields, names));
  }

  lemma DetailsLayout(chrId: int32, entries: seq<AggroEntry>, root: StateNode)
    ensures Encode(CharacterDetails(chrId, entries, root)) == Wire(Fields(CharacterDetails(chrId, entries, root)))
  {
    var aggro, node := Each(AggroFields, entries), NodeFields(root);
    DetailsRest(entries, root);
    FieldBytesAre(chrId);
    ThreeHeaded(Byte(3), Int(chrId), Short(|entries|), aggro, node);
  }

  lemma ThreeHeaded(a: Field, b: Field, c: Field, fs: seq<Field>, gs: seq<Field>)
    ensures Wire([a, b, c] + fs + gs) == FieldBytes(a) + (FieldBytes(b) + Wire(([c] + fs) + gs))
  {
    var rest := ([c] + fs) + gs;
    assert [a, b, c] + fs + gs == [a] + ([b] + rest);
    WireCons(b, rest);
    WireCons(a, [b] + rest);
  }

  lemma DetailsRest(entries: seq<AggroEntry>, root: StateNode)
    ensures EncodeAggro(entries) + EncodeNode(root) ==
            Wire(([Short(|entries|)] + Each(AggroFields, entries)) + NodeFields(root))
  {
    AggroLayout(entries);
    NodeLayout(root);
    WireAppend([Short(|entries|)] + Each(AggroFields, entries), NodeFields(root));
  }

  lemma EditMessageLayout(id: byte, nodeId: int32, chrId: int32, ts: seq<text>)
    ensures [id] + EncodeEdit(nodeId, chrId, ts) ==
            Wire([Byte(id)] + ([Int(nodeId), Int(chrId)] + Each(NameFields, ts)))
  {
    EditLayout(nodeId, chrId, ts);
    Headed(id, [Int(nodeId), Int(chrId)] + Each(NameFields, ts));
  }

  /** The fields of a message that names three texts. */
  lemma EditFields(id: byte, nodeId: int32, chrId: int32, a: text, b: text, c: text)
    ensures [Byte(id), Int(nodeId), Int(chrId), Text(a), Text(b), Text(c)]
         == [Byte(id)] + ([Int(nodeId), Int(chrId)] + Each(NameFields, [a, b, c]))
  {
    NamesAre([a, b, c]);
  }

  lemma TreeEditLayout(m: Message)
    requires m.UpdateNode? || m.DeleteNode? || m.AddNode?
    ensures Encode(m) == Wire(Fields(m))
  {
    match m {
      case UpdateNode(nodeId, chrId, name, nodeType, condition) =>
        EditFields(10, nodeId, chrId, name, nodeType, condition);
        EditMessageLayout(10, nodeId, chrId, [name, nodeType, condition]);
      case DeleteNode(nodeId, chrId) =>
        EditMessageLayout(11, nodeId, chrId, []);
        assert Fields(m) == [Byte(11)] + ([Int(nodeId), Int(chrId)] + Each(NameFields, []));
      case AddNode(nodeId, chrId, name, nodeType, condition) =>
        EditFields(12, nodeId, chrId, name, nodeType, condition);
        EditMessageLayout(12, nodeId, chrId, [name, nodeType, condition]);
    }
  }

  lemma SmallLayout(m: Message)
    requires m.Ping? || m.Select? || m.Pause? || m.Change? || m.Reset? || m.Step?
    ensures Encode(m) == Wire(Fields(m))
  {
    match m {
      case Ping => WireCons(Byte(0), []);
      case Reset => WireCons(Byte(8), []);
      case Select(chrId) => WireTwo(Byte(4), Int(chrId)); FieldBytesAre(chrId);
      case Pause(pause) => WireTwo(Byte(5), Flag(pause));
      case Change(name) => WireTwo(Byte(6), Text(name));
      case Step(millis) => WireTwo(Byte(9), Long(millis)); FieldBytesAre(millis);
    }
  }

  /** Every message is written as the bytes of its fields, one field after the other. */
  lemma EncodeLayout(m: Message)
    ensures Encode(m) == Wire(Fields(m))
  {
    match m
    case State(states) => StatesLayout(states);
    case CharacterStatic(chrId, nodes) => StaticsLayout(chrId, nodes);
    case CharacterDetails(chrId, aggro, root) => DetailsLayout(chrId, aggro, root);
    case Names(names) => NamesLayout(names);
    case UpdateNode(_, _, _, _, _) => TreeEditLayout(m);
    case DeleteNode(_, _) => TreeEditLayout(m);
    case AddNode(_, _, _, _, _) => TreeEditLayout(m);
    case _ => SmallLayout(m);
  }
}
