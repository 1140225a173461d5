/** What one half writes the other half reads: a message written by either generator's code is a list
    of well-formed wire fields, and the generated parse loop recovers the known ones. */
module WireRoundTrip {
  import opened Wrappers
  import opened Bytes
  import opened Varint
  import opened WireReader
  import opened MessageSize

  /** The wire field of a node, none when the node is left out. */
  function NodeFields(d: Dialect, n: Node): seq<Field> {
    match n
    case Unsigned(k, u) => if u == 0 then [] else [Field(k, VarintValue(u))]
    case Signed(k, v) => if v == 0 then [] else [Field(k, VarintValue(v % U64))]
    case Zigzag(k, v) => if v == 0 || !IsInt64(v) then [] else [Field(k, VarintValue(GoZigzag(v)))]
    case Fixed(k, wire, raw) =>
      if forall b <- raw :: b == 0 then []
      else [Field(k, if wire == Fixed32Wire then Fixed32Value(raw) else Fixed64Value(raw))]
    case Blob(k, data) => if data == [] then [] else [Field(k, BytesValue(data))]
    case Text(k, chars) => if chars == [] then [] else [Field(k, BytesValue(Utf8All(chars)))]
    case Message(k, fields, keepEmpty) =>
      if d.Python? && !keepEmpty && Size(d, fields) == 0 then [] else [Field(k, BytesValue(MessageBytes(d, fields)))]
  }

  function WireFields(d: Dialect, ns: seq<Node>): seq<Field> {
    if ns == [] then [] else NodeFields(d, ns[0]) + WireFields(d, ns[1..])
  }

  /** The fields that are left out: those with the default value, and in Python a nested message, other than an
      element of a repeated field, with nothing but such fields in it. */
  predicate IsDefault(d: Dialect, n: Node)
    decreases n, 1
  {
    match n
    case Unsigned(_, u) => u == 0
    case Signed(_, v) => v == 0
    case Zigzag(_, v) => v == 0
    case Fixed(_, _, raw) => forall i :: 0 <= i < |raw| ==> raw[i] == 0
    case Blob(_, data) => data == []
    case Text(_, chars) => chars == []
    case Message(_, fields, keepEmpty) => d.Python? && !keepEmpty && AllDefault(d, fields)
  }

  predicate AllDefault(d: Dialect, ns: seq<Node>)
    decreases ns, 0
  {
    forall i :: 0 <= i < |ns| ==> IsDefault(d, ns[i])
  }

  lemma TagTakesRoom(d: Dialect, number: nat, wire: Wire)
    requires number <= MAX_I32
    ensures TagSize(d, number, wire) >= 1
  {
    hide VarSize, VarBytes, Encode;
    TagAgrees(d, number, wire);
    VarAgrees(d, 8 * number + WireNumber(wire));
  }

  lemma ZeroBytes(raw: seq<byte>)
    ensures (forall b <- raw :: b == 0) <==> forall i :: 0 <= i < |raw| ==> raw[i] == 0
  {
    assert forall i :: 0 <= i < |raw| ==> raw[i] in raw;
  }

  /** A field has no size exactly when it is left out. */
  lemma {:induction false} SizeZeroIff(d: Dialect, n: Node)
    requires ValidNode(n)
    ensures NodeSize(d, n) == 0 <==> IsDefault(d, n)
    decreases n, 1
  {
    hide TagSize, VarSize, Utf8All, Size, AllDefault;
    match n
    case Unsigned(k, _) => TagTakesRoom(d, k, VarintWire);
    case Signed(k, _) => TagTakesRoom(d, k, VarintWire);
    case Zigzag(k, _) => TagTakesRoom(d, k, VarintWire);
    case Fixed(k, wire, raw) =>
      TagTakesRoom(d, k, wire);
      ZeroBytes(raw);
    case Blob(k, _) => TagTakesRoom(d, k, BytesWire);
    case Text(k, _) => TagTakesRoom(d, k, BytesWire);
    case Message(k, fields, _) =>
      TagTakesRoom(d, k, BytesWire);
      AllSizeZeroIff(d, fields);
  }

  lemma {:induction false} AllSizeZeroIff(d: Dialect, ns: seq<Node>)
    requires forall i :: 0 <= i < |ns| ==> ValidNode(ns[i])
    ensures Size(d, ns) == 0 <==> AllDefault(d, ns)
    decreases ns, 0
  {
    hide NodeSize, IsDefault, ValidNode;
    if ns != [] {
      SizeZeroIff(d, ns[0]);
      AllSizeZeroIff(d, ns[1..]);
      assert forall i :: 1 <= i < |ns| ==> ns[i] == ns[1..][i - 1];
    }
  }

  /** What is on the wire: every field but those left out. */
  lemma LeftOutIff(d: Dialect, n: Node)
    requires ValidNode(n)
    ensures NodeFields(d, n) == [] <==> IsDefault(d, n)
  {
    hide Size, AllDefault, MessageBytes, Utf8All;
    if n.Message? {
      AllSizeZeroIff(d, n.fields);
    } else if n.Fixed? {
      ZeroBytes(n.raw);
    }
  }

  /** Strings inside nested messages are ASCII; strings of the message itself are free. */
  predicate NestedAscii(ns: seq<Node>) {
    forall i :: 0 <= i < |ns| && ns[i].Message? ==> AllAscii(ns[i].fields)
  }

  /** Messages of less than 2^64 bytes whose nested lengths the size pass gets right: all of Go's, and
      Python's without accented letters below the top. */
  predicate Writable(d: Dialect, ns: seq<Node>) {
    && (forall i :: 0 <= i < |ns| ==> ValidNode(ns[i]))
    && if d.Go? then Size(d, ns) < U64 else |MessageBytes(d, ns)| < U64 && NestedAscii(ns)
  }

  predicate WritableNode(d: Dialect, n: Node) {
    && ValidNode(n)
    && if d.Go? then NodeSize(d, n) < U64 else |NodeBytes(d, n)| < U64 && (n.Message? ==> AllAscii(n.fields))
  }

  lemma WritableParts(d: Dialect, ns: seq<Node>)
    requires ns != [] && Writable(d, ns)
    ensures WritableNode(d, ns[0]) && Writable(d, ns[1..])
  {
    hide NodeSize, NodeBytes, ValidNode, AllAscii;
    assert forall i :: 1 <= i < |ns| ==> ns[i] == ns[1..][i - 1];
  }

  lemma AsciiInside(ns: seq<Node>)
    requires AllAscii(ns)
    ensures NestedAscii(ns)
  {
    forall i | 0 <= i < |ns| && ns[i].Message? ensures AllAscii(ns[i].fields) {
      assert NodeAscii(ns[i]);
    }
  }

  lemma WritableInside(d: Dialect, n: Node)
    requires n.Message? && WritableNode(d, n) && NodeFields(d, n) != []
    ensures Writable(d, n.fields)
  {
    hide TagOf, VarBytes, TagSize, VarSize, MessageBytes, Size, AllAscii, NestedAscii;
    if d.Python? {
      AsciiInside(n.fields);
    }
  }

  lemma OneField(f: Field)
    ensures FieldsBytes([f]) == TagBytes(f.number, PayloadWire(f.payload)) + PayloadBytes(f)
  {
    assert [f][1..] == [];
  }

  lemma {:induction false} FieldsAppend(a: seq<Field>, b: seq<Field>)
    ensures FieldsBytes(a + b) == FieldsBytes(a) + FieldsBytes(b)
    decreases |a|
  {
    hide TagBytes, PayloadBytes;
    if a == [] {
      assert a + b == b;
    } else {
      assert (a + b)[1..] == a[1..] + b;
      FieldsAppend(a[1..], b);
    }
  }

  lemma TagOfIsTagBytes(d: Dialect, number: nat, wire: Wire)
    requires number <= MAX_I32
    ensures TagOf(d, number, wire) == TagBytes(number, wire)
  {
    VarAgrees(d, 8 * number + WireNumber(wire));
  }

  /** The length prefix of a string or nested message is the length of what follows it. */
  lemma {:induction false} DelimitedLength(d: Dialect, n: Node)
    requires WritableNode(d, n)
    ensures n.Text? && n.chars != [] ==>
      VarBytes(d, |Utf8All(n.chars)|) == Encode(|Utf8All(n.chars)|) && |Utf8All(n.chars)| < U64
    ensures n.Message? && NodeFields(d, n) != [] ==>
      VarBytes(d, Size(d, n.fields)) == Encode(|MessageBytes(d, n.fields)|) && |MessageBytes(d, n.fields)| < U64
  {
    hide VarBytes, TagOf, Encode, MessageBytes, TagSize, VarSize, Size, Utf8All, AllAscii;
    match n
    case Text(_, chars) =>
      if chars != [] {
        VarAgrees(d, |Utf8All(chars)|);
      }
    case Message(_, fields, _) =>
      if NodeFields(d, n) != [] {
        WritableInside(d, n);
        MessageSound(d, fields);
        VarAgrees(d, Size(d, fields));
      }
    case _ =>
  }

  lemma NumberIsField(d: Dialect, k: nat, v: u64)
    requires k <= MAX_I32
    ensures TagOf(d, k, VarintWire) + VarBytes(d, v) == FieldsBytes([Field(k, VarintValue(v))])
  {
    hide TagOf, VarBytes, TagBytes, Encode;
    OneField(Field(k, VarintValue(v)));
    TagOfIsTagBytes(d, k, VarintWire);
    VarAgrees(d, v);
  }

  lemma FixedIsField(d: Dialect, k: nat, wire: Wire, raw: seq<byte>)
    requires k <= MAX_I32 && (wire == Fixed32Wire || wire == Fixed64Wire)
    ensures TagOf(d, k, wire) + raw
      == FieldsBytes([Field(k, if wire == Fixed32Wire then Fixed32Value(raw) else Fixed64Value(raw))])
  {
    hide TagOf, TagBytes;
    OneField(Field(k, if wire == Fixed32Wire then Fixed32Value(raw) else Fixed64Value(raw)));
    TagOfIsTagBytes(d, k, wire);
  }

  lemma DelimitedIsField(d: Dialect, k: nat, length: nat, data: seq<byte>)
    requires k <= MAX_I32 && VarBytes(d, length) == Encode(|data|)
    ensures TagOf(d, k, BytesWire) + VarBytes(d, length) + data == FieldsBytes([Field(k, BytesValue(data))])
  {
    hide TagOf, VarBytes, TagBytes, Encode;
    OneField(Field(k, BytesValue(data)));
    TagOfIsTagBytes(d, k, BytesWire);
    assert TagBytes(k, BytesWire) + Encode(|data|) + data == TagBytes(k, BytesWire) + (Encode(|data|) + data);
  }

  lemma {:induction false} NodeIsField(d: Dialect, n: Node)
    requires WritableNode(d, n)
    ensures NodeBytes(d, n) == FieldsBytes(NodeFields(d, n))
    ensures forall i :: 0 <= i < |NodeFields(d, n)| ==> WellFormed(NodeFields(d, n)[i])
  {
    hide VarBytes, TagOf, FieldsBytes, Encode, MessageBytes, Utf8All, VarSize, TagSize, Size;
    assert FieldsBytes([]) == [] by { NoFields(); }
    if NodeFields(d, n) != [] {
      match n
      case Unsigned(k, u) => NumberIsField(d, k, u);
      case Signed(k, v) => NumberIsField(d, k, v % U64);
      case Zigzag(k, v) => NumberIsField(d, k, GoZigzag(v));
      case Fixed(k, wire, raw) => FixedIsField(d, k, wire, raw);
      case Blob(k, data) =>
        VarAgrees(d, |data|);
        DelimitedIsField(d, k, |data|, data);
      case Text(k, chars) =>
        DelimitedLength(d, n);
        DelimitedIsField(d, k, |Utf8All(chars)|, Utf8All(chars));
      case Message(k, fields, _) =>
        DelimitedLength(d, n);
        DelimitedIsField(d, k, Size(d, fields), MessageBytes(d, fields));
    }
  }

  lemma NoFields()
    ensures FieldsBytes([]) == []
  {
  }

  lemma {:induction false} MessageIsFields(d: Dialect, ns: seq<Node>)
    requires Writable(d, ns)
    ensures MessageBytes(d, ns) == FieldsBytes(WireFields(d, ns))
    ensures forall i :: 0 <= i < |WireFields(d, ns)| ==> WellFormed(WireFields(d, ns)[i])
    decreases |ns|
  {
    hide NodeBytes, NodeFields, WritableNode, Writable, WellFormed;
    if ns != [] {
      WritableParts(d, ns);
      NodeIsField(d, ns[0]);
      MessageIsFields(d, ns[1..]);
      FieldsAppend(NodeFields(d, ns[0]), WireFields(d, ns[1..]));
    }
  }

  /** A message written by Go or by Python is parsed back by the generated loop: all known fields, in
      order, for every reader whose declarations fit the writer's. */
  lemma WrittenMessageIsRead(d: Dialect, ns: seq<Node>, schema: map<nat, Kind>)
    requires Writable(d, ns)
    requires forall f <- WireFields(d, ns) :: f.number in schema ==> KindOf(f.payload) == Some(schema[f.number])
    ensures ReadFields(MessageBytes(d, ns), schema) == Some(KnownEntries(WireFields(d, ns), schema))
  {
    MessageIsFields(d, ns);
    hide ReadFields, MessageBytes, FieldsBytes, WireFields;
    ParseRoundTrip(WireFields(d, ns), schema);
  }
}
