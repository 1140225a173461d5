/** What becomes of accented letters below the top of a Python message.  A nested message is written whole but
    behind a length that counts its characters, so its reader sees too few bytes. */
module LostStrings {
  import opened Wrappers
  import opened Bytes
  import opened Varint
  import opened WireReader
  import opened MessageSize
  import opened WireWriter
  import opened WireRoundTrip
  import opened MessageTree

  /******* How many bytes a read value takes at least *******/

  /** The number a zigzag value is written as. */
  function ZigzagOf(v: int): nat {
    if v >= 0 then 2 * v else -2 * v - 1
  }

  function Delimited(n: nat): nat {
    |Encode(n)| + n
  }

  /** The fewest bytes from which a value of a type can have been read. */
  function ValueWeight(p: Program, t: Type, v: Tree): nat
    decreases v, 1
  {
    match v
    case Leaf(n) =>
      (match t
       case SignedType => |Encode(n % U64)|
       case ZigzagType => |Encode(ZigzagOf(n))|
       case _ => if n >= 0 then |Encode(n)| else 0)
    case RawLeaf(bytes) => if t.Fixed32Type? || t.Fixed64Type? then |bytes| else Delimited(|bytes|)
    case Branch(entries) => if t.MessageType? then Delimited(Weight(p, SchemaOf(p, t.name), entries)) else 0
  }

  /** The same for an entry, tag included. */
  function EntryWeight(p: Program, schema: Schema, e: TreeEntry): nat
    decreases e, 0
  {
    if e.number in schema then |Encode(8 * e.number)| + ValueWeight(p, schema[e.number], e.value) else 0
  }

  function Weight(p: Program, schema: Schema, es: seq<TreeEntry>): nat
    decreases es, 0
  {
    if es == [] then 0 else EntryWeight(p, schema, es[0]) + Weight(p, schema, es[1..])
  }

  lemma DelimitedGrows(a: nat, b: nat)
    requires a <= b
    ensures Delimited(a) <= Delimited(b) && (a < b ==> Delimited(a) < Delimited(b))
  {
    EncodeMonotone(a, b);
  }

  /******* A buffer holds at least what was read from it *******/

  lemma {:induction false} DecodedFits(buf: seq<byte>, offset: nat, i: nat)
    requires i < 10
    ensures var r := PyDecodeFrom(buf, offset, i); r.Some? ==> |Encode(r.value.value)| <= r.value.size
    decreases 10 - i
  {
    hide PyDecodeFrom;
    PyByte(buf, offset, i);
    if offset + i < |buf| && buf[offset + i] >= 128 && i < 9 {
      DecodedFits(buf, offset, i + 1);
      PyContinues(buf, offset, i);
      var rest := PyDecodeFrom(buf, offset, i + 1);
      if rest.Some? {
        OneMoreDigit(buf[offset + i] % 128, rest.value.value);
      }
    }
  }

  lemma OneMoreDigit(low: nat, high: nat)
    requires low < 128
    ensures |Encode(low + 128 * high)| <= 1 + |Encode(high)|
  {
    var v := low + 128 * high;
    assert v / 128 == high;
  }

  /** The fewest bytes of an entry's payload. */
  function PayloadWeight(kind: Kind, v: Value): nat {
    match v
    case Number(n) => |Encode(n)|
    case Raw(bytes) => if kind == BytesKind then Delimited(|bytes|) else |bytes|
  }

  function EntriesWeight(kinds: map<nat, Kind>, es: seq<Entry>): nat {
    if es == [] then 0
    else
      (if es[0].number in kinds
       then |Encode(8 * es[0].number)| + PayloadWeight(kinds[es[0].number], es[0].value) else 0)
      + EntriesWeight(kinds, es[1..])
  }

  lemma TagFits(buf: seq<byte>, offset: nat)
    ensures var r := ReadTag(buf, offset);
      r.Some? ==> |Encode(8 * r.value.number)| <= r.value.size && offset + r.value.size <= |buf|
  {
    hide PyDecodeFrom;
    DecodedFits(buf, offset, 0);
    var d := PyDecode(buf, offset);
    if d.Some? {
      TagLength(d.value.value / 8, d.value.value % 8);
    }
  }

  /** A known field and what follows it share the room behind its tag. */
  lemma KnownFits(buf: seq<byte>, body: nat, kind: Kind)
    requires body <= |buf|
    ensures var r := ReadKnown(buf, body, kind);
      r.Some? ==> PayloadWeight(kind, r.value.value) + Room(buf, body + r.value.size) <= Room(buf, body)
  {
    hide PyDecodeFrom, Encode;
    DecodedFits(buf, body, 0);
    if kind == BytesKind {
      var d := PyDecode(buf, body);
      if d.Some? {
        var slice := Slice(buf, body + d.value.size, body + d.value.size + d.value.value);
        DelimitedGrows(|slice|, d.value.value);
        EncodeMonotone(|slice|, d.value.value);
      }
    }
  }

  lemma {:induction false} ParsedFits(buf: seq<byte>, offset: nat, kinds: map<nat, Kind>)
    ensures var r := Parse(buf, offset, kinds); r.Some? ==> EntriesWeight(kinds, r.value) <= Room(buf, offset)
    decreases Room(buf, offset)
  {
    hide Skip, ReadKnown, ReadTag, PayloadWeight, Encode;
    if offset < |buf| && ReadTag(buf, offset).Some? {
      TagFits(buf, offset);
      var tag := ReadTag(buf, offset).value;
      var body := offset + tag.size;
      if tag.number in kinds {
        var s := ReadKnown(buf, body, kinds[tag.number]);
        if s.Some? {
          KnownFits(buf, body, kinds[tag.number]);
          ParsedFits(buf, body + s.value.size, kinds);
          var rest := Parse(buf, body + s.value.size, kinds);
          if rest.Some? {
            assert ([Entry(tag.number, s.value.value)] + rest.value)[1..] == rest.value;
          }
        }
      } else {
        var next := Skip(buf, body, tag.wire);
        if next.Some? {
          ParsedFits(buf, next.value, kinds);
        }
      }
    }
  }

  /** A value that was read weighs no more than its entry. */
  lemma {:induction false} ValueFits(p: Program, t: Type, v: Value, bound: nat)
    requires v.Number? <==> KindFor(t) == VarintKind
    requires v.Raw? ==> |v.bytes| < bound
    ensures var r := ReadValue(p, t, v, bound); r.Some? ==> ValueWeight(p, t, r.value) <= PayloadWeight(KindFor(t), v)
    decreases bound, 0, 0
  {
    hide Encode, ReadTree;
    match t
    case MessageType(name) =>
      TreeFits(p, name, v.bytes);
      var r := ReadTree(p, name, v.bytes);
      if r.Some? {
        DelimitedGrows(Weight(p, SchemaOf(p, name), r.value), |v.bytes|);
      }
    case ZigzagType => ZigzagFits(v.n);
    case SignedType => SignedFits(v.n);
    case _ =>
  }

  lemma ZigzagFits(u: nat)
    ensures ZigzagOf(PyUnzigzag(u)) == u
  {
  }

  lemma SignedFits(u: nat)
    ensures AsSigned(u).Some? ==> AsSigned(u).value % U64 == u
  {
  }

  lemma {:induction false} EntriesFit(p: Program, schema: Schema, es: seq<Entry>, bound: nat)
    requires AllTyped(es, Kinds(schema), bound)
    ensures var r := ReadEntries(p, schema, es, bound);
      r.Some? ==> Weight(p, schema, r.value) <= EntriesWeight(Kinds(schema), es)
    decreases bound, 0, |es|
  {
    hide Encode, ReadValue, ValueWeight, PayloadWeight;
    if es != [] {
      var e, rest := es[0], es[1..];
      assert Typed(e, Kinds(schema), bound);
      ValueFits(p, schema[e.number], e.value, bound);
      EntriesFit(p, schema, rest, bound);
      var value, later := ReadValue(p, schema[e.number], e.value, bound), ReadEntries(p, schema, rest, bound);
      if value.Some? && later.Some? {
        assert ([TreeEntry(e.number, value.value)] + later.value)[1..] == later.value;
      }
    }
  }

  /** A buffer has at least as many bytes as the tree read from it weighs. */
  lemma {:induction false} TreeFits(p: Program, name: string, buf: seq<byte>)
    ensures var r := ReadTree(p, name, buf); r.Some? ==> Weight(p, SchemaOf(p, name), r.value) <= |buf|
    decreases |buf|, 1, 0
  {
    hide Parse, ReadEntries, Weight, EntriesWeight;
    var schema := SchemaOf(p, name);
    ParsedIsTyped(buf, 0, Kinds(schema));
    ParsedFits(buf, 0, Kinds(schema));
    NoWeight(Kinds(schema));
    var es := ReadFields(buf, Kinds(schema));
    if es.Some? {
      EntriesFit(p, schema, es.value, |buf|);
    }
  }

  lemma NoWeight(kinds: map<nat, Kind>)
    ensures EntriesWeight(kinds, []) == 0
  {
  }

  /******* An accented tree weighs more than its size pass says *******/

  /** The reader declares every field at every depth. */
  predicate Known(p: Program, n: Node, t: Type)
    decreases n
  {
    && Matches(p, n, t)
    && (n.Message? ==> forall i :: 0 <= i < |n.fields| ==>
          n.fields[i].number in SchemaOf(p, t.name) && Known(p, n.fields[i], SchemaOf(p, t.name)[n.fields[i].number]))
  }

  predicate AllKnown(p: Program, ns: seq<Node>, schema: Schema) {
    forall i :: 0 <= i < |ns| ==> ns[i].number in schema && Known(p, ns[i], schema[ns[i].number])
  }

  /** Heavier than the size pass says by what the accents add. */
  ghost predicate Outweighs(weight: nat, size: nat, ascii: bool) {
    weight >= size && (!ascii ==> weight > size)
  }

  lemma {:induction false} TextOutweighs(p: Program, n: Node)
    requires n.Text? && ValidNode(n) && NodeFields(Python, n) != []
    ensures Outweighs(|Encode(8 * n.number)| + Delimited(|Utf8All(n.chars)|), NodeSize(Python, n), NodeAscii(n))
  {
    hide Encode, PySize;
    Utf8Length(n.chars);
    DelimitedGrows(|n.chars|, |Utf8All(n.chars)|);
    TagWeighs(n.number, BytesWire);
    PySizeIsLength(|n.chars|);
  }

  lemma TagWeighs(number: nat, wire: Wire)
    ensures TagSize(Python, number, wire) == |Encode(8 * number)|
  {
    hide Encode, PySize;
    TagLength(number, WireNumber(wire));
    PySizeIsLength(8 * number + WireNumber(wire));
  }

  lemma {:induction false} NumberOutweighs(p: Program, n: Node, t: Type)
    requires ValidNode(n) && Matches(p, n, t) && !n.Text? && !n.Message? && NodeFields(Python, n) != []
    ensures NodeSize(Python, n) == |Encode(8 * n.number)| + ValueWeight(p, t, TreeOfNode(Python, p, n, t))
  {
    hide Encode, PySize, TagSize;
    match n
    case Unsigned(k, u) =>
      TagWeighs(k, VarintWire);
      PySizeIsLength(u);
    case Signed(k, v) =>
      TagWeighs(k, VarintWire);
      PySizeIsLength(v % U64);
    case Zigzag(k, v) =>
      TagWeighs(k, VarintWire);
      PySizeIsLength(ZigzagOf(v));
    case Fixed(k, wire, raw) =>
      TagWeighs(k, wire);
    case Blob(k, data) =>
      TagWeighs(k, BytesWire);
      PySizeIsLength(|data|);
  }

  lemma {:induction false} NodeOutweighs(p: Program, n: Node, t: Type)
    requires ValidNode(n) && Known(p, n, t) && NodeFields(Python, n) != []
    ensures Outweighs(|Encode(8 * n.number)| + ValueWeight(p, t, TreeOfNode(Python, p, n, t)),
                      NodeSize(Python, n), NodeAscii(n))
    decreases n, 1
  {
    hide Encode, PySize, TagSize, TreeOf, Weight, AllAscii, Size, Utf8All, MessageBytes;
    if n.Text? {
      TextOutweighs(p, n);
    } else if n.Message? {
      var inner := SchemaOf(p, t.name);
      TreeOutweighs(p, n.fields, inner);
      DelimitedGrows(Size(Python, n.fields), Weight(p, inner, TreeOf(Python, p, n.fields, inner)));
      TagWeighs(n.number, BytesWire);
      PySizeIsLength(Size(Python, n.fields));
    } else {
      NumberOutweighs(p, n, t);
    }
  }

  lemma NothingWritten(n: Node)
    requires ValidNode(n) && NodeFields(Python, n) == []
    ensures NodeSize(Python, n) == 0 && NodeAscii(n)
  {
    hide AllAscii, MessageBytes, Size;
    if n.Message? {
      SizeZeroIsAscii(n.fields);
    }
  }

  lemma SizeZeroIsAscii(ns: seq<Node>)
    requires (forall i :: 0 <= i < |ns| ==> ValidNode(ns[i])) && Size(Python, ns) == 0
    ensures AllAscii(ns)
  {
    hide Size, AllAscii, MessageBytes;
    MessageSound(Python, ns);
  }

  /** What a tree weighs, against what the size pass says of it. */
  lemma {:induction false} TreeOutweighs(p: Program, ns: seq<Node>, schema: Schema)
    requires (forall i :: 0 <= i < |ns| ==> ValidNode(ns[i])) && AllKnown(p, ns, schema)
    ensures Outweighs(Weight(p, schema, TreeOf(Python, p, ns, schema)), Size(Python, ns), AllAscii(ns))
    decreases ns, 0
  {
    hide Encode, NodeFields, NodeSize, NodeAscii, ValidNode, Known, TreeOfNode, ValueWeight, IsDefault;
    if ns != [] {
      hide TreeOf, AllAscii, AllKnown, Weight;
      var n, rest := ns[0], ns[1..];
      KnownParts(p, ns, schema);
      AsciiParts(ns);
      TreeOutweighs(p, rest, schema);
      LeftOutIff(Python, n);
      var later := TreeOf(Python, p, rest, schema);
      TreeParts(p, ns, schema);
      if NodeFields(Python, n) == [] {
        NothingWritten(n);
        assert [] + later == later;
      } else {
        NodeOutweighs(p, n, schema[n.number]);
        WeightOnto(p, schema, TreeEntry(n.number, TreeOfNode(Python, p, n, schema[n.number])), later);
      }
    }
  }

  lemma KnownParts(p: Program, ns: seq<Node>, schema: Schema)
    requires ns != [] && AllKnown(p, ns, schema)
    ensures ns[0].number in schema && Known(p, ns[0], schema[ns[0].number]) && AllKnown(p, ns[1..], schema)
  {
    hide Known;
    assert forall i :: 1 <= i < |ns| ==> ns[i] == ns[1..][i - 1];
  }

  lemma AsciiParts(ns: seq<Node>)
    requires ns != []
    ensures AllAscii(ns) <==> NodeAscii(ns[0]) && AllAscii(ns[1..])
  {
    hide NodeAscii;
    assert forall i :: 1 <= i < |ns| ==> ns[i] == ns[1..][i - 1];
  }

  lemma {:induction false} TreeParts(p: Program, ns: seq<Node>, schema: Schema)
    requires ns != [] && ns[0].number in schema
    ensures TreeOf(Python, p, ns, schema)
      == (if IsDefault(Python, ns[0]) then []
          else [TreeEntry(ns[0].number, TreeOfNode(Python, p, ns[0], schema[ns[0].number]))])
         + TreeOf(Python, p, ns[1..], schema)
  {
    hide IsDefault, TreeOfNode;
  }

  lemma WeightOnto(p: Program, schema: Schema, e: TreeEntry, es: seq<TreeEntry>)
    ensures Weight(p, schema, [e] + es) == EntryWeight(p, schema, e) + Weight(p, schema, es)
  {
    hide EntryWeight;
    assert ([e] + es)[1..] == es && ([e] + es)[0] == e;
  }

  /******* What the reader then sees *******/

  /** A view as long as the size pass says never yields an accented tree. */
  lemma ViewDiffers(p: Program, name: string, ns: seq<Node>, view: seq<byte>)
    requires (forall i :: 0 <= i < |ns| ==> ValidNode(ns[i])) && AllKnown(p, ns, SchemaOf(p, name))
    requires !AllAscii(ns) && |view| == Size(Python, ns)
    ensures ReadTree(p, name, view) != Some(TreeOf(Python, p, ns, SchemaOf(p, name)))
  {
    hide Size, AllAscii, ReadTree, TreeOf, Weight, ValidNode, Known;
    TreeOutweighs(p, ns, SchemaOf(p, name));
    TreeFits(p, name, view);
  }

  lemma {:induction false} ReadSplit(p: Program, schema: Schema, e: Entry, es: seq<Entry>, bound: nat, x: TreeEntry,
      rest: seq<TreeEntry>)
    requires AllTyped([e] + es, Kinds(schema), bound) && Typed(e, Kinds(schema), bound)
    requires AllTyped(es, Kinds(schema), bound)
    requires ReadEntries(p, schema, [e] + es, bound) == Some([x] + rest)
    ensures ReadValue(p, schema[e.number], e.value, bound) == Some(x.value)
    ensures ReadEntries(p, schema, es, bound) == Some(rest)
  {
    hide ReadValue;
    var value, later := ReadValue(p, schema[e.number], e.value, bound), ReadEntries(p, schema, es, bound);
    assert ([e] + es)[1..] == es && ([e] + es)[0] == e;
    assert [TreeEntry(e.number, value.value)] + later.value == [x] + rest;
    assert ([x] + rest)[0] == x && ([x] + rest)[1..] == rest;
    assert ([TreeEntry(e.number, value.value)] + later.value)[1..] == later.value;
  }

  /** A nested message as the reader of its parent sees it: as many bytes as the length says. */
  lemma ShortView(buf: seq<byte>, offset: nat, length: nat, data: seq<byte>)
    requires length <= |data| && length < U64 && At(buf, offset, Encode(length) + data)
    ensures ReadKnown(buf, offset, BytesKind) == Some(Sized(Raw(data[..length]), |Encode(length)| + length))
  {
    hide Encode, PyDecode;
    AtSplit(buf, offset, Encode(length), data);
    DecodeRoundTrip(buf, offset, length);
    var start := offset + |Encode(length)|;
    assert buf[start..start + |data|][..length] == buf[start..start + length];
  }

  predicate Spoilt(n: Node) {
    n.Message? && !AllAscii(n.fields)
  }

  /** What the loop makes of a nested message with accents. */
  lemma {:induction false} SpoiltField(p: Program, buf: seq<byte>, offset: nat, n: Node, schema: Schema)
      returns (view: seq<byte>, next: nat)
    requires Spoilt(n) && ValidNode(n) && n.number in schema && schema[n.number].MessageType?
    requires At(buf, offset, NodeBytes(Python, n)) && |NodeBytes(Python, n)| < U64
    ensures |view| == Size(Python, n.fields) && NodeFields(Python, n) != []
    ensures Parse(buf, offset, Kinds(schema)) == Onto([Entry(n.number, Raw(view))], Parse(buf, next, Kinds(schema)))
  {
    hide Encode, TagOf, TagBytes, MessageBytes, Size, AllAscii, Parse, ReadTag, ReadKnown, At, WireReader.Skip;
    var size, data, tag := Size(Python, n.fields), MessageBytes(Python, n.fields), TagBytes(n.number, BytesWire);
    MessageSound(Python, n.fields);
    TagOfIsTagBytes(Python, n.number, BytesWire);
    assert NodeBytes(Python, n) == tag + Encode(size) + data == tag + (Encode(size) + data);
    AtSplit(buf, offset, tag, Encode(size) + data);
    TagRoundTrip(buf, offset, n.number, BytesWire);
    ShortView(buf, offset + |tag|, size, data);
    view := data[..size];
    next := offset + |tag| + |Encode(size)| + size;
    ParseOneField(buf, offset, Kinds(schema), Tag(n.number, BytesWire, |tag|), next, Raw(view));
  }

  /** What the loop makes of any other field. */
  lemma {:induction false} SoundField(p: Program, buf: seq<byte>, offset: nat, n: Node, schema: Schema)
    requires WritableNode(Python, n) && NodeFields(Python, n) != []
    requires n.number in schema && Matches(p, n, schema[n.number]) && At(buf, offset, NodeBytes(Python, n))
    ensures Parse(buf, offset, Kinds(schema))
      == Onto([Entry(n.number, ValueOf(NodeFields(Python, n)[0].payload))],
              Parse(buf, offset + |NodeBytes(Python, n)|, Kinds(schema)))
  {
    hide TagBytes, PayloadBytes, Parse, ReadTag, ReadKnown, At, WireReader.Skip, NodeBytes, NodeFields, WritableNode,
      Matches, WellFormed, FieldsBytes;
    NodeIsField(Python, n);
    OneOrNoField(Python, n);
    NodeConforms(Python, p, n, schema);
    var f := NodeFields(Python, n)[0];
    assert NodeFields(Python, n) == [f];
    OneField(f);
    NumberInRange(f);
    var tag := TagBytes(f.number, PayloadWire(f.payload));
    AtSplit(buf, offset, tag, PayloadBytes(f));
    TagRoundTrip(buf, offset, f.number, PayloadWire(f.payload));
    ReadKnownRoundTrip(buf, offset + |tag|, f);
    ParseOneField(buf, offset, Kinds(schema), Tag(f.number, PayloadWire(f.payload), |tag|),
                  offset + |tag| + |PayloadBytes(f)|, ValueOf(f.payload));
  }

  lemma KnownInside(p: Program, n: Node, t: Type)
    requires n.Message? && Known(p, n, t)
    ensures t.MessageType? && AllKnown(p, n.fields, SchemaOf(p, t.name))
  {
  }

  lemma ReadBranch(p: Program, t: Type, view: seq<byte>, bound: nat, entries: seq<TreeEntry>)
    requires t.MessageType? && |view| < bound && ReadValue(p, t, Raw(view), bound) == Some(Branch(entries))
    ensures ReadTree(p, t.name, view) == Some(entries)
  {
    hide ReadTree;
  }

  /** The first nested message with accents is not read as itself. */
  lemma {:induction false} SpoiltFirst(p: Program, buf: seq<byte>, offset: nat, ns: seq<Node>, schema: Schema,
      bound: nat)
    requires ns != [] && Spoilt(ns[0]) && ValidNode(ns[0]) && |NodeBytes(Python, ns[0])| < U64
    requires ns[0].number in schema && Known(p, ns[0], schema[ns[0].number])
    requires At(buf, offset, NodeBytes(Python, ns[0]))
    requires var es := Parse(buf, offset, Kinds(schema)); es.Some? && AllTyped(es.value, Kinds(schema), bound)
    ensures ReadEntries(p, schema, Parse(buf, offset, Kinds(schema)).value, bound)
      != Some(TreeOf(Python, p, ns, schema))
  {
    hide Parse, ReadEntries, ReadValue, NodeBytes, NodeFields, Known, At, ReadTree, AllAscii, Size, AllTyped, IsDefault;
    var n := ns[0];
    var t := schema[n.number];
    KnownInside(p, n, t);
    var view, next := SpoiltField(p, buf, offset, n, schema);
    LeftOutIff(Python, n);
    var later := Parse(buf, next, Kinds(schema)).value;
    var e, rest := Entry(n.number, Raw(view)), TreeOf(Python, p, ns[1..], schema);
    TypedCons(e, later, Kinds(schema), bound);
    var tree := TreeOf(Python, p, n.fields, SchemaOf(p, t.name));
    assert TreeOf(Python, p, ns, schema) == [TreeEntry(n.number, Branch(tree))] + rest;
    hide TreeOf, AllKnown;
    if ReadEntries(p, schema, [e] + later, bound) == Some([TreeEntry(n.number, Branch(tree))] + rest) {
      ReadSplit(p, schema, e, later, bound, TreeEntry(n.number, Branch(tree)), rest);
      ReadBranch(p, t, view, bound, tree);
      ViewDiffers(p, t.name, n.fields, view);
    }
  }

  lemma {:induction false} EntriesDiffer(p: Program, buf: seq<byte>, offset: nat, ns: seq<Node>, schema: Schema,
      bound: nat)
    requires (forall i :: 0 <= i < |ns| ==> ValidNode(ns[i])) && AllKnown(p, ns, schema) && !NestedAscii(ns)
    requires At(buf, offset, MessageBytes(Python, ns)) && |MessageBytes(Python, ns)| < U64
    requires var es := Parse(buf, offset, Kinds(schema)); es.Some? && AllTyped(es.value, Kinds(schema), bound)
    ensures ReadEntries(p, schema, Parse(buf, offset, Kinds(schema)).value, bound)
      != Some(TreeOf(Python, p, ns, schema))
    decreases |ns|
  {
    hide Parse, ReadEntries, ReadValue, NodeBytes, NodeFields, Known, At, AllAscii, AllTyped, ValidNode, TreeOfNode,
      IsDefault;
    var n, rest := ns[0], ns[1..];
    LeftOutIff(Python, n);
    assert forall i :: 1 <= i < |ns| ==> ns[i] == rest[i - 1];
    AtSplit(buf, offset, NodeBytes(Python, n), MessageBytes(Python, rest));
    if Spoilt(n) {
      SpoiltFirst(p, buf, offset, ns, schema, bound);
    } else if NodeFields(Python, n) == [] {
      NoBytes(n);
      assert [] + TreeOf(Python, p, rest, schema) == TreeOf(Python, p, rest, schema);
      EntriesDiffer(p, buf, offset, rest, schema, bound);
    } else {
      KnownMatches(p, n, schema[n.number]);
      SoundField(p, buf, offset, n, schema);
      var next := offset + |NodeBytes(Python, n)|;
      var e, later := Entry(n.number, ValueOf(NodeFields(Python, n)[0].payload)), Parse(buf, next, Kinds(schema)).value;
      TypedCons(e, later, Kinds(schema), bound);
      EntriesDiffer(p, buf, next, rest, schema, bound);
      var x := TreeEntry(n.number, TreeOfNode(Python, p, n, schema[n.number]));
      if ReadEntries(p, schema, [e] + later, bound) == Some([x] + TreeOf(Python, p, rest, schema)) {
        ReadSplit(p, schema, e, later, bound, x, TreeOf(Python, p, rest, schema));
      }
    }
  }

  lemma NoBytes(n: Node)
    requires ValidNode(n) && NodeFields(Python, n) == []
    ensures NodeBytes(Python, n) == []
  {
    hide MessageBytes, Size, Utf8All;
  }

  lemma KnownMatches(p: Program, n: Node, t: Type)
    requires Known(p, n, t)
    ensures Matches(p, n, t)
  {
  }

  /** To a reader that declares every field, a Python message with accents inside a nested message is lost: it
      is never read back as the tree that was written. */
  lemma AccentsBelowAreLost(p: Program, ns: seq<Node>, name: string)
    requires (forall i :: 0 <= i < |ns| ==> ValidNode(ns[i])) && AllKnown(p, ns, SchemaOf(p, name))
    requires |MessageBytes(Python, ns)| < U64 && !NestedAscii(ns)
    ensures ReadTree(p, name, MessageBytes(Python, ns)) != Some(TreeOf(Python, p, ns, SchemaOf(p, name)))
  {
    hide Parse, ReadEntries, MessageBytes, TreeOf, AllTyped, ValidNode, Known;
    var schema, buf := SchemaOf(p, name), MessageBytes(Python, ns);
    ParsedIsTyped(buf, 0, Kinds(schema));
    assert buf[0..0 + |buf|] == buf;
    assert ns[0].number in Kinds(schema);
    if Parse(buf, 0, Kinds(schema)).Some? {
      EntriesDiffer(p, buf, 0, ns, schema, |buf|);
    }
  }

  /** For such a reader a Python message comes back if and only if the strings of its nested messages are
      ASCII. */
  lemma PythonRoundTripIff(p: Program, ns: seq<Node>, name: string)
    requires (forall i :: 0 <= i < |ns| ==> ValidNode(ns[i])) && AllKnown(p, ns, SchemaOf(p, name))
    requires |MessageBytes(Python, ns)| < U64
    ensures ReadTree(p, name, MessageBytes(Python, ns)) == Some(TreeOf(Python, p, ns, SchemaOf(p, name)))
      <==> NestedAscii(ns)
  {
    hide ReadTree, MessageBytes, TreeOf, ValidNode, NestedAscii;
    if NestedAscii(ns) {
      forall i | 0 <= i < |ns| ensures Matches(p, ns[i], SchemaOf(p, name)[ns[i].number]) {
        KnownMatches(p, ns[i], SchemaOf(p, name)[ns[i].number]);
      }
      TreeRoundTrip(Python, p, ns, name);
    } else {
      AccentsBelowAreLost(p, ns, name);
    }
  }

  /******* One accented letter *******/

  lemma SmallCode(n: nat)
    requires n < 128
    ensures Encode(n) == [n] && PySize(n) == 1
  {
    SmallNumber(n);
  }

  lemma LetterUtf8()
    ensures Utf8All([233]) == [195, 169]
  {
    assert Utf8All([233]) == Utf8(233) + Utf8All([]);
  }

  lemma LetterBytes()
    ensures var letter := Text(1, [233]);
      NodeBytes(Python, letter) == [10, 2, 195, 169] && NodeSize(Python, letter) == 3 && NodeFits(letter, 2, 5)
  {
    hide Encode, PySize, Utf8All;
    LetterUtf8();
    SmallCode(10);
    SmallCode(2);
    SmallCode(1);
    assert NodeBytes(Python, Text(1, [233])) == [10] + [2] + [195, 169];
  }

  lemma OneNode(n: Node)
    ensures Size(Python, [n]) == NodeSize(Python, n) && MessageBytes(Python, [n]) == NodeBytes(Python, n)
    ensures forall at, capacity: nat :: MessageFits([n], at, capacity) == NodeFits(n, at, capacity)
  {
    hide NodeSize, NodeBytes, NodeFits;
    assert [n][1..] == [];
    assert MessageBytes(Python, [n]) == NodeBytes(Python, n) + [];
  }

  lemma NestedLetterBytes()
    ensures var n := Message(1, [Text(1, [233])], false);
      && NodeBytes(Python, n) == [10, 3, 10, 2, 195, 169]
      && NodeSize(Python, n) == 5 && NodeFits(n, 0, 5)
  {
    hide Encode, PySize, Size, MessageBytes, MessageFits;
    LetterBytes();
    OneNode(Text(1, [233]));
    SmallCode(10);
    SmallCode(3);
    assert NodeBytes(Python, Message(1, [Text(1, [233])], false)) == [10] + [3] + [10, 2, 195, 169];
  }

  /** The reader takes three of the four nested bytes and trips over the last. */
  lemma ShortLengthIsRejected()
    ensures Parse([10, 3, 10, 2, 195, 169], 0, map[1 := BytesKind]).None?
  {
    hide Encode, ReadKnown, Parse, ReadTag, WireReader.Skip;
    var buf: seq<byte> := [10, 3, 10, 2, 195, 169];
    var data: seq<byte> := [10, 2, 195, 169];
    SmallCode(10);
    SmallCode(3);
    assert buf[0..1] == [10] && buf[1..6] == [3] + data;
    TagRoundTrip(buf, 0, 1, BytesWire);
    ShortView(buf, 1, 3, data);
    LoneByte(buf, 5, map[1 := BytesKind]);
    ParseOneField(buf, 0, map[1 := BytesKind], Tag(1, BytesWire, 1), 5, Raw(data[..3]));
  }

  lemma LoneByte(buf: seq<byte>, offset: nat, kinds: map<nat, Kind>)
    requires offset + 1 == |buf| && buf[offset] >= 128
    ensures Parse(buf, offset, kinds).None?
  {
    hide PyDecodeFrom, WireReader.Skip, ReadKnown;
    PyByte(buf, offset, 1);
    PyContinues(buf, offset, 0);
  }

  /** Inside a nested message one accented letter makes `encode` return bytes that the reader rejects. */
  lemma NestedLetterIsRejected()
    ensures var ns := [Message(1, [Text(1, [233])], false)];
      && MessageFits(ns, 0, Size(Python, ns))
      && MessageBytes(Python, ns) == [10, 3, 10, 2, 195, 169]
      && ReadFields(MessageBytes(Python, ns), map[1 := BytesKind]).None?
  {
    hide NodeBytes, NodeSize, NodeFits, Size, MessageBytes, MessageFits, Parse;
    NestedLetterBytes();
    OneNode(Message(1, [Text(1, [233])], false));
    ShortLengthIsRejected();
    assert 1 in map[1 := BytesKind];
  }
}
