/** Whole message trees: a generated reader keeps a nested message as the bytes of its field and parses
    it with the nested reader when it is asked for.  Read to the bottom, a written tree comes back. */
module MessageTree {
  import opened Wrappers
  import opened Bytes
  import opened Varint
  import opened WireReader
  import opened MessageSize
  import opened WireRoundTrip

  /** The declared type of a field; a message type by its name. */
  datatype Type =
    | UnsignedType
    | SignedType
    | ZigzagType
    | Fixed32Type
    | Fixed64Type
    | BytesType
    | MessageType(name: string)

  type Schema = map<nat, Type>

  /** The message types of a program, which may refer to themselves and to each other. */
  type Program = map<string, Schema>

  function SchemaOf(p: Program, name: string): Schema {
    if name in p then p[name] else map[]
  }

  /** A value as the getters hand it out; strings as their UTF-8 bytes, fixed-width numbers as their
      little-endian bytes. */
  datatype Tree = Leaf(n: int) | RawLeaf(bytes: seq<byte>) | Branch(entries: seq<TreeEntry>)
  datatype TreeEntry = TreeEntry(number: nat, value: Tree)

  function KindFor(t: Type): Kind {
    match t
    case UnsignedType => VarintKind
    case SignedType => VarintKind
    case ZigzagType => VarintKind
    case Fixed32Type => Fixed32Kind
    case Fixed64Type => Fixed64Kind
    case BytesType => BytesKind
    case MessageType(_) => BytesKind
  }

  function Kinds(s: Schema): map<nat, Kind> {
    map k | k in s :: KindFor(s[k])
  }

  /******* Reading to the bottom *******/

  /** An entry of the shape its declaration asks for, with fewer bytes than `bound`. */
  predicate Typed(e: Entry, kinds: map<nat, Kind>, bound: int) {
    && e.number in kinds
    && (e.value.Number? <==> kinds[e.number] == VarintKind)
    && (e.value.Raw? ==> |e.value.bytes| < bound)
  }

  predicate AllTyped(es: seq<Entry>, kinds: map<nat, Kind>, bound: int) {
    forall i :: 0 <= i < |es| ==> Typed(es[i], kinds, bound)
  }

  /** A field read behind a tag has its declared shape and fewer bytes than the buffer. */
  lemma KnownIsTyped(buf: seq<byte>, body: nat, kind: Kind)
    requires body > 0
    ensures var r := ReadKnown(buf, body, kind);
      r.Some? ==>
        (r.value.value.Number? <==> kind == VarintKind) && (r.value.value.Raw? ==> |r.value.value.bytes| < |buf|)
  {
    hide PyDecodeFrom;
  }

  /** Everything the loop keeps is declared, and shorter than what it was found in. */
  lemma {:induction false} ParsedIsTyped(buf: seq<byte>, offset: nat, kinds: map<nat, Kind>)
    ensures Parse(buf, offset, kinds).Some? ==> AllTyped(Parse(buf, offset, kinds).value, kinds, |buf|)
    decreases Room(buf, offset)
  {
    hide Skip, PyDecode, ReadKnown, ReadTag;
    if offset < |buf| && ReadTag(buf, offset).Some? {
      var tag := ReadTag(buf, offset).value;
      var body := offset + tag.size;
      if tag.number in kinds {
        var s := ReadKnown(buf, body, kinds[tag.number]);
        if s.Some? {
          KnownIsTyped(buf, body, kinds[tag.number]);
          ParsedIsTyped(buf, body + s.value.size, kinds);
        }
      } else {
        var next := Skip(buf, body, tag.wire);
        if next.Some? {
          ParsedIsTyped(buf, next.value, kinds);
        }
      }
    }
  }

  /** `read_int64`: the 64-bit pattern as two's complement; a larger value does not pack. */
  function AsSigned(u: nat): Option<int> {
    if u >= U64 then None else if u >= I64 then Some(u - U64) else Some(u)
  }

  function ReadTree(p: Program, name: string, buf: seq<byte>): Option<seq<TreeEntry>>
    decreases |buf|, 1, 0
  {
    var schema := SchemaOf(p, name);
    match ReadFields(buf, Kinds(schema))
    case None => None
    case Some(es) =>
      ParsedIsTyped(buf, 0, Kinds(schema));
      ReadEntries(p, schema, es, |buf|)
  }

  function ReadEntries(p: Program, schema: Schema, es: seq<Entry>, bound: nat): Option<seq<TreeEntry>>
    requires AllTyped(es, Kinds(schema), bound)
    decreases bound, 0, |es|
  {
    if es == [] then Some([])
    else
      var value := ReadValue(p, schema[es[0].number], es[0].value, bound);
      var rest := ReadEntries(p, schema, es[1..], bound);
      if value.None? || rest.None? then None else Some([TreeEntry(es[0].number, value.value)] + rest.value)
  }

  function ReadValue(p: Program, t: Type, v: Value, bound: nat): Option<Tree>
    requires v.Number? <==> KindFor(t) == VarintKind
    requires v.Raw? ==> |v.bytes| < bound
    decreases bound, 0, 0
  {
    match t
    case UnsignedType => Some(Leaf(v.n))
    case SignedType => (match AsSigned(v.n) case None => None case Some(n) => Some(Leaf(n)))
    case ZigzagType => Some(Leaf(PyUnzigzag(v.n)))
    case MessageType(name) => (match ReadTree(p, name, v.bytes) case None => None case Some(es) => Some(Branch(es)))
    case _ => Some(RawLeaf(v.bytes))
  }

  /******* What was written *******/

  /** A node carries the type its reader declares for it, all the way down. */
  predicate Matches(p: Program, n: Node, t: Type)
    decreases n
  {
    match n
    case Unsigned(_, _) => t == UnsignedType
    case Signed(_, _) => t == SignedType
    case Zigzag(_, _) => t == ZigzagType
    case Fixed(_, wire, _) => t == if wire == Fixed32Wire then Fixed32Type else Fixed64Type
    case Blob(_, _) => t == BytesType
    case Text(_, _) => t == BytesType
    case Message(_, fields, _) =>
      && t.MessageType?
      && forall i :: 0 <= i < |fields| && fields[i].number in SchemaOf(p, t.name) ==>
           Matches(p, fields[i], SchemaOf(p, t.name)[fields[i].number])
  }

  predicate AllMatch(p: Program, ns: seq<Node>, schema: Schema) {
    forall i :: 0 <= i < |ns| && ns[i].number in schema ==> Matches(p, ns[i], schema[ns[i].number])
  }

  /** The values of a node's own fields, without any bytes in between. */
  function TreeOfNode(d: Dialect, p: Program, n: Node, t: Type): Tree
    decreases n, 1
  {
    match n
    case Unsigned(_, u) => Leaf(u)
    case Signed(_, v) => Leaf(v)
    case Zigzag(_, v) => Leaf(v)
    case Fixed(_, _, raw) => RawLeaf(raw)
    case Blob(_, data) => RawLeaf(data)
    case Text(_, chars) => RawLeaf(Utf8All(chars))
    case Message(_, fields, _) => Branch(if t.MessageType? then TreeOf(d, p, fields, SchemaOf(p, t.name)) else [])
  }

  /** The known fields of a message that are not left out, in order. */
  function TreeOf(d: Dialect, p: Program, ns: seq<Node>, schema: Schema): seq<TreeEntry>
    decreases ns, 0
  {
    if ns == [] then []
    else
      (if !IsDefault(d, ns[0]) && ns[0].number in schema
       then [TreeEntry(ns[0].number, TreeOfNode(d, p, ns[0], schema[ns[0].number]))] else [])
      + TreeOf(d, p, ns[1..], schema)
  }

  lemma OneOrNoField(d: Dialect, n: Node)
    ensures NodeFields(d, n) == [] || (|NodeFields(d, n)| == 1 && NodeFields(d, n)[0].number == n.number)
  {
    hide Size, MessageBytes, Utf8All;
  }

  lemma {:induction false} KnownOfNode(d: Dialect, ns: seq<Node>, kinds: map<nat, Kind>)
    requires ns != []
    ensures KnownEntries(WireFields(d, ns), kinds)
      == (if NodeFields(d, ns[0]) != [] && ns[0].number in kinds
          then [Entry(ns[0].number, ValueOf(NodeFields(d, ns[0])[0].payload))] else [])
         + KnownEntries(WireFields(d, ns[1..]), kinds)
  {
    hide NodeFields, ValueOf;
    OneOrNoField(d, ns[0]);
    var rest := WireFields(d, ns[1..]);
    if NodeFields(d, ns[0]) == [] {
      assert [] + rest == rest && [] + KnownEntries(rest, kinds) == KnownEntries(rest, kinds);
    } else {
      var f := NodeFields(d, ns[0])[0];
      assert NodeFields(d, ns[0]) == [f];
      assert ([f] + rest)[1..] == rest;
    }
  }

  lemma SignedBack(v: int)
    requires IsInt64(v)
    ensures AsSigned(v % U64) == Some(v)
  {
  }

  /** A written node's value is read back. */
  lemma {:induction false} NodeComesBack(d: Dialect, p: Program, n: Node, t: Type, bound: nat)
    requires WritableNode(d, n)
    requires Matches(p, n, t) && NodeFields(d, n) != []
    requires var v := ValueOf(NodeFields(d, n)[0].payload); v.Raw? ==> |v.bytes| < bound
    ensures var v := ValueOf(NodeFields(d, n)[0].payload);
      (v.Number? <==> KindFor(t) == VarintKind) && ReadValue(p, t, v, bound) == Some(TreeOfNode(d, p, n, t))
    decreases n, 1
  {
    hide Utf8All, MessageBytes, NodeSize, NodeBytes, Size, ReadTree;
    match n
    case Signed(_, v) => SignedBack(v);
    case Zigzag(_, v) => ZigzagRoundTrip(v);
    case Message(_, fields, _) =>
      WritableInside(d, n);
      TreeRoundTrip(d, p, fields, t.name);
    case _ =>
  }

  lemma TypedCons(e: Entry, es: seq<Entry>, kinds: map<nat, Kind>, bound: nat)
    requires AllTyped([e] + es, kinds, bound)
    ensures Typed(e, kinds, bound) && AllTyped(es, kinds, bound)
  {
    hide Typed;
    assert ([e] + es)[0] == e;
    assert forall i :: 0 <= i < |es| ==> es[i] == ([e] + es)[i + 1];
  }

  lemma {:induction false} ReadCons(p: Program, schema: Schema, e: Entry, es: seq<Entry>, bound: nat, value: Tree,
      rest: seq<TreeEntry>)
    requires AllTyped([e] + es, Kinds(schema), bound) && Typed(e, Kinds(schema), bound)
      && AllTyped(es, Kinds(schema), bound)
    requires ReadValue(p, schema[e.number], e.value, bound) == Some(value)
    requires ReadEntries(p, schema, es, bound) == Some(rest)
    ensures ReadEntries(p, schema, [e] + es, bound) == Some([TreeEntry(e.number, value)] + rest)
  {
    hide ReadValue;
    assert ([e] + es)[1..] == es && ([e] + es)[0] == e;
  }

  lemma {:induction false} EntriesComeBack(d: Dialect, p: Program, ns: seq<Node>, schema: Schema, bound: nat)
    requires Writable(d, ns) && AllMatch(p, ns, schema)
    requires AllTyped(KnownEntries(WireFields(d, ns), Kinds(schema)), Kinds(schema), bound)
    ensures ReadEntries(p, schema, KnownEntries(WireFields(d, ns), Kinds(schema)), bound)
      == Some(TreeOf(d, p, ns, schema))
    decreases ns, 0
  {
    if ns != [] {
      hide NodeFields, WritableNode, ValidNode, IsDefault, Matches, ReadValue, TreeOfNode, WireFields, KnownEntries,
        ReadEntries, AllTyped, Writable, AllMatch;
      var n, rest := ns[0], ns[1..];
      var later := KnownEntries(WireFields(d, rest), Kinds(schema));
      KnownOfNode(d, ns, Kinds(schema));
      RestIsWritable(d, p, ns, schema);
      assert ValidNode(n) by { WritableIsValid(d, n); }
      LeftOutIff(d, n);
      if NodeFields(d, n) != [] && n.number in schema {
        var e := Entry(n.number, ValueOf(NodeFields(d, n)[0].payload));
        TypedCons(e, later, Kinds(schema), bound);
        EntriesComeBack(d, p, rest, schema, bound);
        NodeComesBack(d, p, n, schema[n.number], bound);
        ReadCons(p, schema, e, later, bound, TreeOfNode(d, p, n, schema[n.number]), TreeOf(d, p, rest, schema));
      } else {
        assert [] + later == later && [] + TreeOf(d, p, rest, schema) == TreeOf(d, p, rest, schema);
        EntriesComeBack(d, p, rest, schema, bound);
      }
    }
  }

  lemma WritableIsValid(d: Dialect, n: Node)
    requires WritableNode(d, n)
    ensures ValidNode(n)
  {
  }

  lemma RestIsWritable(d: Dialect, p: Program, ns: seq<Node>, schema: Schema)
    requires ns != [] && Writable(d, ns) && AllMatch(p, ns, schema)
    ensures Writable(d, ns[1..]) && AllMatch(p, ns[1..], schema)
    ensures WritableNode(d, ns[0])
    ensures ns[0].number in schema ==> Matches(p, ns[0], schema[ns[0].number])
  {
    hide WritableNode, Writable, Matches;
    WritableParts(d, ns);
    assert forall i :: 1 <= i < |ns| ==> ns[i] == ns[1..][i - 1];
  }

  /** A whole tree written by either half is read back to the bottom: every known field at every depth,
      with its own value, in order. */
  lemma {:induction false} TreeRoundTrip(d: Dialect, p: Program, ns: seq<Node>, name: string)
    requires Writable(d, ns) && AllMatch(p, ns, SchemaOf(p, name))
    ensures ReadTree(p, name, MessageBytes(d, ns)) == Some(TreeOf(d, p, ns, SchemaOf(p, name)))
    decreases ns, 1
  {
    var schema, buf := SchemaOf(p, name), MessageBytes(d, ns);
    FieldsConform(d, p, ns, schema);
    WrittenMessageIsRead(d, ns, Kinds(schema));
    hide MessageBytes, WireFields, KnownEntries, TreeOf, ReadEntries;
    ParsedIsTyped(buf, 0, Kinds(schema));
    EntriesComeBack(d, p, ns, schema, |buf|);
  }

  lemma {:induction false} FieldsConform(d: Dialect, p: Program, ns: seq<Node>, schema: Schema)
    requires AllMatch(p, ns, schema)
    ensures forall f <- WireFields(d, ns) :: f.number in Kinds(schema) ==>
      KindOf(f.payload) == Some(Kinds(schema)[f.number])
    decreases |ns|
  {
    if ns != [] {
      hide NodeSize, MessageBytes;
      assert AllMatch(p, ns[1..], schema) by {
        hide Matches;
        assert forall i :: 1 <= i < |ns| ==> ns[i] == ns[1..][i - 1];
      }
      FieldsConform(d, p, ns[1..], schema);
      NodeConforms(d, p, ns[0], schema);
    }
  }

  lemma NodeConforms(d: Dialect, p: Program, n: Node, schema: Schema)
    requires n.number in schema ==> Matches(p, n, schema[n.number])
    ensures forall f <- NodeFields(d, n) :: f.number in Kinds(schema) ==>
      KindOf(f.payload) == Some(Kinds(schema)[f.number])
  {
    hide Size, MessageBytes, Utf8All;
  }
}
