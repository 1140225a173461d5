/** Messages as generated code writes them: a size pass, a buffer of exactly that size, and a write
    pass that repeats the size pass for every nested message. */
module MessageSize {
  import opened Bytes
  import opened Varint
  import opened WireReader

  /** The two code generators. */
  datatype Dialect = Python | Go

  /** A Unicode scalar value. */
  type rune = c: int | 0 <= c < 0xD800 || 0xE000 <= c < 0x11_0000

  /** A set field of a message.  `keepEmpty` marks an element of a repeated message field. */
  datatype Node =
    | Unsigned(number: nat, u: u64)
    | Signed(number: nat, v: int)
    | Zigzag(number: nat, v: int)
    | Fixed(number: nat, wire: Wire, raw: seq<byte>)
    | Blob(number: nat, data: seq<byte>)
    | Text(number: nat, chars: seq<rune>)
    | Message(number: nat, fields: seq<Node>, keepEmpty: bool)

  predicate IsInt64(v: int) {
    -I64 <= v < I64
  }

  predicate ValidNode(n: Node) {
    && n.number <= MAX_I32
    && match n
       case Signed(_, v) => IsInt64(v)
       case Zigzag(_, v) => IsInt64(v)
       case Fixed(_, wire, raw) => (wire == Fixed32Wire && |raw| == 4) || (wire == Fixed64Wire && |raw| == 8)
       case Message(_, fields, _) => forall i :: 0 <= i < |fields| ==> ValidNode(fields[i])
       case _ => true
  }

  function Utf8(c: rune): (r: seq<byte>)
    ensures |r| >= 1 && (|r| == 1 <==> c < 128)
  {
    if c < 0x80 then [c]
    else if c < 0x800 then [192 + c / 64, 128 + c % 64]
    else if c < 0x1_0000 then [224 + c / 4096, 128 + c / 64 % 64, 128 + c % 64]
    else [240 + c / 0x4_0000, 128 + c / 4096 % 64, 128 + c / 64 % 64, 128 + c % 64]
  }

  function Utf8All(s: seq<rune>): (r: seq<byte>)
    ensures |r| >= |s|
  {
    if s == [] then [] else Utf8(s[0]) + Utf8All(s[1..])
  }

  predicate Ascii(s: seq<rune>) {
    forall i :: 0 <= i < |s| ==> s[i] < 128
  }

  predicate AllAscii(ns: seq<Node>)
    decreases ns
  {
    forall i :: 0 <= i < |ns| ==> NodeAscii(ns[i])
  }

  predicate NodeAscii(n: Node)
    decreases n
  {
    match n
    case Text(_, chars) => Ascii(chars)
    case Message(_, fields, _) => AllAscii(fields)
    case _ => true
  }

  /******* The size pass and the bytes *******/

  function VarSize(d: Dialect, n: nat): nat {
    if d.Go? then GoSize(n % U64) else PySize(n)
  }

  function VarBytes(d: Dialect, n: nat): seq<byte> {
    if d.Go? then GoVarint(n % U64) else Encode(n)
  }

  /** Go sizes every tag with wire type 0. */
  function TagSize(d: Dialect, number: nat, wire: Wire): nat {
    VarSize(d, 8 * number + if d.Go? then 0 else WireNumber(wire))
  }

  function TagOf(d: Dialect, number: nat, wire: Wire): seq<byte> {
    VarBytes(d, 8 * number + WireNumber(wire))
  }

  /** The length the size pass takes for a string: Python counts characters, Go counts bytes. */
  function TextLength(d: Dialect, chars: seq<rune>): nat {
    if d.Go? then |Utf8All(chars)| else |chars|
  }

  function NodeSize(d: Dialect, n: Node): nat
    decreases n, 1
  {
    match n
    case Unsigned(k, u) => if u == 0 then 0 else TagSize(d, k, VarintWire) + VarSize(d, u)
    case Signed(k, v) => if v == 0 then 0 else TagSize(d, k, VarintWire) + VarSize(d, v % U64)
    case Zigzag(k, v) =>
      if v == 0 then 0 else TagSize(d, k, VarintWire) + VarSize(d, if v >= 0 then 2 * v else -2 * v - 1)
    case Fixed(k, wire, raw) => if forall b <- raw :: b == 0 then 0 else TagSize(d, k, wire) + |raw|
    case Blob(k, data) => if data == [] then 0 else TagSize(d, k, BytesWire) + VarSize(d, |data|) + |data|
    case Text(k, chars) =>
      if chars == [] then 0 else TagSize(d, k, BytesWire) + VarSize(d, TextLength(d, chars)) + TextLength(d, chars)
    case Message(k, fields, keepEmpty) =>
      var size := Size(d, fields);
      if d.Python? && !keepEmpty && size == 0 then 0 else TagSize(d, k, BytesWire) + VarSize(d, size) + size
  }

  /** `calc_protobuf_size` and `XXX_PbContentSize`. */
  function Size(d: Dialect, ns: seq<Node>): nat
    decreases ns, 0
  {
    if ns == [] then 0 else NodeSize(d, ns[0]) + Size(d, ns[1..])
  }

  function NodeBytes(d: Dialect, n: Node): seq<byte>
    decreases n, 1
  {
    match n
    case Unsigned(k, u) => if u == 0 then [] else TagOf(d, k, VarintWire) + VarBytes(d, u)
    case Signed(k, v) => if v == 0 then [] else TagOf(d, k, VarintWire) + VarBytes(d, v % U64)
    case Zigzag(k, v) => if v == 0 || !IsInt64(v) then [] else TagOf(d, k, VarintWire) + VarBytes(d, GoZigzag(v))
    case Fixed(k, wire, raw) => if forall b <- raw :: b == 0 then [] else TagOf(d, k, wire) + raw
    case Blob(k, data) => if data == [] then [] else TagOf(d, k, BytesWire) + VarBytes(d, |data|) + data
    case Text(k, chars) =>
      if chars == [] then [] else TagOf(d, k, BytesWire) + VarBytes(d, |Utf8All(chars)|) + Utf8All(chars)
    case Message(k, fields, keepEmpty) =>
      var size := Size(d, fields);
      if d.Python? && !keepEmpty && size == 0 then []
      else TagOf(d, k, BytesWire) + VarBytes(d, size) + MessageBytes(d, fields)
  }

  /** What `encode_to` and `MarshalTo` write. */
  function MessageBytes(d: Dialect, ns: seq<Node>): seq<byte>
    decreases ns, 0
  {
    if ns == [] then [] else NodeBytes(d, ns[0]) + MessageBytes(d, ns[1..])
  }

  /******* Size and bytes agree *******/

  lemma VarAgrees(d: Dialect, n: nat)
    requires d.Go? ==> n < U64
    ensures VarBytes(d, n) == Encode(n) && VarSize(d, n) == |Encode(n)|
  {
    hide GoVarint, GoSize, PySize, Encode;
    if d.Go? {
      GoVarintIsEncoding(n);
    } else {
      PySizeIsLength(n);
    }
  }

  lemma TagAgrees(d: Dialect, number: nat, wire: Wire)
    requires number <= MAX_I32
    ensures TagSize(d, number, wire) == |TagOf(d, number, wire)|
  {
    TagLength(number, WireNumber(wire));
    VarAgrees(d, 8 * number + WireNumber(wire));
    VarAgrees(d, 8 * number);
  }

  lemma {:induction false} EncodeMonotone(a: nat, b: nat)
    requires a <= b
    ensures |Encode(a)| <= |Encode(b)|
    decreases b
  {
    if b >= 128 && a >= 128 {
      EncodeMonotone(a / 128, b / 128);
    }
  }

  lemma {:induction false} Utf8Length(s: seq<rune>)
    ensures |Utf8All(s)| == |s| <==> Ascii(s)
  {
    if s != [] {
      Utf8Length(s[1..]);
      assert Ascii(s) <==> s[0] < 128 && Ascii(s[1..]) by {
        assert forall i :: 1 <= i < |s| ==> s[i] == s[1..][i - 1];
      }
    }
  }

  lemma TextSize(d: Dialect, k: nat, chars: seq<rune>)
    requires k <= MAX_I32 && (d.Go? ==> |Utf8All(chars)| < U64)
    ensures var n := Text(k, chars);
      |NodeBytes(d, n)| >= NodeSize(d, n) && (|NodeBytes(d, n)| == NodeSize(d, n) <==> d.Go? || Ascii(chars))
  {
    TagAgrees(d, k, BytesWire);
    VarAgrees(d, |Utf8All(chars)|);
    VarAgrees(d, TextLength(d, chars));
    Utf8Length(chars);
    EncodeMonotone(|chars|, |Utf8All(chars)|);
  }

  /** What holds of a message's two passes: never fewer bytes than its size, and exactly as many when
      the dialect is Go or every string is ASCII, and only then. */
  ghost predicate Sound(d: Dialect, size: nat, bytes: nat, ascii: bool) {
    bytes >= size && (bytes == size <==> d.Go? || ascii) && (size == 0 ==> bytes == 0)
  }

  lemma {:induction false} ScalarSound(d: Dialect, n: Node)
    requires ValidNode(n) && (d.Go? ==> NodeSize(d, n) < U64) && !n.Text? && !n.Message?
    ensures Sound(d, NodeSize(d, n), |NodeBytes(d, n)|, true)
  {
    hide VarSize, VarBytes, TagSize, TagOf, Encode;
    match n
    case Unsigned(k, u) =>
      TagAgrees(d, k, VarintWire);
      VarAgrees(d, u);
    case Signed(k, v) =>
      TagAgrees(d, k, VarintWire);
      VarAgrees(d, v % U64);
    case Zigzag(k, v) =>
      TagAgrees(d, k, VarintWire);
      ZigzagRoundTrip(v);
      VarAgrees(d, GoZigzag(v));
    case Fixed(k, wire, raw) =>
      TagAgrees(d, k, wire);
    case Blob(k, data) =>
      TagAgrees(d, k, BytesWire);
      VarAgrees(d, |data|);
  }

  lemma {:induction false} TextSound(d: Dialect, n: Node)
    requires n.Text? && ValidNode(n) && (d.Go? ==> NodeSize(d, n) < U64)
    ensures Sound(d, NodeSize(d, n), |NodeBytes(d, n)|, NodeAscii(n))
  {
    hide VarSize, VarBytes, TagSize, TagOf;
    Utf8Length(n.chars);
    TextSize(d, n.number, n.chars);
  }

  lemma {:induction false} NodeSound(d: Dialect, n: Node)
    requires ValidNode(n) && (d.Go? ==> NodeSize(d, n) < U64)
    ensures Sound(d, NodeSize(d, n), |NodeBytes(d, n)|, NodeAscii(n))
    decreases n, 1
  {
    hide VarSize, VarBytes, TagSize, TagOf, Encode, MessageBytes, Size, Utf8All;
    match n
    case Text(_, _) =>
      TextSound(d, n);
    case Message(k, fields, keepEmpty) =>
      MessageSound(d, fields);
      TagAgrees(d, k, BytesWire);
      VarAgrees(d, Size(d, fields));
    case _ =>
      hide NodeSize, NodeBytes;
      ScalarSound(d, n);
  }

  lemma {:induction false} MessageSound(d: Dialect, ns: seq<Node>)
    requires (forall i :: 0 <= i < |ns| ==> ValidNode(ns[i])) && (d.Go? ==> Size(d, ns) < U64)
    ensures Sound(d, Size(d, ns), |MessageBytes(d, ns)|, AllAscii(ns))
    decreases ns, 0
  {
    if ns != [] {
      hide NodeSize, NodeBytes, NodeAscii, ValidNode;
      NodeSound(d, ns[0]);
      MessageSound(d, ns[1..]);
      assert AllAscii(ns) <==> NodeAscii(ns[0]) && AllAscii(ns[1..]) by {
        assert forall i :: 1 <= i < |ns| ==> ns[i] == ns[1..][i - 1];
      }
    }
  }
}
