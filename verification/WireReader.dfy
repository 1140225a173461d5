/** Gremlin's Python reader: tags, skipping a field of any wire type, and the loop the code generator
    emits, which keeps the fields it knows and skips the others. */
module WireReader {
  import opened Wrappers
  import opened Bytes
  import opened Varint

  const MAX_I32: int := 0x7fff_ffff

  datatype Wire = VarintWire | Fixed64Wire | BytesWire | StartGroup | EndGroup | Fixed32Wire

  function WireNumber(w: Wire): (n: nat)
    ensures n < 6
  {
    match w
    case VarintWire => 0
    case Fixed64Wire => 1
    case BytesWire => 2
    case StartGroup => 3
    case EndGroup => 4
    case Fixed32Wire => 5
  }

  function WireOf(n: nat): Option<Wire> {
    match n
    case 0 => Some(VarintWire)
    case 1 => Some(Fixed64Wire)
    case 2 => Some(BytesWire)
    case 3 => Some(StartGroup)
    case 4 => Some(EndGroup)
    case 5 => Some(Fixed32Wire)
    case _ => None
  }

  datatype Tag = Tag(number: nat, wire: Wire, size: nat)

  /** `read_tag_at`; `None` stands for the exceptions. */
  function ReadTag(buf: seq<byte>, offset: nat): (r: Option<Tag>)
    ensures r.Some? ==> 1 <= r.value.size && offset + r.value.size <= |buf|
  {
    match PyDecode(buf, offset)
    case None => None
    case Some(d) =>
      if d.value / 8 > MAX_I32 || WireOf(d.value % 8).None? then None
      else Some(Tag(d.value / 8, WireOf(d.value % 8).value, d.size))
  }

  /** `_get_varint_size` from byte `i` on: ten continuation bytes count as ten. */
  function VarintSize(buf: seq<byte>, offset: nat, i: nat): (r: Option<nat>)
    requires i <= 10
    ensures r.Some? ==> r.value >= 1
    decreases 10 - i
  {
    if i == 10 then Some(10)
    else if offset + i >= |buf| then None
    else if buf[offset + i] < 128 then Some(i + 1)
    else VarintSize(buf, offset, i + 1)
  }

  function Room(buf: seq<byte>, offset: nat): nat {
    if offset <= |buf| then |buf| - offset else 0
  }

  /** `skip_data`.  Every call that does not fail moves on by at least one byte, so skipping ends on
      every buffer, however groups nest. */
  function Skip(buf: seq<byte>, offset: nat, wire: Wire): (r: Option<nat>)
    ensures r.Some? ==> r.value > offset
    decreases Room(buf, offset), 1
  {
    match wire
    case VarintWire => (match VarintSize(buf, offset, 0) case None => None case Some(n) => Some(offset + n))
    case Fixed32Wire => Some(offset + 4)
    case Fixed64Wire => Some(offset + 8)
    case BytesWire => (match PyDecode(buf, offset) case None => None case Some(d) => Some(offset + d.size + d.value))
    case StartGroup => SkipGroup(buf, offset)
    case EndGroup => None
  }

  /** The loop inside a group, from `offset` to the end of the matching end tag. */
  function SkipGroup(buf: seq<byte>, offset: nat): (r: Option<nat>)
    ensures r.Some? ==> r.value > offset
    decreases Room(buf, offset), 0
  {
    match ReadTag(buf, offset)
    case None => None
    case Some(tag) =>
      if tag.wire.EndGroup? then Some(offset + tag.size)
      else
        match Skip(buf, offset + tag.size, tag.wire)
        case None => None
        case Some(next) => SkipGroup(buf, next)
  }

  /** `skip_data` with its loop. */
  method SkipData(buf: seq<byte>, offset: nat, wire: Wire) returns (r: Option<nat>)
    ensures r == Skip(buf, offset, wire)
    decreases Room(buf, offset), 1
  {
    hide ReadTag, PyDecode, VarintSize;
    match wire {
      case VarintWire =>
        var size := VarintSize(buf, offset, 0);
        r := if size.None? then None else Some(offset + size.value);
      case Fixed32Wire => r := Some(offset + 4);
      case Fixed64Wire => r := Some(offset + 8);
      case BytesWire =>
        var d := ReadVarintAt(buf, offset);
        r := if d.None? then None else Some(offset + d.value.size + d.value.value);
      case StartGroup =>
        var current := offset;
        while true
          invariant current >= offset && Room(buf, current) <= Room(buf, offset)
          invariant Skip(buf, offset, wire) == SkipGroup(buf, current)
          decreases Room(buf, current)
        {
          var tag := ReadTag(buf, current);
          if tag.None? {
            return None;
          }
          ghost var start := current;
          current := current + tag.value.size;
          if tag.value.wire == EndGroup {
            return Some(current);
          }
          var next := SkipData(buf, current, tag.value.wire);
          if next.None? {
            return None;
          }
          current := next.value;
        }
      case EndGroup => r := None;
    }
  }

  /******* Fields on the wire *******/

  datatype Payload =
    | VarintValue(v: u64)
    | Fixed32Value(four: seq<byte>)
    | Fixed64Value(eight: seq<byte>)
    | BytesValue(data: seq<byte>)
    | GroupValue(fields: seq<Field>)

  datatype Field = Field(number: nat, payload: Payload)

  function PayloadWire(p: Payload): Wire {
    match p
    case VarintValue(_) => VarintWire
    case Fixed32Value(_) => Fixed32Wire
    case Fixed64Value(_) => Fixed64Wire
    case BytesValue(_) => BytesWire
    case GroupValue(_) => StartGroup
  }

  predicate WellFormed(f: Field) {
    && f.number <= MAX_I32
    && match f.payload
       case VarintValue(_) => true
       case Fixed32Value(four) => |four| == 4
       case Fixed64Value(eight) => |eight| == 8
       case BytesValue(data) => |data| < U64
       case GroupValue(fields) => forall i :: 0 <= i < |fields| ==> WellFormed(fields[i])
  }

  function TagBytes(number: nat, wire: Wire): seq<byte> {
    Encode(8 * number + WireNumber(wire))
  }

  /** The bytes after the tag. */
  function PayloadBytes(f: Field): seq<byte>
    decreases f, 1
  {
    match f.payload
    case VarintValue(v) => Encode(v)
    case Fixed32Value(four) => four
    case Fixed64Value(eight) => eight
    case BytesValue(data) => Encode(|data|) + data
    case GroupValue(fields) => FieldsBytes(fields) + TagBytes(f.number, EndGroup)
  }

  function FieldsBytes(fs: seq<Field>): seq<byte>
    decreases fs, 0
  {
    if fs == [] then []
    else TagBytes(fs[0].number, PayloadWire(fs[0].payload)) + PayloadBytes(fs[0]) + FieldsBytes(fs[1..])
  }

  lemma AtSplit(buf: seq<byte>, offset: nat, a: seq<byte>, b: seq<byte>)
    requires At(buf, offset, a + b)
    ensures At(buf, offset, a) && At(buf, offset + |a|, b)
  {
    var here := buf[offset..offset + |a + b|];
    assert buf[offset..offset + |a|] == here[..|a|];
    assert buf[offset + |a|..offset + |a| + |b|] == here[|a|..];
  }

  lemma TagRoundTrip(buf: seq<byte>, offset: nat, number: nat, wire: Wire)
    requires number <= MAX_I32 && At(buf, offset, TagBytes(number, wire))
    ensures ReadTag(buf, offset) == Some(Tag(number, wire, |TagBytes(number, wire)|))
  {
    hide PyDecode;
    TagValue(number, wire);
    DecodeRoundTrip(buf, offset, 8 * number + WireNumber(wire));
  }

  lemma TagValue(number: nat, wire: Wire)
    requires number <= MAX_I32
    ensures var v := 8 * number + WireNumber(wire);
      v < U64 && v / 8 == number && WireOf(v % 8) == Some(wire) && v % 8 == WireNumber(wire)
  {
  }

  lemma {:induction false} SizeOfValue(buf: seq<byte>, offset: nat, v: u64)
    requires At(buf, offset, Encode(v))
    ensures VarintSize(buf, offset, 0) == Some(|Encode(v)|)
  {
    assert v < Shl7(1, 10) by { ShlBounds(9); }
    hide Encode, Shl7, VarintSize;
    SizeOfEncoded(buf, offset, 0, v);
  }

  lemma {:induction false} SizeOfEncoded(buf: seq<byte>, offset: nat, i: nat, v: nat)
    requires i <= 9 && v < Shl7(1, 10 - i) && At(buf, offset + i, Encode(v))
    ensures VarintSize(buf, offset, i) == Some(i + |Encode(v)|)
    decreases 10 - i
  {
    hide At, Encode, Shl7;
    AtEncoded(buf, offset + i, v);
    if v >= 128 {
      LastIsSmall(i, v);
      SizeOfEncoded(buf, offset, i + 1, v / 128);
    }
  }

  lemma NumberInRange(f: Field)
    requires WellFormed(f)
    ensures f.number <= MAX_I32
  {
  }

  /** Skipping a well-formed payload ends exactly behind it, groups of any depth included. */
  lemma {:induction false} SkipPayload(buf: seq<byte>, offset: nat, f: Field)
    requires WellFormed(f) && At(buf, offset, PayloadBytes(f))
    ensures Skip(buf, offset, PayloadWire(f.payload)) == Some(offset + |PayloadBytes(f)|)
    decreases f, 1
  {
    hide PyDecode, Encode, VarintSize, SkipGroup, FieldsBytes, TagBytes;
    match f.payload
    case VarintValue(v) => SizeOfValue(buf, offset, v);
    case Fixed32Value(_) =>
    case Fixed64Value(_) =>
    case BytesValue(data) => SkipDelimited(buf, offset, data);
    case GroupValue(fields) =>
      SkipFields(buf, offset, fields, f.number);
  }

  lemma SkipDelimited(buf: seq<byte>, offset: nat, data: seq<byte>)
    requires |data| < U64 && At(buf, offset, Encode(|data|) + data)
    ensures Skip(buf, offset, BytesWire) == Some(offset + |Encode(|data|) + data|)
  {
    hide PyDecode, Encode, At;
    AtSplit(buf, offset, Encode(|data|), data);
    DecodeRoundTrip(buf, offset, |data|);
  }

  lemma {:induction false} SkipFields(buf: seq<byte>, offset: nat, fs: seq<Field>, number: nat)
    requires number <= MAX_I32 && (forall i :: 0 <= i < |fs| ==> WellFormed(fs[i]))
    requires At(buf, offset, FieldsBytes(fs) + TagBytes(number, EndGroup))
    ensures SkipGroup(buf, offset) == Some(offset + |FieldsBytes(fs) + TagBytes(number, EndGroup)|)
    decreases fs, 0
  {
    hide TagBytes, PayloadBytes, ReadTag, Skip, WellFormed, At;
    var end := TagBytes(number, EndGroup);
    if fs == [] {
      assert FieldsBytes(fs) + end == end;
      TagRoundTrip(buf, offset, number, EndGroup);
    } else {
      var f, rest := fs[0], FieldsBytes(fs[1..]);
      assert f.number <= MAX_I32 by { NumberInRange(f); }
      var tag := TagBytes(f.number, PayloadWire(f.payload));
      assert FieldsBytes(fs) + end == tag + (PayloadBytes(f) + (rest + end));
      AtSplit(buf, offset, tag, PayloadBytes(f) + (rest + end));
      AtSplit(buf, offset + |tag|, PayloadBytes(f), rest + end);
      TagRoundTrip(buf, offset, f.number, PayloadWire(f.payload));
      SkipPayload(buf, offset + |tag|, f);
      SkipFields(buf, offset + |tag| + |PayloadBytes(f)|, fs[1..], number);
    }
  }

  /******* The generated parse loop *******/

  /** The declared type of a known field, as far as reading it goes. */
  datatype Kind = VarintKind | Fixed32Kind | Fixed64Kind | BytesKind

  datatype Value = Number(n: nat) | Raw(bytes: seq<byte>)

  datatype Sized = Sized(value: Value, size: nat)

  function Slice(buf: seq<byte>, from: nat, to: nat): seq<byte> {
    if from > |buf| then [] else if to > |buf| then buf[from..] else if from <= to then buf[from..to] else []
  }

  /** A sized read of a known field. */
  function ReadKnown(buf: seq<byte>, offset: nat, kind: Kind): (r: Option<Sized>)
    ensures r.Some? ==> r.value.size >= 1
  {
    match kind
    case VarintKind =>
      (match PyDecode(buf, offset) case None => None case Some(d) => Some(Sized(Number(d.value), d.size)))
    case Fixed32Kind => if offset + 3 < |buf| then Some(Sized(Raw(buf[offset..offset + 4]), 4)) else None
    case Fixed64Kind => if offset + 7 < |buf| then Some(Sized(Raw(buf[offset..offset + 8]), 8)) else None
    case BytesKind =>
      match PyDecode(buf, offset)
      case None => None
      case Some(d) => Some(Sized(Raw(Slice(buf, offset + d.size, offset + d.size + d.value)), d.size + d.value))
  }

  datatype Entry = Entry(number: nat, value: Value)

  /** The known fields found from `offset` on, in order; `None` when the loop raises. */
  function Parse(buf: seq<byte>, offset: nat, schema: map<nat, Kind>): Option<seq<Entry>>
    decreases Room(buf, offset)
  {
    if offset >= |buf| then Some([])
    else
      match ReadTag(buf, offset)
      case None => None
      case Some(tag) =>
        var body := offset + tag.size;
        if tag.number in schema then
          match ReadKnown(buf, body, schema[tag.number])
          case None => None
          case Some(s) =>
            (match Parse(buf, body + s.size, schema)
             case None => None
             case Some(rest) => Some([Entry(tag.number, s.value)] + rest))
        else
          match Skip(buf, body, tag.wire)
          case None => None
          case Some(next) => Parse(buf, next, schema)
  }

  /** What the emitted `__init__` finds; a message type without fields does not look at the buffer. */
  function ReadFields(buf: seq<byte>, schema: map<nat, Kind>): Option<seq<Entry>> {
    if schema == map[] then Some([]) else Parse(buf, 0, schema)
  }

  ghost function Onto(found: seq<Entry>, rest: Option<seq<Entry>>): Option<seq<Entry>> {
    if rest.None? then None else Some(found + rest.value)
  }

  /** The emitted `__init__`. */
  method ParseMessage(buf: seq<byte>, schema: map<nat, Kind>) returns (r: Option<seq<Entry>>)
    ensures r == ReadFields(buf, schema)
  {
    hide ReadTag, ReadKnown, Skip;
    if schema == map[] {
      return Some([]);
    }
    var found: seq<Entry> := [];
    var offset := 0;
    assert forall rest: seq<Entry> :: found + rest == rest;
    while offset < |buf|
      invariant offset >= 0
      invariant Parse(buf, 0, schema) == Onto(found, Parse(buf, offset, schema))
      decreases Room(buf, offset)
    {
      var tag := ReadTag(buf, offset);
      if tag.None? {
        return None;
      }
      var body := offset + tag.value.size;
      if tag.value.number in schema {
        var s := ReadKnown(buf, body, schema[tag.value.number]);
        if s.None? {
          return None;
        }
        var entry := Entry(tag.value.number, s.value.value);
        assert forall rest: seq<Entry> :: found + ([entry] + rest) == found + [entry] + rest;
        found := found + [entry];
        offset := body + s.value.size;
      } else {
        var next := SkipData(buf, body, tag.value.wire);
        if next.None? {
          return None;
        }
        offset := next.value;
      }
    }
    assert found + [] == found;
    r := Some(found);
  }

  function KindOf(p: Payload): Option<Kind> {
    match p
    case VarintValue(_) => Some(VarintKind)
    case Fixed32Value(_) => Some(Fixed32Kind)
    case Fixed64Value(_) => Some(Fixed64Kind)
    case BytesValue(_) => Some(BytesKind)
    case GroupValue(_) => None
  }

  function ValueOf(p: Payload): Value {
    match p
    case VarintValue(v) => Number(v)
    case Fixed32Value(four) => Raw(four)
    case Fixed64Value(eight) => Raw(eight)
    case BytesValue(data) => Raw(data)
    case GroupValue(_) => Raw([])
  }

  /** Known fields carry the wire type their declaration asks for. */
  predicate Conforms(f: Field, schema: map<nat, Kind>) {
    WellFormed(f) && (f.number in schema ==> KindOf(f.payload) == Some(schema[f.number]))
  }

  function KnownEntries(fs: seq<Field>, schema: map<nat, Kind>): seq<Entry> {
    if fs == [] then []
    else
      (if fs[0].number in schema then [Entry(fs[0].number, ValueOf(fs[0].payload))] else [])
      + KnownEntries(fs[1..], schema)
  }

  lemma ReadDelimited(buf: seq<byte>, offset: nat, data: seq<byte>)
    requires |data| < U64 && At(buf, offset, Encode(|data|) + data)
    ensures ReadKnown(buf, offset, BytesKind) == Some(Sized(Raw(data), |Encode(|data|) + data|))
  {
    hide Encode, PyDecode;
    AtSplit(buf, offset, Encode(|data|), data);
    DecodeRoundTrip(buf, offset, |data|);
  }

  lemma ReadKnownRoundTrip(buf: seq<byte>, offset: nat, f: Field)
    requires WellFormed(f) && !f.payload.GroupValue? && At(buf, offset, PayloadBytes(f))
    ensures ReadKnown(buf, offset, KindOf(f.payload).value) == Some(Sized(ValueOf(f.payload), |PayloadBytes(f)|))
  {
    hide Encode, PyDecode;
    match f.payload
    case VarintValue(v) => DecodeRoundTrip(buf, offset, v);
    case Fixed32Value(four) =>
    case Fixed64Value(eight) =>
    case BytesValue(data) =>
      hide ReadKnown, At;
      ReadDelimited(buf, offset, data);
  }

  /** Where the parts of the first field of a list stand. */
  lemma {:induction false} FirstField(buf: seq<byte>, offset: nat, fs: seq<Field>)
    requires fs != [] && At(buf, offset, FieldsBytes(fs))
    ensures var tag, payload, rest := TagBytes(fs[0].number, PayloadWire(fs[0].payload)), PayloadBytes(fs[0]),
      FieldsBytes(fs[1..]);
      && At(buf, offset, tag) && At(buf, offset + |tag|, payload) && At(buf, offset + |tag| + |payload|, rest)
      && |FieldsBytes(fs)| == |tag| + |payload| + |rest|
  {
    hide TagBytes, PayloadBytes;
    var tag, payload, rest := TagBytes(fs[0].number, PayloadWire(fs[0].payload)), PayloadBytes(fs[0]),
      FieldsBytes(fs[1..]);
    assert FieldsBytes(fs) == tag + (payload + rest);
    AtSplit(buf, offset, tag, payload + rest);
    AtSplit(buf, offset + |tag|, payload, rest);
  }

  /** The generated loop recovers exactly the known fields of a well-formed message, in order, steps
      over the unknown ones, and stops at the end of the buffer. */
  lemma {:induction false} ParseRoundTripFrom(buf: seq<byte>, offset: nat, fs: seq<Field>, schema: map<nat, Kind>)
    requires forall i :: 0 <= i < |fs| ==> Conforms(fs[i], schema)
    requires offset + |FieldsBytes(fs)| == |buf| && At(buf, offset, FieldsBytes(fs))
    ensures Parse(buf, offset, schema) == Some(KnownEntries(fs, schema))
    decreases |fs|
  {
    hide TagBytes, PayloadBytes, ReadTag, ReadKnown, Skip, WellFormed;
    if fs != [] {
      var f, rest := fs[0], FieldsBytes(fs[1..]);
      assert Conforms(f, schema);
      NumberInRange(f);
      var tag := TagBytes(f.number, PayloadWire(f.payload));
      FirstField(buf, offset, fs);
      TagRoundTrip(buf, offset, f.number, PayloadWire(f.payload));
      hide Parse, FieldsBytes, Conforms, At;
      var next := offset + |tag| + |PayloadBytes(f)|;
      ParseRoundTripFrom(buf, next, fs[1..], schema);
      if f.number in schema {
        ReadKnownRoundTrip(buf, offset + |tag|, f);
      } else {
        SkipPayload(buf, offset + |tag|, f);
        assert [] + KnownEntries(fs[1..], schema) == KnownEntries(fs[1..], schema);
      }
      ParseOneField(buf, offset, schema, Tag(f.number, PayloadWire(f.payload), |tag|), next, ValueOf(f.payload));
    }
  }

  lemma ParseOneField(buf: seq<byte>, offset: nat, schema: map<nat, Kind>, tag: Tag, next: nat, value: Value)
    requires ReadTag(buf, offset) == Some(tag) && next >= offset + tag.size
    requires tag.number in schema ==>
      ReadKnown(buf, offset + tag.size, schema[tag.number]) == Some(Sized(value, next - offset - tag.size))
    requires tag.number !in schema ==> Skip(buf, offset + tag.size, tag.wire) == Some(next)
    ensures Parse(buf, offset, schema)
      == if tag.number in schema
         then Onto([Entry(tag.number, value)], Parse(buf, next, schema))
         else Parse(buf, next, schema)
  {
    hide ReadKnown, Skip, ReadTag;
  }

  lemma ParseRoundTrip(fs: seq<Field>, schema: map<nat, Kind>)
    requires forall i :: 0 <= i < |fs| ==> Conforms(fs[i], schema)
    ensures ReadFields(FieldsBytes(fs), schema) == Some(KnownEntries(fs, schema))
  {
    if schema == map[] {
      NothingKnown(fs, schema);
    } else {
      ParseRoundTripFrom(FieldsBytes(fs), 0, fs, schema);
    }
  }

  lemma {:induction false} NothingKnown(fs: seq<Field>, schema: map<nat, Kind>)
    requires schema == map[]
    ensures KnownEntries(fs, schema) == []
  {
    if fs != [] {
      NothingKnown(fs[1..], schema);
    }
  }

  /******* What is rejected *******/

  /** A tag is accepted exactly when its number fits 31 bits and its wire type is one of the six. */
  lemma TagAcceptedIff(buf: seq<byte>, offset: nat, v: u64)
    requires At(buf, offset, Encode(v))
    ensures var r := ReadTag(buf, offset);
      && (r.Some? <==> v < 0x4_0000_0000 && v % 8 <= 5)
      && (r.Some? ==>
            && r.value.number == v / 8
            && match r.value.wire
               case VarintWire => v % 8 == 0
               case Fixed64Wire => v % 8 == 1
               case BytesWire => v % 8 == 2
               case StartGroup => v % 8 == 3
               case EndGroup => v % 8 == 4
               case Fixed32Wire => v % 8 == 5)
  {
    hide PyDecode, Encode;
    DecodeRoundTrip(buf, offset, v);
  }

  /** The bytes from an offset on that continue a varint, up to ten. */
  ghost predicate Continues(buf: seq<byte>, offset: nat, n: nat) {
    offset + n <= |buf| && forall i :: offset <= i < offset + n ==> buf[i] >= 128
  }

  /** A varint of unknown value is as long as its continuation bytes say, ten at most; it is an error exactly
      when the buffer ends before that. */
  lemma {:induction false} VarintSizeIs(buf: seq<byte>, offset: nat, n: nat)
    ensures VarintSize(buf, offset, 0) == Some(n) <==>
      || (n == 10 && Continues(buf, offset, 10))
      || (1 <= n <= 10 && Continues(buf, offset, n - 1) && offset + n <= |buf| && buf[offset + n - 1] < 128)
  {
    if offset <= |buf| {
      VarintSizeFrom(buf, offset, 0, n);
    }
  }

  lemma {:induction false} VarintSizeFrom(buf: seq<byte>, offset: nat, i: nat, n: nat)
    requires i <= 10 && Continues(buf, offset, i)
    ensures VarintSize(buf, offset, i) == Some(n) <==>
      || (n == 10 && Continues(buf, offset, 10))
      || (i < n <= 10 && Continues(buf, offset, n - 1) && offset + n <= |buf| && buf[offset + n - 1] < 128)
    decreases 10 - i
  {
    if i < 10 && offset + i < |buf| && buf[offset + i] >= 128 {
      VarintSizeFrom(buf, offset, i + 1, n);
    }
  }

  /** A length that runs past the end of the buffer gives what is there, and moves past the end. */
  lemma ShortBytes(buf: seq<byte>, offset: nat, length: u64)
    requires At(buf, offset, Encode(length)) && offset + |Encode(length)| + length > |buf|
    ensures ReadKnown(buf, offset, BytesKind)
      == Some(Sized(Raw(buf[offset + |Encode(length)|..]), |Encode(length)| + length))
    ensures Skip(buf, offset, BytesWire) == Some(offset + |Encode(length)| + length)
  {
    hide PyDecode, Encode;
    DecodeRoundTrip(buf, offset, length);
  }

  /** Fixed-width fields that are cut off are an error to read; an end tag without a group is one to skip. */
  lemma CutOff(buf: seq<byte>, offset: nat)
    ensures ReadKnown(buf, offset, Fixed32Kind).None? <==> offset + 4 > |buf|
    ensures ReadKnown(buf, offset, Fixed64Kind).None? <==> offset + 8 > |buf|
    ensures Skip(buf, offset, EndGroup).None?
  {
  }

  /** Where the field at `offset` ends; `None` when its tag, its value or its skip is rejected. */
  ghost function FieldEnd(buf: seq<byte>, offset: nat, schema: map<nat, Kind>): Option<nat> {
    var tag := ReadTag(buf, offset);
    if tag.None? then None
    else if tag.value.number !in schema then Skip(buf, offset + tag.value.size, tag.value.wire)
    else
      var known := ReadKnown(buf, offset + tag.value.size, schema[tag.value.number]);
      if known.None? then None else Some(offset + tag.value.size + known.value.size)
  }

  /** Offsets at which fields start, one field after the other. */
  ghost predicate FieldStarts(buf: seq<byte>, starts: seq<nat>, schema: map<nat, Kind>) {
    && starts != []
    && forall i :: 0 <= i < |starts| - 1 ==>
         starts[i] < |buf| && FieldEnd(buf, starts[i], schema) == Some(starts[i + 1])
  }

  /** The walk over a buffer that stands before a field it cannot get past. */
  ghost predicate Stuck(buf: seq<byte>, starts: seq<nat>, schema: map<nat, Kind>) {
    && FieldStarts(buf, starts, schema)
    && starts[|starts| - 1] < |buf| && FieldEnd(buf, starts[|starts| - 1], schema).None?
  }

  ghost predicate StuckFrom(buf: seq<byte>, offset: nat, schema: map<nat, Kind>) {
    exists starts :: Stuck(buf, starts, schema) && starts[0] == offset
  }

  lemma ParseEnd(buf: seq<byte>, offset: nat, schema: map<nat, Kind>)
    requires offset < |buf|
    ensures var end := FieldEnd(buf, offset, schema);
      (end.Some? ==> end.value > offset)
      && (Parse(buf, offset, schema).None? <==> end.None? || Parse(buf, end.value, schema).None?)
  {
    hide ReadTag, ReadKnown, Skip;
  }

  /** A message is rejected exactly when, field by field from its start, a field comes that cannot be read or
      skipped. */
  lemma {:induction false} RejectedIff(buf: seq<byte>, offset: nat, schema: map<nat, Kind>)
    ensures Parse(buf, offset, schema).None? <==> StuckFrom(buf, offset, schema)
    decreases Room(buf, offset)
  {
    hide Parse, FieldEnd;
    if offset < |buf| {
      ParseEnd(buf, offset, schema);
      var end := FieldEnd(buf, offset, schema);
      if end.None? {
        assert Stuck(buf, [offset], schema);
      } else {
        RejectedIff(buf, end.value, schema);
        StuckLater(buf, offset, end.value, schema);
      }
    } else {
      PastEnd(buf, offset, schema);
    }
  }

  lemma PastEnd(buf: seq<byte>, offset: nat, schema: map<nat, Kind>)
    requires offset >= |buf|
    ensures Parse(buf, offset, schema) == Some([]) && !StuckFrom(buf, offset, schema)
  {
    hide FieldEnd;
  }

  lemma StuckLater(buf: seq<byte>, offset: nat, end: nat, schema: map<nat, Kind>)
    requires offset < |buf| && FieldEnd(buf, offset, schema) == Some(end)
    ensures StuckFrom(buf, offset, schema) <==> StuckFrom(buf, end, schema)
  {
    hide FieldEnd;
    if starts :| Stuck(buf, starts, schema) && starts[0] == offset {
      assert Stuck(buf, starts[1..], schema) && starts[1..][0] == end;
    }
    if starts :| Stuck(buf, starts, schema) && starts[0] == end {
      var more := [offset] + starts;
      assert forall i :: 0 < i < |more| ==> more[i] == starts[i - 1];
      assert Stuck(buf, more, schema) && more[0] == offset;
    }
  }
}
