/** Gremlin's Go reader: skipping a field of any wire type.  A length is turned into a signed 64-bit `int`,
    so a large one moves the reader back. */
module GoReader {
  import opened Wrappers
  import opened Bytes
  import opened Varint
  import opened WireReader

  datatype GoTag = GoTag(number: nat, wire: nat, size: nat)

  /** `ReadTagAt`; the wire type is not checked here. */
  function GoReadTag(buf: seq<byte>, offset: nat): (r: Option<GoTag>) {
    match GoDecode(buf, offset)
    case None => None
    case Some(d) => if d.value / 8 > MAX_I32 then None else Some(GoTag(d.value / 8, d.value % 8, d.size))
  }

  /** `int(size)`. */
  function AsInt(v: u64): int {
    if v >= I64 then v - U64 else v
  }

  /** Where the reader goes behind a length. */
  function Behind(offset: nat, d: Decoded): int
    requires d.value < U64
  {
    offset + d.size + AsInt(d.value)
  }

  /** `Stuck` stands for a length that is not an `int`, or leads out of the range of one. */
  datatype GoSkipped = Ended(next: nat) | Failed | Stuck

  lemma {:induction false} GoDecodeBounds(buf: seq<byte>, offset: nat)
    ensures var r := GoDecode(buf, offset);
      r.Some? ==>
        r == PyDecode(buf, offset) && r.value.size >= 1 && offset + r.value.size <= |buf| && r.value.value < U64
  {
    DecodersAgreeIff(buf, offset);
    GoValueFits(buf, offset, 0, 0);
  }

  lemma {:induction false} GoValueFits(buf: seq<byte>, offset: nat, i: nat, v: u64)
    requires i < 10
    ensures var r := GoDecodeFrom(buf, offset, i, v); r.Some? ==> r.value.value < U64
    decreases 10 - i
  {
    hide Shl7, Word;
    if offset + i < |buf| && i < 9 {
      hide GoDecodeFrom;
      GoUnfold(buf, offset, i, v);
      GoValueFits(buf, offset, i + 1, Word(Word(v + Shl7(buf[offset + i], i)) - Shl7(128, i)));
    }
  }

  /** `SkipData`. */
  function GoSkip(buf: seq<byte>, offset: nat, wire: nat): (r: GoSkipped)
    ensures r.Ended? ==> r.next > offset
    decreases Room(buf, offset), 1
  {
    match wire
    case 0 => (match VarintSize(buf, offset, 0) case None => Failed case Some(n) => Ended(offset + n))
    case 1 => Ended(offset + 8)
    case 2 =>
      (match GoDecode(buf, offset)
       case None => Failed
       case Some(d) =>
         GoDecodeBounds(buf, offset);
         if 0 <= AsInt(d.value) && Behind(offset, d) < I64 then Ended(Behind(offset, d)) else Stuck)
    case 3 => GoSkipGroup(buf, offset)
    case 5 => Ended(offset + 4)
    case _ => Failed
  }

  function GoSkipGroup(buf: seq<byte>, offset: nat): (r: GoSkipped)
    ensures r.Ended? ==> r.next > offset
    decreases Room(buf, offset), 0
  {
    match GoReadTag(buf, offset)
    case None => Failed
    case Some(tag) =>
      GoDecodeBounds(buf, offset);
      if tag.wire == 4 then Ended(offset + tag.size)
      else
        match GoSkip(buf, offset + tag.size, tag.wire)
        case Failed => Failed
        case Stuck => Stuck
        case Ended(next) => GoSkipGroup(buf, next)
  }

  /** `SkipData` with its loop. */
  method GoSkipData(buf: seq<byte>, offset: nat, wire: nat) returns (r: GoSkipped)
    ensures r == GoSkip(buf, offset, wire)
    decreases Room(buf, offset), 1
  {
    hide GoReadTag, GoDecode, VarintSize;
    match wire {
      case 0 =>
        var size := VarintSize(buf, offset, 0);
        r := if size.None? then Failed else Ended(offset + size.value);
      case 1 => r := Ended(offset + 8);
      case 2 =>
        var d := GoDecode(buf, offset);
        if d.None? {
          return Failed;
        }
        GoDecodeBounds(buf, offset);
        r := if 0 <= AsInt(d.value.value)
          && Behind(offset, d.value) < I64 then Ended(Behind(offset, d.value)) else Stuck;
      case 3 =>
        var current := offset;
        while true
          invariant current >= offset && Room(buf, current) <= Room(buf, offset)
          invariant GoSkip(buf, offset, wire) == GoSkipGroup(buf, current)
          decreases Room(buf, current)
        {
          var tag := GoReadTag(buf, current);
          if tag.None? {
            return Failed;
          }
          GoTagBounds(buf, current);
          current := current + tag.value.size;
          if tag.value.wire == 4 {
            return Ended(current);
          }
          r := GoSkipData(buf, current, tag.value.wire);
          if !r.Ended? {
            return;
          }
          current := r.next;
        }
      case 5 => r := Ended(offset + 4);
      case _ => r := Failed;
    }
  }

  /******* Agreement with the Python reader *******/

  /** Whether a skip reads a tag or a length of more than 64 bits on its way. */
  ghost predicate MeetsOverlong(buf: seq<byte>, offset: nat, wire: nat)
    decreases Room(buf, offset), 1
  {
    (wire == 2 && Overlong(buf, offset, 0)) || (wire == 3 && GroupMeetsOverlong(buf, offset))
  }

  ghost predicate GroupMeetsOverlong(buf: seq<byte>, offset: nat)
    decreases Room(buf, offset), 0
  {
    || Overlong(buf, offset, 0)
    || (GoReadTag(buf, offset).Some? && GoReadTag(buf, offset).value.wire != 4 &&
        var tag := GoReadTag(buf, offset).value;
        GoTagBounds(buf, offset);
        var body := offset + tag.size;
        || MeetsOverlong(buf, body, tag.wire)
        || (GoSkip(buf, body, tag.wire).Ended? && GroupMeetsOverlong(buf, GoSkip(buf, body, tag.wire).next)))
  }

  /** Some length at or behind an offset is not an `int`, or leads out of the range of one. */
  ghost predicate LengthTooBig(buf: seq<byte>, offset: nat) {
    exists o: nat :: o >= offset && TooBigAt(buf, o)
  }

  ghost predicate TooBigAt(buf: seq<byte>, o: nat) {
    GoDecode(buf, o).Some? && (GoDecode(buf, o).value.value >= I64
      || o + GoDecode(buf, o).value.size + GoDecode(buf, o).value.value >= I64)
  }

  /** What the two readers make of one place. */
  ghost predicate Agree(buf: seq<byte>, offset: nat, go: GoSkipped, overlong: bool, python: Option<nat>) {
    && (go.Ended? ==> python == Some(go.next))
    && (go.Failed? && !overlong ==> python == None)
    && (go.Stuck? ==> LengthTooBig(buf, offset))
  }

  lemma TagsAgree(buf: seq<byte>, offset: nat)
    ensures var go, python := GoReadTag(buf, offset), ReadTag(buf, offset);
      && (go.Some? && WireOf(go.value.wire).Some? ==>
           python == Some(Tag(go.value.number, WireOf(go.value.wire).value, go.value.size)))
      && (go.Some? && WireOf(go.value.wire).None? ==> python == None)
      && (go.None? && !Overlong(buf, offset, 0) ==> python == None)
  {
    hide GoDecode, PyDecode, Overlong;
    GoDecodeBounds(buf, offset);
    DecodersAgreeIff(buf, offset);
  }

  lemma WireNumberBack(wire: nat)
    ensures WireOf(wire).Some? ==> WireNumber(WireOf(wire).value) == wire
    ensures WireOf(wire).None? <==> wire > 5
  {
  }

  lemma LaterTooBig(buf: seq<byte>, offset: nat, later: nat)
    requires offset <= later && LengthTooBig(buf, later)
    ensures LengthTooBig(buf, offset)
  {
    hide TooBigAt;
  }

  lemma BytesAgree(buf: seq<byte>, offset: nat)
    ensures Agree(buf, offset, GoSkip(buf, offset, 2), Overlong(buf, offset, 0), Skip(buf, offset, BytesWire))
  {
    hide PyDecode, GoDecode, VarintSize, Overlong;
    GoDecodeBounds(buf, offset);
    DecodersAgreeIff(buf, offset);
    if GoSkip(buf, offset, 2).Stuck? {
      assert TooBigAt(buf, offset);
    }
  }

  /** Where Go's skip ends Python's ends; where it fails Python's fails too, unless it met an overlong varint;
      and it is stuck only where a length is not an `int`. */
  lemma {:induction false} SkipsAgree(buf: seq<byte>, offset: nat, wire: Wire)
    ensures Agree(buf, offset, GoSkip(buf, offset, WireNumber(wire)), MeetsOverlong(buf, offset, WireNumber(wire)),
                  Skip(buf, offset, wire))
    decreases Room(buf, offset), 1
  {
    hide PyDecode, GoDecode, VarintSize, Overlong, LengthTooBig;
    match wire
    case BytesWire =>
      BytesAgree(buf, offset);
    case StartGroup =>
      hide SkipGroup, GoSkipGroup, GroupMeetsOverlong;
      GroupSkipsAgree(buf, offset);
    case _ =>
  }

  lemma {:induction false} GroupSkipsAgree(buf: seq<byte>, offset: nat)
    ensures Agree(buf, offset, GoSkipGroup(buf, offset), GroupMeetsOverlong(buf, offset), SkipGroup(buf, offset))
    decreases Room(buf, offset), 0
  {
    hide GoReadTag, ReadTag, GoSkip, Skip, Overlong, MeetsOverlong, LengthTooBig;
    TagsAgree(buf, offset);
    if GoReadTag(buf, offset).Some? {
      var tag := GoReadTag(buf, offset).value;
      GoTagBounds(buf, offset);
      WireNumberBack(tag.wire);
      var body := offset + tag.size;
      if WireOf(tag.wire).None? {
        UnknownWireFails(buf, body, tag.wire);
      } else if tag.wire != 4 {
        SkipsAgree(buf, body, WireOf(tag.wire).value);
        var go := GoSkip(buf, body, tag.wire);
        if go.Ended? {
          GroupSkipsAgree(buf, go.next);
          if GoSkipGroup(buf, go.next).Stuck? {
            LaterTooBig(buf, offset, go.next);
          }
        } else if go.Stuck? {
          LaterTooBig(buf, offset, body);
        }
      }
    }
  }

  lemma UnknownWireFails(buf: seq<byte>, offset: nat, wire: nat)
    requires wire > 5
    ensures GoSkip(buf, offset, wire) == Failed
  {
  }

  lemma GoTagBounds(buf: seq<byte>, offset: nat)
    ensures var r := GoReadTag(buf, offset); r.Some? ==> r.value.size >= 1 && offset + r.value.size <= |buf|
  {
    hide GoDecode;
    GoDecodeBounds(buf, offset);
  }

  /******* Well-formed payloads *******/

  lemma GoTagRoundTrip(buf: seq<byte>, offset: nat, number: nat, wire: Wire)
    requires number <= MAX_I32 && At(buf, offset, TagBytes(number, wire))
    ensures GoReadTag(buf, offset) == Some(GoTag(number, WireNumber(wire), |TagBytes(number, wire)|))
  {
    hide GoDecode;
    TagValue(number, wire);
    DecodeRoundTrip(buf, offset, 8 * number + WireNumber(wire));
  }

  /** In a buffer whose size is an `int`, skipping a well-formed payload ends exactly behind it. */
  lemma {:induction false} GoSkipPayload(buf: seq<byte>, offset: nat, f: Field)
    requires WellFormed(f) && At(buf, offset, PayloadBytes(f)) && |buf| < I64
    ensures GoSkip(buf, offset, WireNumber(PayloadWire(f.payload))) == Ended(offset + |PayloadBytes(f)|)
    decreases f, 1
  {
    match f.payload
    case VarintValue(v) => SizeOfValue(buf, offset, v);
    case Fixed32Value(_) =>
    case Fixed64Value(_) =>
    case BytesValue(data) =>
      hide Encode, GoDecode;
      AtSplit(buf, offset, Encode(|data|), data);
      DecodeRoundTrip(buf, offset, |data|);
    case GroupValue(fields) =>
      GoSkipFields(buf, offset, fields, f.number);
  }

  lemma {:induction false} GoSkipFields(buf: seq<byte>, offset: nat, fs: seq<Field>, number: nat)
    requires number <= MAX_I32 && (forall i :: 0 <= i < |fs| ==> WellFormed(fs[i])) && |buf| < I64
    requires At(buf, offset, FieldsBytes(fs) + TagBytes(number, EndGroup))
    ensures GoSkipGroup(buf, offset) == Ended(offset + |FieldsBytes(fs) + TagBytes(number, EndGroup)|)
    decreases fs, 0
  {
    hide TagBytes, PayloadBytes, GoReadTag, GoSkip, WellFormed, At;
    var end := TagBytes(number, EndGroup);
    if fs == [] {
      assert FieldsBytes(fs) + end == end;
      GoTagRoundTrip(buf, offset, number, EndGroup);
    } else {
      var f, rest := fs[0], FieldsBytes(fs[1..]);
      assert f.number <= MAX_I32 by { NumberInRange(f); }
      var tag := TagBytes(f.number, PayloadWire(f.payload));
      assert FieldsBytes(fs) + end == tag + (PayloadBytes(f) + (rest + end));
      AtSplit(buf, offset, tag, PayloadBytes(f) + (rest + end));
      AtSplit(buf, offset + |tag|, PayloadBytes(f), rest + end);
      GoTagRoundTrip(buf, offset, f.number, PayloadWire(f.payload));
      GoSkipPayload(buf, offset + |tag|, f);
      GoSkipFields(buf, offset + |tag| + |PayloadBytes(f)|, fs[1..], number);
    }
  }

  /******* Lengths that are not `int`s *******/

  /** The reader moves on exactly when the length is an `int` or stands for a step back of less than its own
      size. */
  lemma MovesOnIff(offset: nat, d: Decoded)
    requires d.value < U64 && d.size >= 1
    ensures Behind(offset, d) > offset <==> d.value < I64 || d.size > U64 - d.value
  {
  }

  /** Where the loop inside a group stands: at an offset, which may be negative, behind the end tag, failed, or
      inside a nested group that does not end. */
  datatype Loop = Standing(offset: int) | Finished(next: int) | Broke | Inside

  /** One turn of the loop, with lengths as Go reads them; reading at a negative offset panics. */
  function Turn(buf: seq<byte>, offset: int): Loop {
    if offset < 0 then Broke
    else
      match GoReadTag(buf, offset)
      case None => Broke
      case Some(tag) =>
        GoTagBounds(buf, offset);
        var body := offset + tag.size;
        if tag.wire == 4 then Finished(body)
        else if tag.wire == 2 then
          match GoDecode(buf, body)
          case None => Broke
          case Some(d) => GoDecodeBounds(buf, body); Standing(Behind(body, d))
        else
          match GoSkip(buf, body, tag.wire)
          case Ended(next) => Standing(next)
          case Failed => Broke
          case Stuck => Inside
  }

  function Turns(buf: seq<byte>, at: Loop, n: nat): Loop
    decreases n
  {
    if n == 0 || !at.Standing? then at else Turns(buf, Turn(buf, at.offset), n - 1)
  }

  /** As long as no length is too big, a turn is a step of the group skip. */
  lemma {:induction false} TurnIsStep(buf: seq<byte>, offset: nat)
    requires !GoSkipGroup(buf, offset).Stuck?
    ensures match Turn(buf, offset)
            case Standing(next) => next > offset && GoSkipGroup(buf, next) == GoSkipGroup(buf, offset)
            case Finished(next) => GoSkipGroup(buf, offset) == Ended(next)
            case Broke => GoSkipGroup(buf, offset) == Failed
            case Inside => false
  {
    hide GoReadTag, GoDecode, VarintSize;
    GoTagBounds(buf, offset);
    var tag := GoReadTag(buf, offset);
    if tag.Some? && tag.value.wire == 2 {
      GoDecodeBounds(buf, offset + tag.value.size);
    }
  }

  /** The loop finds the end that the skip promises. */
  lemma {:induction false} TurnsReachEnd(buf: seq<byte>, offset: nat) returns (n: nat)
    requires GoSkipGroup(buf, offset).Ended?
    ensures Turns(buf, Standing(offset), n) == Finished(GoSkipGroup(buf, offset).next)
    decreases Room(buf, offset)
  {
    hide GoSkipGroup, Turn;
    TurnIsStep(buf, offset);
    if Turn(buf, offset).Standing? {
      InsideBuffer(buf, offset);
      var k := TurnsReachEnd(buf, Turn(buf, offset).offset);
      n := k + 1;
    } else {
      n := 1;
    }
  }

  lemma {:induction false} InsideBuffer(buf: seq<byte>, offset: nat)
    requires GoSkipGroup(buf, offset).Ended?
    ensures offset < |buf|
  {
    hide GoSkip;
    GoTagBounds(buf, offset);
  }

  /** A length of 2^64 - 11 behind a one-byte tag leads back onto that tag. */
  lemma LengthLeadsBack()
    ensures var buf := TagBytes(1, BytesWire) + Encode(U64 - 11);
      Turn(buf, 0) == Standing(0) && GoSkip(buf, 1, 2) == Stuck
  {
    var tag, length := TagBytes(1, BytesWire), Encode(U64 - 11);
    var buf := tag + length;
    assert tag == [10];
    assert At(buf, 0, tag) && At(buf, 1, length);
    GoVarintIsEncoding(U64 - 11);
    hide Encode, GoDecode;
    GoTagRoundTrip(buf, 0, 1, BytesWire);
    DecodeRoundTrip(buf, 1, U64 - 11);
  }

  /** The loop inside a group, and with it the loop of a generated reader that does not know the field, then
      reads the same field forever: after every number of turns it stands at the same tag. */
  lemma {:induction false} ReadsForever(n: nat)
    ensures Turns(TagBytes(1, BytesWire) + Encode(U64 - 11), Standing(0), n) == Standing(0)
  {
    hide Turn, TagBytes, Encode;
    LengthLeadsBack();
    if n > 0 {
      ReadsForever(n - 1);
    }
  }
}
