/** Base 128 varints and zigzag numbers as Gremlin's Go and Python halves write, size and read them.
    Shifts, masks and ors of the source are division, remainder and sums here: the bits they combine
    never overlap. */
module Varint {
  import opened Wrappers
  import opened Bytes

  const U64: int := 0x1_0000_0000_0000_0000
  const I64: int := 0x8000_0000_0000_0000

  type u64 = v: int | 0 <= v < U64

  /******* The encoding *******/

  /** The Protocol Buffers encoding: seven bits a byte, least significant first, the top bit set on all
      bytes but the last. */
  function Encode(v: nat): (r: seq<byte>)
    ensures |r| >= 1
  {
    if v < 128 then [v] else [v % 128 + 128] + Encode(v / 128)
  }

  function Low7(v: nat): byte {
    v % 128 + 128
  }

  /** The switch of `appendVarInt` and of `VarIntToBytes`. */
  function GoVarint(v: u64): seq<byte> {
    if v < 0x80 then [v]
    else if v < 0x4000 then [Low7(v), v / 0x80]
    else if v < 0x20_0000 then [Low7(v), Low7(v / 0x80), v / 0x4000]
    else if v < 0x1000_0000 then [Low7(v), Low7(v / 0x80), Low7(v / 0x4000), v / 0x20_0000]
    else if v < 0x8_0000_0000 then
      [Low7(v), Low7(v / 0x80), Low7(v / 0x4000), Low7(v / 0x20_0000), v / 0x1000_0000]
    else if v < 0x400_0000_0000 then
      [Low7(v), Low7(v / 0x80), Low7(v / 0x4000), Low7(v / 0x20_0000), Low7(v / 0x1000_0000), v / 0x8_0000_0000]
    else if v < 0x2_0000_0000_0000 then
      [Low7(v), Low7(v / 0x80), Low7(v / 0x4000), Low7(v / 0x20_0000), Low7(v / 0x1000_0000), Low7(v / 0x8_0000_0000),
       v / 0x400_0000_0000]
    else if v < 0x100_0000_0000_0000 then
      [Low7(v), Low7(v / 0x80), Low7(v / 0x4000), Low7(v / 0x20_0000), Low7(v / 0x1000_0000), Low7(v / 0x8_0000_0000),
       Low7(v / 0x400_0000_0000), v / 0x2_0000_0000_0000]
    else if v < 0x8000_0000_0000_0000 then
      [Low7(v), Low7(v / 0x80), Low7(v / 0x4000), Low7(v / 0x20_0000), Low7(v / 0x1000_0000), Low7(v / 0x8_0000_0000),
       Low7(v / 0x400_0000_0000), Low7(v / 0x2_0000_0000_0000), v / 0x100_0000_0000_0000]
    else
      [Low7(v), Low7(v / 0x80), Low7(v / 0x4000), Low7(v / 0x20_0000), Low7(v / 0x1000_0000), Low7(v / 0x8_0000_0000),
       Low7(v / 0x400_0000_0000), Low7(v / 0x2_0000_0000_0000), Low7(v / 0x100_0000_0000_0000), 1]
  }

  /** `SizeVarInt`. */
  function GoSize(v: u64): nat {
    if v < 0x80 then 1
    else if v < 0x4000 then 2
    else if v < 0x20_0000 then 3
    else if v < 0x1000_0000 then 4
    else if v < 0x8_0000_0000 then 5
    else if v < 0x400_0000_0000 then 6
    else if v < 0x2_0000_0000_0000 then 7
    else if v < 0x100_0000_0000_0000 then 8
    else if v < 0x8000_0000_0000_0000 then 9
    else 10
  }

  function BitLength(n: nat): nat {
    if n == 0 then 0 else 1 + BitLength(n / 2)
  }

  /** `size_varint`. */
  function PySize(v: nat): nat {
    (BitLength(if v % 2 == 0 then v + 1 else v) + 6) / 7
  }

  lemma ShiftTwice(v: nat, d: nat)
    requires d == 0x80 || d == 0x4000 || d == 0x20_0000 || d == 0x1000_0000 || d == 0x8_0000_0000 || d
      == 0x400_0000_0000
          || d == 0x2_0000_0000_0000 || d == 0x100_0000_0000_0000
    ensures v / 0x80 / d == v / (0x80 * d)
  {
  }

  lemma GoVarintStep(v: u64)
    requires v >= 128
    ensures GoVarint(v) == [Low7(v)] + GoVarint(v / 128)
  {
    ShiftTwice(v, 0x80);
    ShiftTwice(v, 0x4000);
    ShiftTwice(v, 0x20_0000);
    ShiftTwice(v, 0x1000_0000);
    ShiftTwice(v, 0x8_0000_0000);
    ShiftTwice(v, 0x400_0000_0000);
    ShiftTwice(v, 0x2_0000_0000_0000);
    ShiftTwice(v, 0x100_0000_0000_0000);
  }

  /** Go's switch writes the encoding and its size switch gives the encoding's length. */
  lemma {:induction false} GoVarintIsEncoding(v: u64)
    ensures GoVarint(v) == Encode(v) && GoSize(v) == |Encode(v)|
    decreases v
  {
    if v >= 128 {
      GoVarintIsEncoding(v / 128);
      GoVarintStep(v);
      hide GoVarint;
    }
  }

  lemma BitLengthShift(v: nat)
    requires v >= 128
    ensures BitLength(v) == 7 + BitLength(v / 128)
  {
    assert BitLength(v) == 1 + BitLength(v / 2);
    assert BitLength(v / 2) == 1 + BitLength(v / 2 / 2) && v / 2 / 2 == v / 4;
    assert BitLength(v / 4) == 1 + BitLength(v / 4 / 2) && v / 4 / 2 == v / 8;
    assert BitLength(v / 8) == 1 + BitLength(v / 8 / 2) && v / 8 / 2 == v / 16;
    assert BitLength(v / 16) == 1 + BitLength(v / 16 / 2) && v / 16 / 2 == v / 32;
    assert BitLength(v / 32) == 1 + BitLength(v / 32 / 2) && v / 32 / 2 == v / 64;
    assert BitLength(v / 64) == 1 + BitLength(v / 64 / 2) && v / 64 / 2 == v / 128;
  }

  lemma OddBitLength(w: nat)
    requires w > 0
    ensures BitLength(if w % 2 == 0 then w + 1 else w) == BitLength(w)
  {
    assert (if w % 2 == 0 then w + 1 else w) / 2 == w / 2;
  }

  /** Python's bit-length formula gives the same length. */
  lemma {:induction false} PySizeIsLength(v: nat)
    ensures PySize(v) == |Encode(v)|
    decreases v
  {
    if v < 128 {
      SmallPySize(v);
    } else {
      PySizeIsLength(v / 128);
      PySizeStep(v);
      hide PySize;
    }
  }

  lemma SmallPySize(v: nat)
    requires v < 128
    ensures PySize(v) == 1
  {
    var odd := if v % 2 == 0 then v + 1 else v;
    assert BitLength(odd) >= 1;
    assert Pow2(7) == 128;
    hide BitLength, Pow2;
    BitLengthBound(odd, 7);
  }

  lemma PySizeStep(v: nat)
    requires v >= 128
    ensures PySize(v) == 1 + PySize(v / 128)
  {
    hide BitLength;
    var odd := if v % 2 == 0 then v + 1 else v;
    BitLengthShift(odd);
    assert odd / 128 == v / 128;
    OddBitLength(v / 128);
  }

  function Pow2(k: nat): nat {
    if k == 0 then 1 else 2 * Pow2(k - 1)
  }

  lemma {:induction false} BitLengthBound(n: nat, k: nat)
    requires n < Pow2(k)
    ensures BitLength(n) <= k
  {
    if n > 0 {
      BitLengthBound(n / 2, k - 1);
    }
  }

  /** The wire type never changes a tag's length. */
  lemma TagLength(number: nat, wire: nat)
    requires wire < 8
    ensures |Encode(8 * number + wire)| == |Encode(8 * number)|
  {
    var n := number / 16;
    assert (8 * number + wire) / 128 == n && 8 * number / 128 == n;
  }

  /******* Zigzag *******/

  /** `x ^ 0` or `x ^ -1` on unbounded integers. */
  function XorSign(x: int, negative: bool): int {
    if negative then -x - 1 else x
  }

  /** Python: `(v << 1) ^ (v >> 63)`. */
  function PyZigzag(v: int): int
    requires -I64 <= v < I64
  {
    XorSign(2 * v, v < 0)
  }

  /** Go: `uint64(v << 1) ^ uint64(v >> 63)`, both operands reduced to 64 bits. */
  function GoZigzag(v: int): u64
    requires -I64 <= v < I64
  {
    var doubled := (2 * v) % U64;
    if v < 0 then U64 - 1 - doubled else doubled
  }

  /** Python: `(u >> 1) ^ -(u & 1)`. */
  function PyUnzigzag(u: nat): int {
    XorSign(u / 2, u % 2 == 1)
  }

  /** Go: `int64(u >> 1) ^ int64(u) << 63 >> 63`. */
  function GoUnzigzag(u: u64): int {
    XorSign(u / 2, u % 2 == 1)
  }

  lemma ZigzagRoundTrip(v: int)
    requires -I64 <= v < I64
    ensures 0 <= PyZigzag(v) < U64 && PyZigzag(v) == GoZigzag(v) == if v >= 0 then 2 * v else -2 * v - 1
    ensures PyUnzigzag(PyZigzag(v)) == v && GoUnzigzag(GoZigzag(v)) == v
  {
  }

  /******* Decoding *******/

  datatype Decoded = Decoded(value: nat, size: nat)

  /** `x << 7 * i`. */
  function Shl7(x: nat, i: nat): nat {
    if i == 0 then x else 128 * Shl7(x, i - 1)
  }

  lemma {:induction false} ShlAdd(a: nat, b: nat, i: nat)
    ensures Shl7(a + b, i) == Shl7(a, i) + Shl7(b, i)
  {
    if i > 0 {
      ShlAdd(a, b, i - 1);
    }
  }

  lemma {:induction false} ShlShl(x: nat, i: nat)
    ensures Shl7(128 * x, i) == Shl7(x, i + 1)
  {
    if i > 0 {
      ShlShl(x, i - 1);
    }
  }

  lemma {:induction false} ShlMonotone(a: nat, b: nat, i: nat)
    requires a <= b
    ensures Shl7(a, i) <= Shl7(b, i)
  {
    if i > 0 {
      ShlMonotone(a, b, i - 1);
    }
  }

  /** What `_read_varint_at` accepts from its `i`-th byte on: up to ten bytes, the last below 0x80,
      seven bits each, most significant last. */
  function PyDecodeFrom(buf: seq<byte>, offset: nat, i: nat): (r: Option<Decoded>)
    requires i < 10
    ensures r.Some? ==> 1 <= r.value.size <= 10 - i && offset + i + r.value.size <= |buf|
    decreases 10 - i
  {
    if offset + i >= |buf| then None
    else
      var b := buf[offset + i];
      if b < 128 then Some(Decoded(b, 1))
      else if i == 9 then None
      else
        match PyDecodeFrom(buf, offset, i + 1)
        case None => None
        case Some(d) => Some(Decoded(b % 128 + 128 * d.value, 1 + d.size))
  }

  function PyDecode(buf: seq<byte>, offset: nat): (r: Option<Decoded>)
    ensures r.Some? ==> 1 <= r.value.size <= 10 && offset + r.value.size <= |buf|
  {
    PyDecodeFrom(buf, offset, 0)
  }

  ghost function Continued(value: nat, i: nat, rest: Option<Decoded>): Option<Decoded> {
    if rest.None? then None else Some(Decoded(value + Shl7(rest.value.value, i), i + rest.value.size))
  }

  /** `_read_varint_at`. */
  method ReadVarintAt(buf: seq<byte>, offset: nat) returns (r: Option<Decoded>)
    ensures r == PyDecode(buf, offset)
  {
    hide Shl7, PyDecodeFrom, Continued, PyDecode;
    var value, shift, i := 0, 0, 0;
    ContinuedStarts(buf, offset);
    while i < 10
      invariant 0 <= i < 10 && shift == 7 * i && value >= 0
      invariant PyDecode(buf, offset) == Continued(value, i, PyDecodeFrom(buf, offset, i))
    {
      PyByte(buf, offset, i);
      ContinuedEnds(value, i, PyDecodeFrom(buf, offset, i));
      if offset + i >= |buf| {
        return None;
      }
      var b := buf[offset + i];
      if shift >= 64 {
        return None;
      }
      ghost var before := value;
      value := value + Shl7(b % 128, i);
      if b < 0x80 {
        return Some(Decoded(value, i + 1));
      }
      if shift > 57 {
        return None;
      }
      ContinuedStep(buf, offset, before, i);
      shift := shift + 7;
      i := i + 1;
    }
    r := None;
  }

  lemma ContinuedStarts(buf: seq<byte>, offset: nat)
    ensures PyDecode(buf, offset) == Continued(0, 0, PyDecodeFrom(buf, offset, 0))
  {
    hide PyDecodeFrom;
  }

  lemma ContinuedEnds(value: nat, i: nat, rest: Option<Decoded>)
    ensures rest.None? ==> Continued(value, i, rest) == None
    ensures rest.Some? && rest.value.size == 1 ==>
      Continued(value, i, rest) == Some(Decoded(value + Shl7(rest.value.value, i), i + 1))
  {
  }

  lemma PyByte(buf: seq<byte>, offset: nat, i: nat)
    requires i < 10
    ensures offset + i >= |buf| ==> PyDecodeFrom(buf, offset, i).None?
    ensures offset + i < |buf| && buf[offset + i] < 128 ==>
      PyDecodeFrom(buf, offset, i) == Some(Decoded(buf[offset + i] % 128, 1))
    ensures i == 9 && offset + i < |buf| && buf[offset + i] >= 128 ==> PyDecodeFrom(buf, offset, i).None?
  {
  }

  lemma PyContinues(buf: seq<byte>, offset: nat, i: nat)
    requires i < 9 && offset + i < |buf| && buf[offset + i] >= 128
    ensures var rest := PyDecodeFrom(buf, offset, i + 1);
      PyDecodeFrom(buf, offset, i) == if rest.None? then None
        else Some(Decoded(buf[offset + i] % 128 + 128 * rest.value.value, 1 + rest.value.size))
  {
  }

  lemma ContinuedStep(buf: seq<byte>, offset: nat, value: nat, i: nat)
    requires i < 9 && offset + i < |buf| && buf[offset + i] >= 128
    ensures Continued(value, i, PyDecodeFrom(buf, offset, i))
         == Continued(value + Shl7(buf[offset + i] % 128, i), i + 1, PyDecodeFrom(buf, offset, i + 1))
  {
    hide Shl7, PyDecodeFrom;
    PyContinues(buf, offset, i);
    var b, rest := buf[offset + i] % 128, PyDecodeFrom(buf, offset, i + 1);
    if rest.Some? {
      ShlAdd(b, 128 * rest.value.value, i);
      ShlShl(rest.value.value, i);
    }
  }

  /** Arithmetic on 64-bit words. */
  function Word(x: int): u64 {
    x % U64
  }

  /** `readVarIntAt` from its `i`-th step on, `v` being what it has gathered; every step adds the whole
      byte and takes the continuation bit off again, on 64-bit words. */
  function GoDecodeFrom(buf: seq<byte>, offset: nat, i: nat, v: u64): Option<Decoded>
    requires i < 10
    decreases 10 - i
  {
    if offset + i >= |buf| then None
    else
      var y := buf[offset + i];
      var v' := Word(v + Shl7(y, i));
      if i == 9 then
        if y < 2 then Some(Decoded(v', 10)) else None
      else if y < 128 then Some(Decoded(v', i + 1))
      else GoDecodeFrom(buf, offset, i + 1, Word(v' - Shl7(128, i)))
  }

  function GoDecode(buf: seq<byte>, offset: nat): Option<Decoded> {
    GoDecodeFrom(buf, offset, 0, 0)
  }

  /** Nine continuation bytes and a tenth byte of 2..127: more than 64 bits. */
  predicate Overlong(buf: seq<byte>, offset: nat, i: nat)
    requires i <= 9
  {
    && offset + 10 <= |buf| && (forall k :: offset + i <= k < offset + 9 ==> buf[k] >= 128)
      && 2 <= buf[offset + 9] < 128
  }

  lemma ShlBounds(i: nat)
    requires i <= 9
    ensures i < 9 ==> Shl7(256, i) <= U64
    ensures Shl7(2, 9) == U64 && Shl7(1, 9) == I64
  {
    assert Shl7(2, 9) == 0x1_0000_0000_0000_0000;
    assert Shl7(1, 9) == 0x8000_0000_0000_0000;
    hide Shl7;
    ShlShl(2, i);
    if i < 9 {
      ShlGrows(2, i + 1, 9);
    }
  }

  lemma {:induction false} ShlGrows(x: nat, i: nat, j: nat)
    requires i <= j
    ensures Shl7(x, i) <= Shl7(x, j)
  {
    if i < j {
      ShlGrows(x, i, j - 1);
    }
  }

  /** The word a Go step computes does not overflow, and is the next partial value once the
      continuation bit is taken off. */
  lemma GoStep(v: nat, y: byte, i: nat)
    requires i < 9 && v < Shl7(1, i)
    ensures v + Shl7(y, i) < U64
    ensures y >= 128 ==> v + Shl7(y, i) - Shl7(128, i) == v + Shl7(y % 128, i) < Shl7(1, i + 1)
  {
    hide Shl7;
    ShlBounds(i);
    ShlAdd(1, y, i);
    ShlMonotone(1 + y, 256, i);
    if y >= 128 {
      ShlAdd(y - 128, 128, i);
      ShlAdd(1, y - 128, i);
      ShlMonotone(1 + (y - 128), 128, i);
      ShlShl(1, i);
    }
  }

  /** One step of the Go decoder, before the ninth byte. */
  lemma {:induction false} GoUnfold(buf: seq<byte>, offset: nat, i: nat, v: u64)
    requires i < 9 && offset + i < |buf|
    ensures var y := buf[offset + i]; var v' := Word(v + Shl7(y, i));
      GoDecodeFrom(buf, offset, i, v)
      == if y < 128 then Some(Decoded(v', i + 1)) else GoDecodeFrom(buf, offset, i + 1, Word(v' - Shl7(128, i)))
  {
    hide Shl7, Word;
  }

  lemma {:induction false} GoEnds(buf: seq<byte>, offset: nat, i: nat, v: u64)
    requires i < 10 && offset + i >= |buf|
    ensures GoDecodeFrom(buf, offset, i, v).None?
  {
    hide Shl7, Word;
  }

  lemma {:induction false} GoByte(buf: seq<byte>, offset: nat, i: nat, v: u64)
    requires i < 9 && v < Shl7(1, i)
    ensures offset + i >= |buf| ==> GoDecodeFrom(buf, offset, i, v).None?
    ensures offset + i < |buf| && buf[offset + i] < 128 ==>
      GoDecodeFrom(buf, offset, i, v) == Some(Decoded(v + Shl7(buf[offset + i], i), i + 1))
    ensures offset + i < |buf| && buf[offset + i] >= 128 ==> var v' := v + Shl7(buf[offset + i] % 128, i);
      v' < U64 && GoDecodeFrom(buf, offset, i, v) == GoDecodeFrom(buf, offset, i + 1, v')
  {
    hide Shl7, Word, GoDecodeFrom;
    if offset + i >= |buf| {
      GoEnds(buf, offset, i, v);
    } else {
      var y := buf[offset + i];
      GoUnfold(buf, offset, i, v);
      GoStep(v, y, i);
      InWord(v + Shl7(y, i));
      if y >= 128 {
        InWord(v + Shl7(y % 128, i));
      }
    }
  }

  lemma InWord(x: int)
    requires 0 <= x < U64
    ensures Word(x) == x
  {
  }

  lemma OverlongStep(buf: seq<byte>, offset: nat, i: nat)
    requires i < 9
    ensures Overlong(buf, offset, i) <==>
      offset + i < |buf| && buf[offset + i] >= 128 && Overlong(buf, offset, i + 1)
  {
  }

  lemma {:induction false} DecodersAgreeFrom(buf: seq<byte>, offset: nat, i: nat, v: u64)
    requires i <= 9 && v < Shl7(1, i)
    ensures GoDecodeFrom(buf, offset, i, v)
      == if Overlong(buf, offset, i) then None else Continued(v, i, PyDecodeFrom(buf, offset, i))
    ensures Overlong(buf, offset, i) ==> PyDecodeFrom(buf, offset, i).Some?
    decreases 10 - i
  {
    hide Shl7, GoDecodeFrom, PyDecodeFrom, Continued, Overlong;
    if i == 9 {
      TenthByte(buf, offset, v);
    } else {
      OverlongStep(buf, offset, i);
      GoByte(buf, offset, i, v);
      PyByte(buf, offset, i);
      ContinuedEnds(v, i, PyDecodeFrom(buf, offset, i));
      if offset + i < |buf| && buf[offset + i] >= 128 {
        var y := buf[offset + i];
        GoStep(v, y, i);
        DecodersAgreeFrom(buf, offset, i + 1, v + Shl7(y % 128, i));
        ContinuedStep(buf, offset, v, i);
        PyContinues(buf, offset, i);
      }
    }
  }

  lemma {:induction false} TenthByte(buf: seq<byte>, offset: nat, v: u64)
    requires v < Shl7(1, 9)
    ensures GoDecodeFrom(buf, offset, 9, v)
      == if Overlong(buf, offset, 9) then None else Continued(v, 9, PyDecodeFrom(buf, offset, 9))
    ensures Overlong(buf, offset, 9) ==> PyDecodeFrom(buf, offset, 9).Some?
  {
    hide Shl7;
    ShlBounds(9);
    if offset + 9 < |buf| && buf[offset + 9] < 2 {
      ShlAdd(1, buf[offset + 9], 9);
      ShlMonotone(1 + buf[offset + 9], 2, 9);
    }
  }

  /** The two decoders agree exactly on the buffers that hold no overlong varint at the offset; Go
      rejects those and Python accepts them. */
  lemma DecodersAgreeIff(buf: seq<byte>, offset: nat)
    ensures GoDecode(buf, offset) == PyDecode(buf, offset) <==> !Overlong(buf, offset, 0)
    ensures Overlong(buf, offset, 0) ==> GoDecode(buf, offset).None? && PyDecode(buf, offset).Some?
  {
    DecodersAgreeFrom(buf, offset, 0, 0);
  }

  /** Nine continuation bytes and a tenth byte of 2: Python reads a number of more than 64 bits and Go
      nothing. */
  lemma TenBytesDiffer()
    ensures var buf: seq<byte> := [128, 128, 128, 128, 128, 128, 128, 128, 128, 2];
      GoDecode(buf, 0).None? && PyDecode(buf, 0).Some? && PyDecode(buf, 0).value.value >= U64
  {
    hide PyDecodeFrom, GoDecodeFrom, Shl7;
    var buf: seq<byte> := [128, 128, 128, 128, 128, 128, 128, 128, 128, 2];
    DecodersAgreeIff(buf, 0);
    OverlongIsBig(buf, 0, 0);
    ShlBounds(9);
  }

  /** The bytes of `piece` stand at `offset`. */
  ghost predicate At(buf: seq<byte>, offset: nat, piece: seq<byte>) {
    offset + |piece| <= |buf| && buf[offset..offset + |piece|] == piece
  }

  lemma AtCons(buf: seq<byte>, offset: nat, b: byte, rest: seq<byte>)
    requires At(buf, offset, [b] + rest)
    ensures offset < |buf| && buf[offset] == b && At(buf, offset + 1, rest)
  {
    var here := buf[offset..offset + |[b] + rest|];
    assert here[0] == b;
    assert buf[offset + 1..offset + 1 + |rest|] == here[1..];
  }

  /** What stands at the place of an encoded number: its only byte, or seven bits of it and the rest. */
  lemma {:induction false} AtEncoded(buf: seq<byte>, offset: nat, v: nat)
    requires At(buf, offset, Encode(v))
    ensures offset < |buf| && buf[offset] == if v < 128 then v else v % 128 + 128
    ensures v >= 128 ==> At(buf, offset + 1, Encode(v / 128)) && |Encode(v)| == 1 + |Encode(v / 128)|
    ensures v < 128 ==> |Encode(v)| == 1
  {
    hide At;
    if v < 128 {
      assert [v] == [v] + [];
      AtCons(buf, offset, v, []);
    } else {
      AtCons(buf, offset, v % 128 + 128, Encode(v / 128));
    }
  }

  lemma {:induction false} DecodeFromEncoded(buf: seq<byte>, offset: nat, i: nat, v: nat)
    requires i <= 9 && v < Shl7(1, 10 - i) && At(buf, offset + i, Encode(v))
    ensures PyDecodeFrom(buf, offset, i) == Some(Decoded(v, |Encode(v)|))
    decreases 10 - i
  {
    hide At, Encode, Shl7, PyDecodeFrom;
    AtEncoded(buf, offset + i, v);
    PyByte(buf, offset, i);
    if v >= 128 {
      LastIsSmall(i, v);
      DecodeFromEncoded(buf, offset, i + 1, v / 128);
      PyContinues(buf, offset, i);
    }
  }

  lemma LastIsSmall(i: nat, v: nat)
    requires i <= 9 && 128 <= v < Shl7(1, 10 - i)
    ensures i < 9 && v / 128 < Shl7(1, 9 - i)
  {
    assert Shl7(1, 1) == 128;
  }

  /** Both decoders read back every encoded 64-bit value, at any offset and whatever follows. */
  lemma DecodeRoundTrip(buf: seq<byte>, offset: nat, v: u64)
    requires At(buf, offset, Encode(v))
    ensures PyDecode(buf, offset) == Some(Decoded(v, |Encode(v)|))
    ensures GoDecode(buf, offset) == Some(Decoded(v, |Encode(v)|))
  {
    ShlBounds(9);
    assert Shl7(1, 10) == 128 * Shl7(1, 9);
    hide Shl7;
    DecodeFromEncoded(buf, offset, 0, v);
    DecodersAgreeIff(buf, offset);
    if Overlong(buf, offset, 0) {
      OverlongIsBig(buf, offset, 0);
    }
  }

  lemma {:induction false} OverlongIsBig(buf: seq<byte>, offset: nat, i: nat)
    requires i <= 9 && Overlong(buf, offset, i)
    ensures PyDecodeFrom(buf, offset, i).Some? && PyDecodeFrom(buf, offset, i).value.value >= Shl7(2, 9 - i)
    decreases 10 - i
  {
    if i < 9 {
      OverlongIsBig(buf, offset, i + 1);
    }
  }
}
