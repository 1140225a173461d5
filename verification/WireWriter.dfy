/** Gremlin's writers: the Python writer over a byte array and a position, the Python streaming writer,
    and the Go writer over a slice that never grows past its capacity. */
module WireWriter {
  import opened Wrappers
  import opened Bytes
  import opened Varint
  import opened WireReader
  import opened MessageSize

  /** Bytes laid over a buffer, which grows when they run past its end. */
  function Over(buf: seq<byte>, at: nat, piece: seq<byte>): seq<byte>
    requires at <= |buf|
  {
    buf[..at] + piece + if at + |piece| <= |buf| then buf[at + |piece|..] else []
  }

  lemma NothingOver(buf: seq<byte>, at: nat)
    requires at <= |buf|
    ensures Over(buf, at, []) == buf
  {
  }

  lemma OverTwice(buf: seq<byte>, at: nat, a: seq<byte>, b: seq<byte>)
    requires at <= |buf|
    ensures Over(Over(buf, at, a), at + |a|, b) == Over(buf, at, a + b)
  {
  }

  /** Whether a field written at `at` raises no index error: every varint in it must end inside the
      buffer's original capacity; raw bytes may run past it. */
  predicate NodeFits(n: Node, at: nat, capacity: nat)
    decreases n, 1
  {
    NodeBytes(Python, n) == [] ||
    match n
    case Fixed(_, _, _) => true
    case Blob(k, data) => at + |TagOf(Python, k, BytesWire)| + |Encode(|data|)| <= capacity
    case Text(k, chars) => at + |TagOf(Python, k, BytesWire)| + |Encode(|Utf8All(chars)|)| <= capacity
    case Message(k, fields, _) =>
      var body := at + |TagOf(Python, k, BytesWire)| + |Encode(Size(Python, fields))|;
      body <= capacity && MessageFits(fields, body, capacity)
    case _ => at + |NodeBytes(Python, n)| <= capacity
  }

  predicate MessageFits(ns: seq<Node>, at: nat, capacity: nat)
    decreases ns, 0
  {
    ns == [] || (NodeFits(ns[0], at, capacity) && MessageFits(ns[1..], at + |NodeBytes(Python, ns[0])|, capacity))
  }

  /** Past the end all capacities are alike. */
  lemma {:induction false} FitsPastEnd(ns: seq<Node>, at: nat, capacity: nat)
    requires at >= capacity
    ensures MessageFits(ns, at, capacity) == MessageFits(ns, at, at)
    decreases |ns|
  {
    if ns != [] {
      NodeFitsPastEnd(ns[0], at, capacity);
      hide NodeFits, NodeBytes;
      var next := at + |NodeBytes(Python, ns[0])|;
      FitsPastEnd(ns[1..], next, capacity);
      FitsPastEnd(ns[1..], next, at);
    }
  }

  lemma {:induction false} NodeFitsPastEnd(n: Node, at: nat, capacity: nat)
    requires at >= capacity
    ensures NodeFits(n, at, capacity) == NodeFits(n, at, at)
  {
    hide NodeBytes, MessageFits, TagOf, Utf8All, Size;
  }

  /** A message that fits as a whole raises nothing. */
  lemma {:induction false} WholeFits(ns: seq<Node>, at: nat, capacity: nat)
    requires at + |MessageBytes(Python, ns)| <= capacity
    ensures MessageFits(ns, at, capacity)
    decreases ns, 0
  {
    if ns != [] {
      hide NodeBytes, NodeFits;
      NodeWholeFits(ns[0], at, capacity);
      WholeFits(ns[1..], at + |NodeBytes(Python, ns[0])|, capacity);
    }
  }

  lemma {:induction false} NodeWholeFits(n: Node, at: nat, capacity: nat)
    requires at + |NodeBytes(Python, n)| <= capacity
    ensures NodeFits(n, at, capacity)
    decreases n, 1
  {
    hide TagOf, Utf8All, Size, Encode, MessageBytes, MessageFits;
    if n.Message? && NodeBytes(Python, n) != [] {
      WholeFits(n.fields, at + |TagOf(Python, n.number, BytesWire)| + |Encode(Size(Python, n.fields))|, capacity);
    }
  }

  /** Python's `Writer`. */
  class PyWriter {
    var buf: seq<byte>
    var pos: nat

    constructor (buf: seq<byte>)
      ensures this.buf == buf && pos == 0
    {
      this.buf := buf;
      pos := 0;
    }

    ghost predicate Valid()
      reads this
    {
      pos <= |buf|
    }

    /** `buf[pos] = b; pos += 1`; fails past the end. */
    method Put(b: byte) returns (ok: bool)
      modifies this
      ensures ok <==> old(pos) < |old(buf)|
      ensures ok ==> pos == old(pos) + 1 && buf == Over(old(buf), old(pos), [b])
      ensures !ok ==> pos == old(pos) && buf == old(buf)
    {
      ok := pos < |buf|;
      if ok {
        buf := buf[pos := b];
        pos := pos + 1;
      }
    }

    /** `append_varint`: five checks written out, then a loop.  It fails, with an index error, exactly
        when the encoding does not fit. */
    method AppendVarint(value: nat) returns (ok: bool)
      modifies this
      ensures |buf| == |old(buf)|
      ensures ok <==> old(pos) + |Encode(value)| <= |old(buf)|
      ensures ok ==> pos == old(pos) + |Encode(value)| && buf == Over(old(buf), old(pos), Encode(value))
    {
      var v := value;
      ghost var done: seq<byte> := [];
      for check := 0 to 4
        invariant v >= 0 && done + Encode(v) == Encode(value)
        invariant pos == old(pos) + |done| && |buf| == |old(buf)|
        invariant done != [] ==> pos <= |buf|
        invariant if done == [] then buf == old(buf) else buf == Over(old(buf), old(pos), done)
      {
        if v < 0x80 {
          ok := PutLast(old(buf), old(pos), done, v, value);
          return;
        }
        ok := PutMore(old(buf), old(pos), done, v, value);
        if !ok { return; }
        done := done + [Low7(v)];
        v := v / 128;
      }
      if v < 0x80 {
        ok := PutLast(old(buf), old(pos), done, v, value);
        return;
      }
      while true
        invariant v >= 0x80 && done + Encode(v) == Encode(value)
        invariant pos == old(pos) + |done| && |buf| == |old(buf)|
        invariant done != [] ==> pos <= |buf|
        invariant if done == [] then buf == old(buf) else buf == Over(old(buf), old(pos), done)
        decreases v
      {
        ok := PutMore(old(buf), old(pos), done, v, value);
        if !ok { return; }
        done := done + [Low7(v)];
        v := v / 128;
        if v < 0x80 {
          ok := PutLast(old(buf), old(pos), done, v, value);
          return;
        }
      }
    }

    /** One continuation byte of a varint of which `done` is written. */
    method PutMore(ghost start: seq<byte>, ghost at: nat, ghost done: seq<byte>, v: nat, ghost value: nat)
        returns (ok: bool)
      requires v >= 0x80 && done + Encode(v) == Encode(value)
      requires pos == at + |done| && |buf| == |start| && (done != [] ==> pos <= |buf|)
      requires if done == [] then buf == start else buf == Over(start, at, done)
      modifies this
      ensures |buf| == |start|
      ensures !ok ==> at + |Encode(value)| > |start|
      ensures ok ==> pos == at + |done| + 1 <= |buf| && buf == Over(start, at, done + [Low7(v)])
      ensures done + [Low7(v)] + Encode(v / 128) == Encode(value)
    {
      assert done + ([Low7(v)] + Encode(v / 128)) == done + [Low7(v)] + Encode(v / 128);
      ok := Put(v % 128 + 128);
      if ok && done != [] {
        OverTwice(start, at, done, [Low7(v)]);
      } else if ok {
        assert [] + [Low7(v)] == [Low7(v)];
      }
    }

    /** The last byte. */
    method PutLast(ghost start: seq<byte>, ghost at: nat, ghost done: seq<byte>, v: nat, ghost value: nat)
        returns (ok: bool)
      requires v < 0x80 && done + Encode(v) == Encode(value)
      requires pos == at + |done| && |buf| == |start| && (done != [] ==> pos <= |buf|)
      requires if done == [] then buf == start else buf == Over(start, at, done)
      modifies this
      ensures |buf| == |start|
      ensures ok <==> at + |Encode(value)| <= |start|
      ensures ok ==> pos == at + |Encode(value)| && buf == Over(start, at, Encode(value))
    {
      assert Encode(v) == [v] && |Encode(value)| == |done| + 1;
      ok := Put(v);
      if ok && done != [] {
        OverTwice(start, at, done, [v]);
      } else if ok {
        assert [] + [v] == [v];
      }
    }

    /** `append_raw_bytes`: a slice assignment, which grows the buffer when it runs past the end. */
    method AppendRaw(data: seq<byte>)
      requires Valid()
      modifies this
      ensures Valid() && pos == old(pos) + |data| && buf == Over(old(buf), old(pos), data)
    {
      var to := if pos + |data| <= |buf| then pos + |data| else |buf|;
      buf := buf[..pos] + data + buf[to..];
      pos := pos + |data|;
    }

    /** A tag and a varint. */
    method AppendNumber(tag: seq<byte>, v: nat) returns (ok: bool)
      requires Valid()
      modifies this
      ensures ok <==> old(pos) + |tag| + |Encode(v)| <= |old(buf)|
      ensures ok ==> Valid() && pos == old(pos) + |tag + Encode(v)| && buf == Over(old(buf), old(pos), tag + Encode(v))
    {
      AppendRaw(tag);
      ok := AppendVarint(v);
      OverTwice(old(buf), old(pos), tag, Encode(v));
    }

    /** A tag and the bytes of a fixed-width number. */
    method AppendFixed(tag: seq<byte>, raw: seq<byte>)
      requires Valid()
      modifies this
      ensures Valid() && pos == old(pos) + |tag + raw| && buf == Over(old(buf), old(pos), tag + raw)
    {
      AppendRaw(tag);
      AppendRaw(raw);
      OverTwice(old(buf), old(pos), tag, raw);
    }

    /** A length-delimited field: tag, length and bytes. */
    method AppendDelimited(tag: seq<byte>, data: seq<byte>) returns (ok: bool)
      requires Valid()
      modifies this
      ensures ok <==> old(pos) + |tag| + |Encode(|data|)| <= |old(buf)|
      ensures var bytes := tag + Encode(|data|) + data;
        ok ==> Valid() && pos == old(pos) + |bytes| && buf == Over(old(buf), old(pos), bytes)
    {
      hide Encode;
      ok := AppendNumber(tag, |data|);
      if ok {
        AppendRaw(data);
        OverTwice(old(buf), old(pos), tag + Encode(|data|), data);
      }
    }

    /** One field of the generated `encode_to`. */
    method EncodeNode(n: Node) returns (ok: bool)
      requires ValidNode(n) && Valid()
      modifies this
      ensures ok <==> NodeFits(n, old(pos), |old(buf)|)
      ensures ok ==> Valid() && pos == old(pos) + |NodeBytes(Python, n)|
      ensures ok ==> buf == Over(old(buf), old(pos), NodeBytes(Python, n))
      decreases n, 1
    {
      hide NodeBytes, ValidNode, Over;
      if NodeBytes(Python, n) == [] {
        NothingOver(buf, pos);
        return true;
      }
      if n.Message? {
        ok := EncodeMessageNode(n);
      } else if n.Unsigned? || n.Signed? || n.Zigzag? {
        ok := EncodeScalar(n);
      } else {
        ok := EncodeBytes(n);
      }
    }

    method EncodeMessageNode(n: Node) returns (ok: bool)
      requires ValidNode(n) && Valid() && NodeBytes(Python, n) != [] && n.Message?
      modifies this
      ensures ok <==> NodeFits(n, old(pos), |old(buf)|)
      ensures ok ==> Valid() && pos == old(pos) + |NodeBytes(Python, n)|
      ensures ok ==> buf == Over(old(buf), old(pos), NodeBytes(Python, n))
      decreases n, 0
    {
      hide Encode, Size, TagOf, Over, MessageBytes, MessageFits;
      ok := EncodeMessage(TagOf(Python, n.number, BytesWire), n.fields);
    }

    /** A field written as raw bytes. */
    method EncodeBytes(n: Node) returns (ok: bool)
      requires ValidNode(n) && Valid() && NodeBytes(Python, n) != [] && (n.Fixed? || n.Blob? || n.Text?)
      modifies this
      ensures ok <==> NodeFits(n, old(pos), |old(buf)|)
      ensures ok ==> Valid() && pos == old(pos) + |NodeBytes(Python, n)|
      ensures ok ==> buf == Over(old(buf), old(pos), NodeBytes(Python, n))
    {
      hide Encode, TagOf, Utf8All, Over;
      match n {
        case Fixed(k, wire, raw) =>
          AppendFixed(TagOf(Python, k, wire), raw);
          ok := true;
        case Blob(k, data) =>
          ok := AppendDelimited(TagOf(Python, k, BytesWire), data);
        case Text(k, chars) =>
          ok := AppendDelimited(TagOf(Python, k, BytesWire), Utf8All(chars));
      }
    }

    /** A field written as a varint. */
    method EncodeScalar(n: Node) returns (ok: bool)
      requires ValidNode(n) && Valid() && NodeBytes(Python, n) != [] && (n.Unsigned? || n.Signed? || n.Zigzag?)
      modifies this
      ensures ok <==> NodeFits(n, old(pos), |old(buf)|)
      ensures ok ==> Valid() && pos == old(pos) + |NodeBytes(Python, n)|
      ensures ok ==> buf == Over(old(buf), old(pos), NodeBytes(Python, n))
    {
      hide Encode, TagOf, Over;
      match n {
        case Unsigned(k, u) =>
          ok := AppendNumber(TagOf(Python, k, VarintWire), u);
        case Signed(k, v) =>
          ok := AppendNumber(TagOf(Python, k, VarintWire), v % U64);
        case Zigzag(k, v) =>
          ZigzagRoundTrip(v);
          ok := AppendNumber(TagOf(Python, k, VarintWire), PyZigzag(v));
      }
    }

    /** A nested message: its length prefix comes from running the size pass again. */
    method EncodeMessage(tag: seq<byte>, fields: seq<Node>) returns (ok: bool)
      requires (forall i :: 0 <= i < |fields| ==> ValidNode(fields[i])) && Valid()
      modifies this
      ensures var body := old(pos) + |tag| + |Encode(Size(Python, fields))|;
        ok <==> body <= |old(buf)| && MessageFits(fields, body, |old(buf)|)
      ensures var bytes := tag + Encode(Size(Python, fields)) + MessageBytes(Python, fields);
        ok ==> Valid() && pos == old(pos) + |bytes| && buf == Over(old(buf), old(pos), bytes)
      decreases fields, 1
    {
      hide Encode, Size, MessageBytes, ValidNode, MessageFits;
      var size := Size(Python, fields);
      ok := AppendNumber(tag, size);
      if ok {
        ok := EncodeTo(fields);
        OverTwice(old(buf), old(pos), tag + Encode(size), MessageBytes(Python, fields));
      }
    }

    /** The generated `encode_to`. */
    method EncodeTo(ns: seq<Node>) returns (ok: bool)
      requires (forall i :: 0 <= i < |ns| ==> ValidNode(ns[i])) && Valid()
      modifies this
      ensures ok <==> MessageFits(ns, old(pos), |old(buf)|)
      ensures ok ==> Valid() && pos == old(pos) + |MessageBytes(Python, ns)|
      ensures ok ==> buf == Over(old(buf), old(pos), MessageBytes(Python, ns))
      decreases ns, 0
    {
      hide NodeBytes, ValidNode, NodeFits;
      if ns == [] {
        NothingOver(buf, pos);
        return true;
      }
      ok := EncodeNode(ns[0]);
      if ok {
        if pos > |old(buf)| {
          FitsPastEnd(ns[1..], pos, |old(buf)|);
        }
        ok := EncodeTo(ns[1..]);
        OverTwice(old(buf), old(pos), NodeBytes(Python, ns[0]), MessageBytes(Python, ns[1..]));
      }
    }
  }

  /** The generated `encode`; `None` is an index error.  What it returns are the bytes of all fields, each nested
      message behind the length its size pass gave.  The buffer of the precomputed size suffices, without
      growing and without an unused tail, exactly when all strings are ASCII. */
  method PyEncode(ns: seq<Node>) returns (r: Option<seq<byte>>)
    requires forall i :: 0 <= i < |ns| ==> ValidNode(ns[i])
    ensures r.Some? <==> MessageFits(ns, 0, Size(Python, ns))
    ensures r.Some? ==> r.value == MessageBytes(Python, ns)
    ensures AllAscii(ns) <==> r.Some? && |r.value| == Size(Python, ns)
  {
    MessageSound(Python, ns);
    var size := Size(Python, ns);
    if |MessageBytes(Python, ns)| <= size {
      WholeFits(ns, 0, size);
    }
    hide MessageFits, Size, MessageBytes, AllAscii, ValidNode;
    if size == 0 {
      return Some([]);
    }
    var zeros: seq<byte> := seq(size, _ => 0);
    var w := new PyWriter(zeros);
    var ok := w.EncodeTo(ns);
    if !ok {
      return None;
    }
    assert w.buf == MessageBytes(Python, ns);
    r := Some(w.buf);
  }

  /** One accented letter before a number: the size pass is a byte short, and the number's varint runs
      past the end; on its own the letter only makes the buffer grow. */
  lemma AccentedLetterFails()
    ensures var letter := Text(1, [233]); var number := Unsigned(2, 1);
      && !MessageFits([letter, number], 0, Size(Python, [letter, number]))
      && MessageFits([letter], 0, Size(Python, [letter]))
      && |MessageBytes(Python, [letter])| == Size(Python, [letter]) + 1
  {
    hide NodeSize, NodeBytes, NodeFits;
    var letter, number := Text(1, [233]), Unsigned(2, 1);
    AccentedLetter();
    NumberOne();
    assert [letter, number][1..] == [number] && [number][1..] == [] && [letter][1..] == [];
    assert Size(Python, [number]) == 2 && Size(Python, [letter, number]) == 5;
    assert MessageFits([number], 4, 5) == NodeFits(number, 4, 5);
  }

  lemma AccentedLetter()
    ensures var letter := Text(1, [233]);
      && NodeSize(Python, letter) == 3 && |NodeBytes(Python, letter)| == 4
      && NodeFits(letter, 0, 3) && NodeFits(letter, 0, 5)
  {
    hide Encode, PySize;
    SmallNumber(10);
    SmallNumber(1);
    SmallNumber(2);
    assert Utf8All([233]) == Utf8(233) + Utf8All([]);
  }

  lemma NumberOne()
    ensures var number := Unsigned(2, 1);
      NodeSize(Python, number) == 2 && |NodeBytes(Python, number)| == 2 && !NodeFits(number, 4, 5)
  {
    hide Encode, PySize;
    SmallNumber(16);
    SmallNumber(1);
  }

  lemma SmallNumber(n: nat)
    requires n < 128
    ensures |Encode(n)| == 1 && PySize(n) == 1
  {
    PySizeIsLength(n);
  }

  /** Python's `StreamingWriter`. */
  class StreamingWriter {
    var stream: seq<byte>

    constructor ()
      ensures stream == []
    {
      stream := [];
    }

    method AppendVarint(value: nat)
      modifies this
      ensures stream == old(stream) + Encode(value)
    {
      var v := value;
      while v >= 0x80
        invariant v >= 0 && stream + Encode(v) == old(stream) + Encode(value)
      {
        assert stream + ([Low7(v)] + Encode(v / 128)) == stream + [Low7(v)] + Encode(v / 128);
        stream := stream + [v % 128 + 128];
        v := v / 128;
      }
      stream := stream + [v];
    }
  }

  /** Go's `Writer`. */
  class GoWriter {
    var buf: seq<byte>
    const capacity: nat

    constructor (size: nat)
      ensures buf == [] && capacity == size
    {
      buf := [];
      capacity := size;
    }

    /** `writeBytes`: reslicing past the capacity panics. */
    method WriteBytes(data: seq<byte>) returns (ok: bool)
      modifies this
      ensures ok <==> |old(buf)| + |data| <= capacity
      ensures buf == if ok then old(buf) + data else old(buf)
    {
      ok := |buf| + |data| <= capacity;
      if ok {
        buf := buf + data;
      }
    }

    /** One field of the generated `MarshalTo`; it succeeds exactly when it fits. */
    method MarshalNode(n: Node) returns (ok: bool)
      requires ValidNode(n) && |buf| <= capacity
      modifies this
      ensures ok <==> |old(buf)| + |NodeBytes(Go, n)| <= capacity
      ensures ok ==> buf == old(buf) + NodeBytes(Go, n)
      decreases n, 1
    {
      hide VarBytes, TagOf, Size;
      ok := true;
      if NodeBytes(Go, n) == [] {
        assert old(buf) + [] == old(buf);
        return;
      }
      match n {
        case Unsigned(k, u) => ok := WritePieces(TagOf(Go, k, VarintWire), VarBytes(Go, u), []);
        case Signed(k, v) => ok := WritePieces(TagOf(Go, k, VarintWire), VarBytes(Go, v % U64), []);
        case Zigzag(k, v) => ok := WritePieces(TagOf(Go, k, VarintWire), VarBytes(Go, GoZigzag(v)), []);
        case Fixed(k, wire, raw) => ok := WritePieces(TagOf(Go, k, wire), raw, []);
        case Blob(k, data) => ok := WritePieces(TagOf(Go, k, BytesWire), VarBytes(Go, |data|), data);
        case Text(k, chars) => ok := WritePieces(TagOf(Go, k, BytesWire), VarBytes(Go, |Utf8All(chars)|),
          Utf8All(chars));
        case Message(k, fields, keepEmpty) =>
          ok := WritePieces(TagOf(Go, k, BytesWire), VarBytes(Go, Size(Go, fields)), []);
          if ok {
            ok := MarshalTo(fields);
            var header := TagOf(Go, k, BytesWire) + VarBytes(Go, Size(Go, fields));
            assert ok ==> buf == old(buf) + (header + MessageBytes(Go, fields));
          }
      }
    }

    method WritePieces(a: seq<byte>, b: seq<byte>, c: seq<byte>) returns (ok: bool)
      requires |buf| <= capacity
      modifies this
      ensures ok <==> |old(buf)| + |a| + |b| + |c| <= capacity
      ensures ok ==> buf == old(buf) + (a + b + c) && (c == [] ==> buf == old(buf) + (a + b))
    {
      ok := WriteBytes(a);
      if ok { ok := WriteBytes(b); }
      if ok { ok := WriteBytes(c); }
      assert old(buf) + a + b + c == old(buf) + (a + b + c);
      assert c == [] ==> a + b + c == a + b;
    }

    /** The generated `MarshalTo`. */
    method MarshalTo(ns: seq<Node>) returns (ok: bool)
      requires (forall i :: 0 <= i < |ns| ==> ValidNode(ns[i])) && |buf| <= capacity
      modifies this
      ensures ok <==> |old(buf)| + |MessageBytes(Go, ns)| <= capacity
      ensures ok ==> buf == old(buf) + MessageBytes(Go, ns)
      decreases ns, 0
    {
      hide NodeBytes, ValidNode;
      if ns == [] {
        assert old(buf) + [] == old(buf);
        return true;
      }
      ok := MarshalNode(ns[0]);
      if ok {
        ok := MarshalTo(ns[1..]);
        assert ok ==> buf == old(buf) + (NodeBytes(Go, ns[0]) + MessageBytes(Go, ns[1..]));
      }
    }
  }

  /** The generated `Marshal`: the writer of the precomputed size is never resliced past its capacity
      and ends exactly full. */
  method GoMarshal(ns: seq<Node>) returns (r: seq<byte>)
    requires (forall i :: 0 <= i < |ns| ==> ValidNode(ns[i])) && Size(Go, ns) < U64
    ensures r == MessageBytes(Go, ns) && |r| == Size(Go, ns)
  {
    MessageSound(Go, ns);
    var size := Size(Go, ns);
    if size == 0 {
      return [];
    }
    var w := new GoWriter(size);
    var ok := w.MarshalTo(ns);
    r := w.buf;
    assert [] + MessageBytes(Go, ns) == MessageBytes(Go, ns);
  }
}
