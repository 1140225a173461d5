/** VE.Direct text blocks: printing a list of records with a balancing checksum byte, demultiplexing
    the result, and looking fields up in it. */
module VeDirectText {
  import opened Wrappers
  import opened Bytes
  import opened HexProtocol
  import opened VeDirect

  datatype Record = Record(key: seq<byte>, value: seq<byte>)

  predicate GoodRecord(r: Record) {
    && r.key != [] && r.key != CHECKSUM_LABEL
    && TAB !in r.key && NEWLINE !in r.key && COLON !in r.key
    && NEWLINE !in r.value && COLON !in r.value
  }

  predicate GoodRecords(rs: seq<Record>) {
    forall i :: 0 <= i < |rs| ==> GoodRecord(rs[i])
  }

  /** What follows the first line break: each record and its line break, then the checksum record. */
  function Tail(rs: seq<Record>, check: byte): seq<byte> {
    if rs == [] then CHECKSUM_LABEL + [TAB, check]
    else rs[0].key + [TAB] + rs[0].value + [CR, NEWLINE] + Tail(rs[1..], check)
  }

  function Printed(rs: seq<Record>, check: byte): seq<byte> {
    [CR, NEWLINE] + Tail(rs, check)
  }

  /** The byte that makes a printed block add up to zero. */
  function Balance(rs: seq<Record>): byte {
    (256 - Sum(Printed(rs, 0)) % 256) % 256
  }

  /******* Demultiplexing a printed block *******/

  /** A state of the text side whose checksum is that of the bytes it has gathered. */
  function Gathered(phase: Phase, raw: seq<byte>, name: seq<byte>): State {
    State(phase, false, Sum(raw) % 256, raw, name, [])
  }

  lemma GatheredStep(phase: Phase, raw: seq<byte>, name: seq<byte>, b: byte)
    requires phase != ChecksumByte && b != COLON && |raw| < MAX_BLOCK_BYTES
    ensures Push(Gathered(phase, raw, name), b) == Output(
      match phase
      case Idle => Gathered(if b == NEWLINE then RecordBegin else Idle, raw + [b], name)
      case RecordBegin => Gathered(RecordName, raw + [b], [b])
      case RecordName =>
        if b == TAB then Gathered(if name == CHECKSUM_LABEL then ChecksumByte else RecordValue, raw + [b], name)
        else Gathered(RecordName, raw + [b], if |name| < MAX_NAME_BYTES then name + [b] else name)
      case RecordValue => Gathered(if b == NEWLINE then RecordBegin else RecordValue, raw + [b], name), None)
  {
    assert (raw + [b])[..|raw|] == raw;
    WrappingAdd(Sum(raw), b);
  }

  lemma FeedOne(s: State, b: byte)
    ensures Feed(s, [b]) == RunResult(Push(s, b).state, Events(Push(s, b).event))
  {
    hide Push;
    assert Events(Push(s, b).event) + [] == Events(Push(s, b).event);
  }

  lemma {:induction false} SilentByte(s: State, s': State, bytes: seq<byte>)
    requires bytes != [] && Push(s, bytes[0]) == Output(s', None)
    ensures Feed(s, bytes) == Feed(s', bytes[1..])
  {
    hide Push;
    assert [] + Feed(s', bytes[1..]).events == Feed(s', bytes[1..]).events;
  }

  /** Bytes that raise nothing, then more bytes. */
  lemma {:induction false} Then(s: State, a: seq<byte>, s1: State, b: seq<byte>, end: RunResult)
    requires Feed(s, a) == RunResult(s1, []) && Feed(s1, b) == end
    ensures Feed(s, a + b) == end
  {
    hide Push, Feed;
    FeedAppend(s, a, b);
    assert [] + end.events == end.events;
  }

  lemma {:induction false} QuietBytes(phase: Phase, raw: seq<byte>, name: seq<byte>, bytes: seq<byte>)
    requires phase == Idle || phase == RecordValue
    requires NEWLINE !in bytes && COLON !in bytes && |raw| + |bytes| <= MAX_BLOCK_BYTES
    ensures Feed(Gathered(phase, raw, name), bytes) == RunResult(Gathered(phase, raw + bytes, name), [])
    decreases |bytes|
  {
    hide Push, Gathered, Feed, Sum;
    if bytes == [] {
      assert raw + bytes == raw;
      FeedNothing(Gathered(phase, raw, name));
    } else {
      var raw' := raw + [bytes[0]];
      assert bytes[0] != NEWLINE && bytes[0] != COLON;
      GatheredStep(phase, raw, name, bytes[0]);
      SilentByte(Gathered(phase, raw, name), Gathered(phase, raw', name), bytes);
      QuietBytes(phase, raw', name, bytes[1..]);
      assert raw' + bytes[1..] == raw + bytes;
    }
  }

  function Capped(name: seq<byte>): seq<byte> {
    if |name| <= MAX_NAME_BYTES then name else name[..MAX_NAME_BYTES]
  }

  lemma CappedStep(seen: seq<byte>, b: byte)
    ensures Capped(seen + [b]) == if |Capped(seen)| < MAX_NAME_BYTES then Capped(seen) + [b] else Capped(seen)
  {
  }

  lemma NameStep(raw: seq<byte>, seen: seq<byte>, b: byte)
    requires b != TAB && b != COLON && |raw| < MAX_BLOCK_BYTES
    ensures Push(Gathered(RecordName, raw, Capped(seen)), b)
      == Output(Gathered(RecordName, raw + [b], Capped(seen + [b])), None)
  {
    hide Push, Gathered, Capped;
    GatheredStep(RecordName, raw, Capped(seen), b);
    CappedStep(seen, b);
  }

  lemma {:induction false} NameBytes(raw: seq<byte>, seen: seq<byte>, bytes: seq<byte>)
    requires TAB !in bytes && COLON !in bytes && |raw| + |bytes| <= MAX_BLOCK_BYTES
    ensures Feed(Gathered(RecordName, raw, Capped(seen)), bytes)
         == RunResult(Gathered(RecordName, raw + bytes, Capped(seen + bytes)), [])
    decreases |bytes|
  {
    hide Push, Gathered, Capped, Feed, Sum;
    if bytes == [] {
      assert raw + bytes == raw && seen + bytes == seen;
      FeedNothing(Gathered(RecordName, raw, Capped(seen)));
    } else {
      var raw', seen' := raw + [bytes[0]], seen + [bytes[0]];
      assert bytes[0] != TAB && bytes[0] != COLON;
      NameStep(raw, seen, bytes[0]);
      SilentByte(Gathered(RecordName, raw, Capped(seen)), Gathered(RecordName, raw', Capped(seen')), bytes);
      NameBytes(raw', seen', bytes[1..]);
      assert raw' + bytes[1..] == raw + bytes && seen' + bytes[1..] == seen + bytes;
    }
  }

  lemma CappedKey(key: seq<byte>)
    ensures Capped(key) == CHECKSUM_LABEL <==> key == CHECKSUM_LABEL
    ensures |key| <= MAX_NAME_BYTES ==> Capped(key) == key
  {
  }

  /** A label and its tab, from the start of a record. */
  lemma {:induction false} LabelBytes(raw: seq<byte>, name: seq<byte>, key: seq<byte>)
    requires key != [] && TAB !in key && COLON !in key && |raw| + |key| + 1 <= MAX_BLOCK_BYTES
    ensures var phase := if key == CHECKSUM_LABEL then ChecksumByte else RecordValue;
      Feed(Gathered(RecordBegin, raw, name), key + [TAB])
      == RunResult(Gathered(phase, raw + key + [TAB], Capped(key)), [])
  {
    hide Push, Gathered, Capped, Feed, Sum;
    var first, rest := key[0], key[1..];
    CappedKey(key);
    CappedKey([first]);
    var start := Gathered(RecordBegin, raw, name);
    var named := Gathered(RecordName, raw + key, Capped(key));
    assert first != COLON;
    GatheredStep(RecordBegin, raw, name, first);
    SilentByte(start, Gathered(RecordName, raw + [first], [first]), key);
    NameBytes(raw + [first], [first], rest);
    assert key == [first] + rest && raw + [first] + rest == raw + key;
    GatheredStep(RecordName, raw + key, Capped(key), TAB);
    FeedOne(named, TAB);
    Then(start, key, named, [TAB], Feed(named, [TAB]));
  }

  lemma LineBreak(phase: Phase, raw: seq<byte>, name: seq<byte>)
    requires phase == Idle || phase == RecordValue
    requires |raw| + 2 <= MAX_BLOCK_BYTES
    ensures Feed(Gathered(phase, raw, name), [CR, NEWLINE])
      == RunResult(Gathered(RecordBegin, raw + [CR, NEWLINE], name), [])
  {
    hide Push, Gathered, Feed;
    GatheredStep(phase, raw, name, CR);
    GatheredStep(phase, raw + [CR], name, NEWLINE);
    FeedOne(Gathered(phase, raw + [CR], name), NEWLINE);
    SilentByte(Gathered(phase, raw, name), Gathered(phase, raw + [CR], name), [CR, NEWLINE]);
    assert [CR, NEWLINE][1..] == [NEWLINE] && raw + [CR] + [NEWLINE] == raw + [CR, NEWLINE];
  }

  ghost function BlockEvent(block: seq<byte>): Event {
    if Sum(block) % 256 == 0 then TextBlock(block) else TextBlockBad
  }

  lemma LastByte(raw: seq<byte>, name: seq<byte>, check: byte)
    requires |raw| < MAX_BLOCK_BYTES
    ensures Feed(Gathered(ChecksumByte, raw, name), [check]) == RunResult(INITIAL, [BlockEvent(raw + [check])])
  {
    assert (raw + [check])[..|raw|] == raw;
    WrappingAdd(Sum(raw), check);
    FeedOne(Gathered(ChecksumByte, raw, name), check);
  }

  lemma {:induction false} TailBytes(raw: seq<byte>, name: seq<byte>, rs: seq<Record>, check: byte)
    requires GoodRecords(rs) && |raw| + |Tail(rs, check)| <= MAX_BLOCK_BYTES
    ensures Feed(Gathered(RecordBegin, raw, name), Tail(rs, check))
      == RunResult(INITIAL, [BlockEvent(raw + Tail(rs, check))])
    decreases |rs|
  {
    hide Push, Gathered, BlockEvent, Feed, Capped, Sum;
    var start := Gathered(RecordBegin, raw, name);
    if rs == [] {
      var raw' := raw + CHECKSUM_LABEL + [TAB];
      assert TAB !in CHECKSUM_LABEL && COLON !in CHECKSUM_LABEL;
      LabelBytes(raw, name, CHECKSUM_LABEL);
      LastByte(raw', Capped(CHECKSUM_LABEL), check);
      assert Tail(rs, check) == CHECKSUM_LABEL + [TAB] + [check];
      assert raw' + [check] == raw + Tail(rs, check);
      Then(start, CHECKSUM_LABEL + [TAB], Gathered(ChecksumByte, raw', Capped(CHECKSUM_LABEL)), [check],
           RunResult(INITIAL, [BlockEvent(raw + Tail(rs, check))]));
    } else {
      var r, rest := rs[0], Tail(rs[1..], check);
      var line := r.key + [TAB] + r.value + [CR, NEWLINE];
      assert Tail(rs, check) == line + rest && |line| == |r.key| + |r.value| + 3;
      RecordBytes(raw, name, r);
      TailBytes(raw + line, Capped(r.key), rs[1..], check);
      assert raw + line + rest == raw + Tail(rs, check);
      Then(start, line, Gathered(RecordBegin, raw + line, Capped(r.key)), rest,
           RunResult(INITIAL, [BlockEvent(raw + Tail(rs, check))]));
    }
  }

  lemma {:induction false} RecordBytes(raw: seq<byte>, name: seq<byte>, r: Record)
    requires GoodRecord(r) && |raw| + |r.key| + |r.value| + 3 <= MAX_BLOCK_BYTES
    ensures var line := r.key + [TAB] + r.value + [CR, NEWLINE];
      Feed(Gathered(RecordBegin, raw, name), line) == RunResult(Gathered(RecordBegin, raw + line, Capped(r.key)), [])
  {
    hide Push, Gathered, Capped, Feed, Sum;
    var start := Gathered(RecordBegin, raw, name);
    var raw1 := raw + r.key + [TAB];
    var raw2 := raw1 + r.value;
    LabelBytes(raw, name, r.key);
    QuietBytes(RecordValue, raw1, Capped(r.key), r.value);
    LineBreak(RecordValue, raw2, Capped(r.key));
    Then(start, r.key + [TAB], Gathered(RecordValue, raw1, Capped(r.key)), r.value,
         RunResult(Gathered(RecordValue, raw2, Capped(r.key)), []));
    var line := r.key + [TAB] + r.value + [CR, NEWLINE];
    assert raw2 + [CR, NEWLINE] == raw + line;
    Then(start, r.key + [TAB] + r.value, Gathered(RecordValue, raw2, Capped(r.key)), [CR, NEWLINE],
         RunResult(Gathered(RecordBegin, raw + line, Capped(r.key)), []));
  }

  /** A printed block of at most 4096 bytes yields one event: the block itself when its bytes add up to
      zero, a rejection otherwise; and leaves the demultiplexer as new. */
  lemma PrintedBlock(rs: seq<Record>, check: byte)
    requires GoodRecords(rs) && |Printed(rs, check)| <= MAX_BLOCK_BYTES
    ensures Feed(INITIAL, Printed(rs, check)) == RunResult(INITIAL, [BlockEvent(Printed(rs, check))])
  {
    assert INITIAL == Gathered(Idle, [], []);
    hide Push, Gathered, BlockEvent, Feed, Sum;
    LineBreak(Idle, [], []);
    assert [] + [CR, NEWLINE] == [CR, NEWLINE];
    TailBytes([CR, NEWLINE], [], rs, check);
    Then(INITIAL, [CR, NEWLINE], Gathered(RecordBegin, [CR, NEWLINE], []), Tail(rs, check),
         RunResult(INITIAL, [BlockEvent(Printed(rs, check))]));
  }

  lemma {:induction false} TailLast(rs: seq<Record>, check: byte)
    ensures |Tail(rs, check)| == |Tail(rs, 0)| && Sum(Tail(rs, check)) == Sum(Tail(rs, 0)) + check
    decreases |rs|
  {
    if rs == [] {
      SumAppend(CHECKSUM_LABEL + [TAB], [check]);
      SumAppend(CHECKSUM_LABEL + [TAB], [0]);
      assert Tail(rs, check) == CHECKSUM_LABEL + [TAB] + [check] && Tail(rs, 0) == CHECKSUM_LABEL + [TAB] + [0];
      assert Sum([check]) == Sum([]) + check;
    } else {
      TailLast(rs[1..], check);
      var line := rs[0].key + [TAB] + rs[0].value + [CR, NEWLINE];
      SumAppend(line, Tail(rs[1..], check));
      SumAppend(line, Tail(rs[1..], 0));
    }
  }

  /** With its balancing byte a printed block is delivered. */
  lemma BalancedBlockIsDelivered(rs: seq<Record>)
    requires GoodRecords(rs) && |Printed(rs, 0)| <= MAX_BLOCK_BYTES
    ensures var block := Printed(rs, Balance(rs)); Feed(INITIAL, block) == RunResult(INITIAL, [TextBlock(block)])
  {
    hide Feed, Sum;
    var check := Balance(rs);
    TailLast(rs, check);
    SumAppend([CR, NEWLINE], Tail(rs, check));
    SumAppend([CR, NEWLINE], Tail(rs, 0));
    Balances(Sum(Printed(rs, 0)));
    PrintedBlock(rs, check);
  }

  lemma Balances(sum: nat)
    ensures (sum + (256 - sum % 256) % 256) % 256 == 0
  {
  }

  /******* Looking fields up *******/

  function StripCr(record: seq<byte>): seq<byte> {
    if record != [] && record[|record| - 1] == CR then record[..|record| - 1] else record
  }

  /** `text_field`; `utf8` says which values are valid UTF-8. */
  function TextField(block: seq<byte>, key: seq<byte>, utf8: seq<byte> -> bool): Option<seq<byte>>
    decreases |block|
  {
    var n := IndexOf(block, NEWLINE);
    var record := StripCr(block[..n]);
    var tab := IndexOf(record, TAB);
    if tab < |record| && record[..tab] == key then
      if utf8(record[tab + 1..]) then Some(record[tab + 1..]) else None
    else if n < |block| then TextField(block[n + 1..], key, utf8)
    else None
  }

  function FirstValue(rs: seq<Record>, key: seq<byte>): Option<seq<byte>> {
    if rs == [] then None
    else if rs[0].key == key then Some(rs[0].value)
    else FirstValue(rs[1..], key)
  }

  lemma {:induction false} FirstLine(line: seq<byte>, rest: seq<byte>, key: seq<byte>, utf8: seq<byte> -> bool)
    requires NEWLINE !in line
    ensures var record := StripCr(line); var tab := IndexOf(record, TAB);
      TextField(line + [NEWLINE] + rest, key, utf8)
      == if tab < |record| && record[..tab] == key
         then (if utf8(record[tab + 1..]) then Some(record[tab + 1..]) else None)
         else TextField(rest, key, utf8)
  {
    hide IndexOf, StripCr;
    var block := line + [NEWLINE] + rest;
    assert block[..|line|] == line && block[|line| + 1..] == rest && block[|line|] == NEWLINE;
    FoundAt(block, NEWLINE, |line|);
  }

  lemma {:induction false} FieldInTail(rs: seq<Record>, check: byte, key: seq<byte>, utf8: seq<byte> -> bool)
    requires GoodRecords(rs) && key != CHECKSUM_LABEL
    ensures var v := FirstValue(rs, key);
      TextField(Tail(rs, check), key, utf8) == if v.Some? && utf8(v.value) then v else None
    decreases |rs|
  {
    if rs == [] {
      ChecksumLine(check, key, utf8);
    } else {
      RecordLine(rs[0], Tail(rs[1..], check), key, utf8);
      FieldInTail(rs[1..], check, key, utf8);
    }
  }

  lemma {:induction false} RecordLine(r: Record, rest: seq<byte>, key: seq<byte>, utf8: seq<byte> -> bool)
    requires GoodRecord(r)
    ensures TextField(r.key + [TAB] + r.value + [CR, NEWLINE] + rest, key, utf8)
      == if r.key == key then (if utf8(r.value) then Some(r.value) else None) else TextField(rest, key, utf8)
  {
    hide TextField, IndexOf;
    var line, record := r.key + [TAB] + r.value + [CR], r.key + [TAB] + r.value;
    assert r.key + [TAB] + r.value + [CR, NEWLINE] + rest == line + [NEWLINE] + rest;
    FirstLine(line, rest, key, utf8);
    assert StripCr(line) == record;
    assert record[..|r.key|] == r.key && record[|r.key| + 1..] == r.value && record[|r.key|] == TAB;
    FoundAt(record, TAB, |r.key|);
  }

  /** The only line of a block without a line break. */
  lemma {:induction false} OnlyLine(line: seq<byte>, key: seq<byte>, utf8: seq<byte> -> bool)
    requires NEWLINE !in line
    ensures var record := StripCr(line); var tab := IndexOf(record, TAB);
      TextField(line, key, utf8)
      == if tab < |record| && record[..tab] == key && utf8(record[tab + 1..]) then Some(record[tab + 1..]) else None
  {
    hide IndexOf, StripCr;
    NotFound(line, NEWLINE);
    assert line[..|line|] == line;
  }

  /** A record whose label is "Checksum" answers for no other label. */
  lemma ChecksumRecord(record: seq<byte>, key: seq<byte>)
    requires CHECKSUM_LABEL + [TAB] <= record && key != CHECKSUM_LABEL
    ensures IndexOf(record, TAB) == 8 < |record| && record[..8] != key
  {
    hide IndexOf;
    assert record[..9] == CHECKSUM_LABEL + [TAB];
    assert record[..8] == record[..9][..8] == CHECKSUM_LABEL && record[8] == record[..9][8] == TAB;
    FoundAt(record, TAB, 8);
  }

  lemma {:induction false} ChecksumLine(check: byte, key: seq<byte>, utf8: seq<byte> -> bool)
    requires key != CHECKSUM_LABEL
    ensures TextField(Tail([], check), key, utf8) == None
  {
    hide IndexOf, TextField;
    var line := CHECKSUM_LABEL + [TAB];
    var block := Tail([], check);
    assert block == line + [check];
    assert NEWLINE !in line && line[8] == TAB;
    if check == NEWLINE {
      assert block == line + [NEWLINE] + [];
      FirstLine(line, [], key, utf8);
      assert StripCr(line) == line;
      ChecksumRecord(line, key);
      NothingInNothing(key, utf8);
    } else {
      assert StripCr(block) == block || StripCr(block) == line;
      ChecksumRecord(StripCr(block), key);
      OnlyLine(block, key, utf8);
    }
  }

  lemma NothingInNothing(key: seq<byte>, utf8: seq<byte> -> bool)
    ensures TextField([], key, utf8) == None
  {
  }

  /** Looking any label but "Checksum" up in a printed block gives the value of the first record that
      carries it, if that value is valid UTF-8. */
  lemma FieldRoundTrip(rs: seq<Record>, check: byte, key: seq<byte>, utf8: seq<byte> -> bool)
    requires GoodRecords(rs) && key != CHECKSUM_LABEL
    ensures var v := FirstValue(rs, key);
      TextField(Printed(rs, check), key, utf8) == if v.Some? && utf8(v.value) then v else None
  {
    assert Printed(rs, check) == [CR] + [NEWLINE] + Tail(rs, check);
    FirstLine([CR], Tail(rs, check), key, utf8);
    assert StripCr([CR]) == [];
    FieldInTail(rs, check, key, utf8);
  }

  /** A line that ends without a carriage return is read like one with it. */
  lemma {:induction false} BareLine(r: Record, rest: seq<byte>, key: seq<byte>, utf8: seq<byte> -> bool)
    requires GoodRecord(r) && (r.value == [] || r.value[|r.value| - 1] != CR)
    ensures TextField(r.key + [TAB] + r.value + [NEWLINE] + rest, key, utf8)
      == if r.key == key then (if utf8(r.value) then Some(r.value) else None) else TextField(rest, key, utf8)
  {
    hide TextField, IndexOf;
    var record := r.key + [TAB] + r.value;
    FirstLine(record, rest, key, utf8);
    assert StripCr(record) == record;
    assert record[..|r.key|] == r.key && record[|r.key| + 1..] == r.value && record[|r.key|] == TAB;
    FoundAt(record, TAB, |r.key|);
  }

  lemma NothingGathered()
    ensures Gathered(Idle, [], []) == INITIAL
  {
  }

  lemma OneTooMany(raw: seq<byte>, b: byte)
    requires |raw| == 4096 && b != COLON
    ensures Feed(Gathered(Idle, raw, []), [b]) == RunResult(INITIAL, [TextBlockBad])
  {
    hide Sum, Push;
    LongBlock(Gathered(Idle, raw, []), b);
    FeedOne(Gathered(Idle, raw, []), b);
  }

  /** Text without a line break or colon raises nothing for 4096 bytes, and is given up with the next. */
  lemma {:induction false} EndlessLine(bytes: seq<byte>)
    requires |bytes| == 4097 && NEWLINE !in bytes && COLON !in bytes
    ensures Feed(INITIAL, bytes) == RunResult(INITIAL, [TextBlockBad])
    ensures Feed(INITIAL, bytes[..4096]).events == []
  {
    hide Push, Gathered, Feed, Sum;
    NothingGathered();
    var most, last := bytes[..4096], bytes[4096];
    QuietBytes(Idle, [], [], most);
    assert [] + most == most && bytes == most + [last];
    OneTooMany(most, last);
    Then(INITIAL, most, Gathered(Idle, most, []), [last], RunResult(INITIAL, [TextBlockBad]));
  }
}
