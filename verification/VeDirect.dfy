/** The VE.Direct demultiplexer: a byte-at-a-time machine that separates checksummed text blocks from
    hex frames interleaved with them. */
module VeDirect {
  import opened Wrappers
  import opened Bytes
  import opened HexProtocol

  const MAX_BLOCK_BYTES: nat := 4096
  const MAX_HEX_BYTES: nat := 512
  const MAX_NAME_BYTES: nat := 32
  const TAB: byte := 9
  /** "Checksum" */
  const CHECKSUM_LABEL: seq<byte> := [67, 104, 101, 99, 107, 115, 117, 109]

  datatype Phase = Idle | RecordBegin | RecordName | RecordValue | ChecksumByte

  datatype Event = TextBlock(block: seq<byte>) | TextBlockBad | HexFrame(frame: seq<byte>) | HexFrameBad

  datatype State = State(phase: Phase, inHex: bool, checksum: byte, raw: seq<byte>, name: seq<byte>, hex: seq<byte>)

  const INITIAL: State := State(Idle, false, 0, [], [], [])

  datatype Output = Output(state: State, event: Option<Event>)

  function Verdict(frame: seq<byte>): Event {
    if ValidFrame(frame) then HexFrame(frame) else HexFrameBad
  }

  /** One byte, outside a hex frame. */
  function PushText(s: State, b: byte): Output {
    var s := s.(checksum := (s.checksum + b) % 256, raw := s.raw + [b]);
    if |s.raw| > MAX_BLOCK_BYTES then
      Output(s.(phase := Idle, checksum := 0, raw := [], name := []), Some(TextBlockBad))
    else
      match s.phase
      case Idle => Output(if b == NEWLINE then s.(phase := RecordBegin) else s, None)
      case RecordBegin => Output(s.(name := [b], phase := RecordName), None)
      case RecordName =>
        if b == TAB then
          Output(s.(phase := if s.name == CHECKSUM_LABEL then ChecksumByte else RecordValue), None)
        else
          Output(if |s.name| < MAX_NAME_BYTES then s.(name := s.name + [b]) else s, None)
      case RecordValue => Output(if b == NEWLINE then s.(phase := RecordBegin) else s, None)
      case ChecksumByte =>
        Output(s.(raw := [], checksum := 0, name := [], phase := Idle),
               Some(if s.checksum == 0 then TextBlock(s.raw) else TextBlockBad))
  }

  function Push(s: State, b: byte): Output {
    if s.inHex then
      if b == NEWLINE then Output(s.(hex := [], inHex := false), Some(Verdict(s.hex)))
      else if |s.hex| + 1 > MAX_HEX_BYTES then Output(s.(hex := [], inHex := false), Some(HexFrameBad))
      else Output(s.(hex := s.hex + [b]), None)
    else if b == COLON && s.phase != ChecksumByte then Output(s.(inHex := true, hex := [b]), None)
    else PushText(s, b)
  }

  /** The program's demultiplexer object. */
  class VeDirectDemux {
    var phase: Phase
    var inHex: bool
    var checksum: byte
    var raw: seq<byte>
    var name: seq<byte>
    var hex: seq<byte>

    function View(): State
      reads this
    {
      State(phase, inHex, checksum, raw, name, hex)
    }

    constructor ()
      ensures View() == INITIAL
    {
      phase, inHex, checksum, raw, name, hex := Idle, false, 0, [], [], [];
    }

    method ResetText()
      modifies this
      ensures View() == old(View()).(phase := Idle, checksum := 0, raw := [], name := [])
    {
      phase := Idle;
      checksum := 0;
      raw := [];
      name := [];
    }

    method PushByte(b: byte) returns (event: Option<Event>)
      modifies this
      ensures Output(View(), event) == Push(old(View()), b)
    {
      if inHex {
        if b == NEWLINE {
          var frame := hex;
          hex := [];
          inHex := false;
          var ok := ValidateFrame(frame);
          return Some(if ok then HexFrame(frame) else HexFrameBad);
        }
        hex := hex + [b];
        if |hex| > MAX_HEX_BYTES {
          hex := [];
          inHex := false;
          return Some(HexFrameBad);
        }
        return None;
      }
      if b == COLON && phase != ChecksumByte {
        inHex := true;
        hex := [];
        hex := hex + [b];
        return None;
      }
      checksum := (checksum + b) % 256;
      raw := raw + [b];
      if |raw| > MAX_BLOCK_BYTES {
        ResetText();
        return Some(TextBlockBad);
      }
      match phase {
        case Idle =>
          if b == NEWLINE { phase := RecordBegin; }
          event := None;
        case RecordBegin =>
          name := [];
          name := name + [b];
          phase := RecordName;
          event := None;
        case RecordName =>
          if b == TAB {
            phase := if name == CHECKSUM_LABEL then ChecksumByte else RecordValue;
          } else if |name| < MAX_NAME_BYTES {
            name := name + [b];
          }
          event := None;
        case RecordValue =>
          if b == NEWLINE { phase := RecordBegin; }
          event := None;
        case ChecksumByte =>
          var valid := checksum == 0;
          var block := raw;
          raw := [];
          checksum := 0;
          name := [];
          phase := Idle;
          event := Some(if valid then TextBlock(block) else TextBlockBad);
      }
    }
  }

  /******* Runs *******/

  datatype RunResult = RunResult(state: State, events: seq<Event>)

  function Events(e: Option<Event>): seq<Event> {
    if e.None? then [] else [e.value]
  }

  function Feed(s: State, bytes: seq<byte>): RunResult
    decreases |bytes|
  {
    if bytes == [] then RunResult(s, [])
    else
      var o := Push(s, bytes[0]);
      var rest := Feed(o.state, bytes[1..]);
      RunResult(rest.state, Events(o.event) + rest.events)
  }

  lemma {:induction false} FeedAppend(s: State, a: seq<byte>, b: seq<byte>)
    ensures var first := Feed(s, a); var second := Feed(first.state, b);
      Feed(s, a + b) == RunResult(second.state, first.events + second.events)
    decreases |a|
  {
    if a == [] {
      assert a + b == b;
      assert [] + Feed(s, b).events == Feed(s, b).events;
    } else {
      hide Push;
      var o := Push(s, a[0]);
      assert (a + b)[1..] == a[1..] + b;
      FeedAppend(o.state, a[1..], b);
      var first := Feed(o.state, a[1..]);
      var second := Feed(first.state, b);
      assert Events(o.event) + (first.events + second.events) == Events(o.event) + first.events + second.events;
    }
  }

  predicate BetweenFrames(s: State) {
    !s.inHex && s.hex == []
  }

  /** Outside a hex frame there is no leftover of one. */
  predicate NoLeftover(s: State) {
    s.inHex || s.hex == []
  }

  lemma {:induction false} NeverLeftover(s: State, bytes: seq<byte>)
    requires NoLeftover(s)
    ensures NoLeftover(Feed(s, bytes).state)
    decreases |bytes|
  {
    if bytes != [] {
      assert NoLeftover(Push(s, bytes[0]).state);
      hide Push;
      NeverLeftover(Push(s, bytes[0]).state, bytes[1..]);
    }
  }

  predicate IsText(e: Event) {
    e.TextBlock? || e.TextBlockBad?
  }

  lemma TextEventResets(s: State, b: byte)
    requires NoLeftover(s)
    requires var e := Push(s, b).event; e.Some? && IsText(e.value)
    ensures Push(s, b).state == INITIAL
  {
  }

  /** On every stream, after a text event the demultiplexer behaves as freshly created: what it reports from
      there on, and the state it ends in, are those of a new one fed the rest. */
  lemma AfreshAfterTextEvent(bytes: seq<byte>, b: byte, rest: seq<byte>)
    requires var e := Push(Feed(INITIAL, bytes).state, b).event; e.Some? && IsText(e.value)
    ensures var anew := Feed(INITIAL, rest);
      Feed(INITIAL, bytes + [b] + rest) == RunResult(anew.state, Feed(INITIAL, bytes + [b]).events + anew.events)
  {
    var s := Feed(INITIAL, bytes).state;
    NeverLeftover(INITIAL, bytes);
    TextEventResets(s, b);
    assert Feed(s, [b]).state == Feed(Push(s, b).state, [b][1..]).state == INITIAL;
    hide Push, Feed;
    FeedAppend(INITIAL, bytes, [b]);
    FeedAppend(INITIAL, bytes + [b], rest);
  }

  lemma FeedCons(s: State, b: byte, bytes: seq<byte>)
    ensures var o := Push(s, b); var rest := Feed(o.state, bytes);
      Feed(s, [b] + bytes) == RunResult(rest.state, Events(o.event) + rest.events)
  {
    hide Push;
    assert ([b] + bytes)[1..] == bytes;
  }

  lemma HexByte(s: State, b: byte)
    requires s.inHex && b != NEWLINE && |s.hex| < MAX_HEX_BYTES
    ensures Push(s, b) == Output(s.(hex := s.hex + [b]), None)
  {
  }

  lemma FeedNothing(s: State)
    ensures Feed(s, []) == RunResult(s, [])
  {
  }

  lemma {:induction false} FrameBody(s: State, f: seq<byte>)
    requires s.inHex && NEWLINE !in f && |s.hex| + |f| <= MAX_HEX_BYTES
    ensures Feed(s, f) == RunResult(s.(hex := s.hex + f), [])
    decreases |f|
  {
    hide Push, Feed;
    if f == [] {
      assert s.hex + f == s.hex;
      FeedNothing(s);
    } else {
      var b, rest := f[0], f[1..];
      assert f == [b] + rest;
      var s' := s.(hex := s.hex + [b]);
      HexByte(s, b);
      FeedCons(s, b, rest);
      FrameBody(s', rest);
      assert s'.hex + rest == s.hex + f;
    }
  }

  /** A whole frame, colon and newline included, yields its own verdict and leaves the text side as it
      was, unless it stands where a checksum byte is due. */
  lemma WholeFrame(s: State, body: seq<byte>)
    requires BetweenFrames(s) && s.phase != ChecksumByte
    requires NEWLINE !in body && |body| < MAX_HEX_BYTES
    ensures Feed(s, [COLON] + body + [NEWLINE]) == RunResult(s, [Verdict([COLON] + body)])
  {
    var inside := s.(inHex := true, hex := [COLON]);
    FeedAppend(s, [COLON] + body, [NEWLINE]);
    FeedAppend(s, [COLON], body);
    assert Feed(s, [COLON]) == RunResult(inside, []);
    FrameBody(inside, body);
    assert [COLON] + body == inside.hex + body;
  }

  /** Any command of one nibble and up to 254 data bytes comes out as exactly one hex frame. */
  lemma CommandIsDelivered(s: State, cmd: byte, data: seq<byte>)
    requires BetweenFrames(s) && s.phase != ChecksumByte
    requires cmd < 16 && |data| <= 254
    ensures Feed(s, Command(cmd, data) + [NEWLINE]) == RunResult(s, [HexFrame(Command(cmd, data))])
  {
    var frame := Command(cmd, data);
    CommandIsValid(cmd, data);
    assert frame == [COLON] + frame[1..];
    assert forall b :: b in frame[1..] ==> b in frame;
    WholeFrame(s, frame[1..]);
  }

  /******* Hex frames between text bytes *******/

  datatype Item = Text(b: byte) | Frame(body: seq<byte>)

  function Flatten(items: seq<Item>): seq<byte> {
    if items == [] then []
    else (match items[0] case Text(b) => [b] case Frame(body) => [COLON] + body + [NEWLINE]) + Flatten(items[1..])
  }

  function TextBytes(items: seq<Item>): seq<byte> {
    if items == [] then []
    else (if items[0].Text? then [items[0].b] else []) + TextBytes(items[1..])
  }

  function Verdicts(items: seq<Item>): seq<Event> {
    if items == [] then []
    else (if items[0].Frame? then [Verdict([COLON] + items[0].body)] else []) + Verdicts(items[1..])
  }

  function TextEvents(es: seq<Event>): seq<Event> {
    if es == [] then [] else (if IsText(es[0]) then [es[0]] else []) + TextEvents(es[1..])
  }

  function HexEvents(es: seq<Event>): seq<Event> {
    if es == [] then [] else (if IsText(es[0]) then [] else [es[0]]) + HexEvents(es[1..])
  }

  /** Text bytes that are colons are checksum bytes; frames fit the buffer and never stand directly
      before a checksum byte.  `s` is the state the text alone has reached. */
  ghost predicate WellPlaced(s: State, items: seq<Item>)
    decreases |items|
  {
    items == [] ||
    match items[0]
    case Text(b) => (b != COLON || s.phase == ChecksumByte) && WellPlaced(Push(s, b).state, items[1..])
    case Frame(body) =>
      s.phase != ChecksumByte && NEWLINE !in body && |body| < MAX_HEX_BYTES && WellPlaced(s, items[1..])
  }

  /** What interleaving promises of a state and items. */
  ghost predicate Invisible(s: State, items: seq<Item>) {
    var mixed, text := Feed(s, Flatten(items)), Feed(s, TextBytes(items));
    && mixed.state == text.state && BetweenFrames(text.state)
    && TextEvents(mixed.events) == text.events
    && HexEvents(mixed.events) == Verdicts(items)
  }

  lemma TextByte(s: State, b: byte)
    requires BetweenFrames(s) && (b != COLON || s.phase == ChecksumByte)
    ensures var o := Push(s, b); BetweenFrames(o.state) && (o.event.Some? ==> IsText(o.event.value))
  {
  }

  lemma {:induction false} TextItem(s: State, b: byte, items: seq<Item>)
    requires BetweenFrames(s) && (b != COLON || s.phase == ChecksumByte)
    requires Invisible(Push(s, b).state, items)
    ensures Invisible(s, [Text(b)] + items)
  {
    hide Push, Feed, BetweenFrames, TextEvents, HexEvents;
    TextByte(s, b);
    var o, all := Push(s, b), [Text(b)] + items;
    assert all[1..] == items;
    assert Flatten(all) == [b] + Flatten(items) && TextBytes(all) == [b] + TextBytes(items);
    assert Verdicts(all) == [] + Verdicts(items) == Verdicts(items);
    FeedCons(s, b, Flatten(items));
    FeedCons(s, b, TextBytes(items));
    FilterCons(o.event, Feed(o.state, Flatten(items)).events);
  }

  lemma {:induction false} FrameItem(s: State, body: seq<byte>, items: seq<Item>)
    requires BetweenFrames(s) && s.phase != ChecksumByte && NEWLINE !in body && |body| < MAX_HEX_BYTES
    requires Invisible(s, items)
    ensures Invisible(s, [Frame(body)] + items)
  {
    hide Push, Feed, TextEvents, HexEvents;
    var all, frame := [Frame(body)] + items, [COLON] + body + [NEWLINE];
    assert all[1..] == items;
    assert Flatten(all) == frame + Flatten(items) && TextBytes(all) == [] + TextBytes(items) == TextBytes(items);
    assert Verdicts(all) == [Verdict([COLON] + body)] + Verdicts(items);
    WholeFrame(s, body);
    FeedAppend(s, frame, Flatten(items));
    FilterCons(Some(Verdict([COLON] + body)), Feed(s, Flatten(items)).events);
  }

  /** Interleaving changes neither the text events nor the frames' verdicts nor the final state. */
  lemma {:induction false} InterleavingIsInvisible(s: State, items: seq<Item>)
    requires BetweenFrames(s) && WellPlaced(s, items)
    ensures Invisible(s, items)
    decreases |items|
  {
    if items != [] {
      hide Invisible, Push;
      var rest := items[1..];
      assert items == [items[0]] + rest;
      match items[0] {
        case Text(b) =>
          TextByte(s, b);
          InterleavingIsInvisible(Push(s, b).state, rest);
          TextItem(s, b, rest);
        case Frame(body) =>
          InterleavingIsInvisible(s, rest);
          FrameItem(s, body, rest);
      }
    }
  }

  lemma FilterCons(e: Option<Event>, es: seq<Event>)
    ensures TextEvents(Events(e) + es) == (if e.Some? && IsText(e.value) then [e.value] else []) + TextEvents(es)
    ensures HexEvents(Events(e) + es) == (if e.Some? && !IsText(e.value) then [e.value] else []) + HexEvents(es)
  {
    if e.None? {
      assert Events(e) + es == es;
    } else {
      assert (Events(e) + es)[1..] == es;
    }
  }

  /** Where a checksum byte is due, a frame's colon is taken for that byte. */
  lemma ColonAsChecksumByte(s: State)
    requires BetweenFrames(s) && s.phase == ChecksumByte
    ensures Push(s, COLON).event.Some? && IsText(Push(s, COLON).event.value) && Push(s, COLON).state == INITIAL
  {
  }

  /** A frame that fits the buffer is invisible to the text side, and yields its own verdict alone, exactly
      where no checksum byte is due. */
  lemma FrameInvisibleIff(s: State, body: seq<byte>)
    requires BetweenFrames(s) && NEWLINE !in body && |body| < MAX_HEX_BYTES
    ensures Feed(s, [COLON] + body + [NEWLINE]) == RunResult(s, [Verdict([COLON] + body)]) <==> s.phase != ChecksumByte
  {
    if s.phase != ChecksumByte {
      WholeFrame(s, body);
    } else {
      ColonAsChecksumByte(s);
      hide Push, Feed;
      assert [COLON] + body + [NEWLINE] == [COLON] + (body + [NEWLINE]);
      FeedCons(s, COLON, body + [NEWLINE]);
      assert Feed(s, [COLON] + body + [NEWLINE]).events[0] == Push(s, COLON).event.value;
    }
  }

  /** A frame longer than 512 bytes is rejected with its 513th, and text goes on from there. */
  lemma LongFrame(s: State, body: seq<byte>)
    requires BetweenFrames(s) && s.phase != ChecksumByte && NEWLINE !in body && |body| == 512
    ensures Feed(s, [COLON] + body) == RunResult(s, [HexFrameBad])
  {
    var inside, most, last := s.(inHex := true, hex := [COLON]), body[..511], body[511];
    assert Push(s, COLON) == Output(inside, None);
    var full := inside.(hex := inside.hex + most);
    assert last != NEWLINE && Push(full, last) == Output(s, Some(HexFrameBad));
    hide Push, Feed;
    assert body == most + [last] && forall b :: b in most ==> b in body;
    FrameBody(inside, most);
    FeedCons(s, COLON, body);
    FeedAppend(inside, most, [last]);
    assert [last] == [last] + [];
    FeedCons(full, last, []);
    FeedNothing(s);
  }

  /** The 4097th byte of a block is one too many, whatever it is. */
  lemma LongBlock(s: State, b: byte)
    requires BetweenFrames(s) && |s.raw| == 4096 && (b != COLON || s.phase == ChecksumByte)
    ensures Push(s, b) == Output(INITIAL, Some(TextBlockBad))
  {
  }
}
