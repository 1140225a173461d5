/** Reading lines from a serial stream that arrives in chunks.  The answers are a function of the bytes
    alone: how the stream was cut does not show. */
module LineReader {
  import opened Bytes

  const MAX_LINE_BYTES: nat := 4096

  datatype Line = Ready(content: seq<byte>) | Oversized | Eof

  datatype LineAndRest = LineAndRest(line: Line, rest: seq<byte>)

  /** The first line of a stream of bytes that then ends: a terminated line may have 4095 bytes before
      its newline, an unterminated tail 4096. */
  function FirstLine(bytes: seq<byte>): LineAndRest {
    var p := IndexOf(bytes, NEWLINE);
    if p < |bytes| then
      LineAndRest(if p + 1 <= MAX_LINE_BYTES then Ready(bytes[..p + 1]) else Oversized, bytes[p + 1..])
    else
      LineAndRest(if bytes == [] then Eof else if |bytes| <= MAX_LINE_BYTES then Ready(bytes) else Oversized, [])
  }

  /** All lines up to the end of the stream. */
  function Lines(bytes: seq<byte>): seq<Line>
    decreases |bytes|
  {
    if bytes == [] then [] else [FirstLine(bytes).line] + Lines(FirstLine(bytes).rest)
  }

  function Flat(chunks: seq<seq<byte>>): seq<byte> {
    if chunks == [] then [] else chunks[0] + Flat(chunks[1..])
  }

  ghost predicate NonEmpty(chunks: seq<seq<byte>>) {
    forall i :: 0 <= i < |chunks| ==> chunks[i] != []
  }

  /** The buffered reader: the chunks that are still to come, the first one perhaps partly consumed. */
  class ChunkedReader {
    var chunks: seq<seq<byte>>

    ghost predicate Valid()
      reads this
    {
      NonEmpty(chunks)
    }

    constructor (chunks: seq<seq<byte>>)
      requires NonEmpty(chunks)
      ensures Valid() && this.chunks == chunks
    {
      this.chunks := chunks;
    }

    /** `fill_buf`: an empty chunk means the end of the stream. */
    method FillBuf() returns (chunk: seq<byte>)
      requires Valid()
      ensures if chunks == [] then chunk == [] else chunk == chunks[0] && chunk != []
    {
      chunk := if chunks == [] then [] else chunks[0];
    }

    method Consume(n: nat)
      requires Valid() && chunks != [] && n <= |chunks[0]|
      modifies this
      ensures Valid()
      ensures Flat(chunks) == old(chunks[0])[n..] + Flat(old(chunks[1..]))
    {
      var rest := chunks[0][n..];
      if rest == [] {
        chunks := chunks[1..];
        assert rest + Flat(chunks) == Flat(chunks);
      } else {
        assert ([rest] + chunks[1..])[1..] == chunks[1..];
        chunks := [rest] + chunks[1..];
      }
    }

    /** `read_line`; `buf` is its line buffer. */
    method ReadLine() returns (line: Line)
      requires Valid()
      modifies this
      ensures Valid()
      ensures LineAndRest(line, Flat(chunks)) == FirstLine(Flat(old(chunks)))
    {
      hide IndexOf, FirstLine, NonEmpty;
      var buf: seq<byte> := [];
      var oversized := false;
      ghost var all := Flat(chunks);
      ghost var seen: seq<byte> := [];
      assert all == [] + all;
      while true
        invariant Valid() && all == seen + Flat(chunks) && NEWLINE !in seen
        invariant oversized <==> |seen| > MAX_LINE_BYTES
        invariant !oversized ==> buf == seen
        decreases |Flat(chunks)|
      {
        var chunk := FillBuf();
        if chunk == [] {
          assert all == seen;
          NoNewline(all);
          if buf == [] && !oversized {
            return Eof;
          }
          return if oversized then Oversized else Ready(buf);
        }
        var pos := IndexOf(chunk, NEWLINE);
        ghost var later := Flat(chunks[1..]);
        if pos < |chunk| {
          FoundNewline(seen, chunk, later, pos);
          if !oversized && |buf| + pos < MAX_LINE_BYTES {
            buf := buf + chunk[..pos + 1];
          } else {
            oversized := true;
          }
          Consume(pos + 1);
          return if oversized then Oversized else Ready(buf);
        }
        NoneFound(chunk);
        if !oversized && |buf| + |chunk| <= MAX_LINE_BYTES {
          buf := buf + chunk;
        } else {
          oversized := true;
        }
        Consume(|chunk|);
        WholeChunk(seen, chunk, later);
        seen := seen + chunk;
      }
    }

    /** The caller's loop: lines until the end of the stream. */
    method ReadLines() returns (lines: seq<Line>)
      requires Valid()
      modifies this
      ensures Valid() && lines == Lines(Flat(old(chunks))) && Flat(chunks) == []
    {
      lines := [];
      ghost var all := Flat(chunks);
      while true
        invariant Valid() && lines + Lines(Flat(chunks)) == Lines(all)
        decreases |Flat(chunks)|
      {
        ghost var before := Flat(chunks);
        var line := ReadLine();
        if line == Eof {
          assert before == [];
          return;
        }
        assert before != [] by { assert FirstLine([]).line == Eof; }
        lines := lines + [line];
      }
    }
  }

  lemma NoneFound(chunk: seq<byte>)
    requires IndexOf(chunk, NEWLINE) >= |chunk|
    ensures NEWLINE !in chunk
  {
  }

  lemma WholeChunk(seen: seq<byte>, chunk: seq<byte>, later: seq<byte>)
    ensures chunk[|chunk|..] + later == later && seen + (chunk + later) == seen + chunk + later
  {
  }

  lemma {:induction false} NoNewline(bytes: seq<byte>)
    requires NEWLINE !in bytes
    ensures FirstLine(bytes)
      == LineAndRest(if bytes == [] then Eof else if |bytes| <= MAX_LINE_BYTES then Ready(bytes) else Oversized, [])
  {
    hide IndexOf;
    NotFound(bytes, NEWLINE);
  }

  lemma SplitAt(seen: seq<byte>, chunk: seq<byte>, later: seq<byte>, pos: nat)
    requires pos < |chunk|
    ensures var all, p := seen + (chunk + later), |seen| + pos;
      && all[..p] == seen + chunk[..pos] && all[p] == chunk[pos]
      && all[..p + 1] == seen + chunk[..pos + 1] && all[p + 1..] == chunk[pos + 1..] + later
  {
  }

  /** A line that ends inside the chunk at hand; `later` is what comes behind the chunk. */
  lemma {:induction false} FoundNewline(seen: seq<byte>, chunk: seq<byte>, later: seq<byte>, pos: nat)
    requires NEWLINE !in seen && pos == IndexOf(chunk, NEWLINE) < |chunk|
    ensures FirstLine(seen + (chunk + later)) == LineAndRest(
      if |seen| + pos + 1 <= MAX_LINE_BYTES then Ready(seen + chunk[..pos + 1]) else Oversized,
      chunk[pos + 1..] + later)
  {
    hide IndexOf;
    assert NEWLINE !in chunk[..pos];
    SplitAt(seen, chunk, later, pos);
    FoundAt(seen + (chunk + later), NEWLINE, |seen| + pos);
  }

  /** Any two ways of cutting the same bytes into non-empty chunks give the same lines. */
  method CutsDoNotShow(a: seq<seq<byte>>, b: seq<seq<byte>>) returns (linesA: seq<Line>, linesB: seq<Line>)
    requires NonEmpty(a) && NonEmpty(b) && Flat(a) == Flat(b)
    ensures linesA == linesB
  {
    var readerA := new ChunkedReader(a);
    var readerB := new ChunkedReader(b);
    linesA := readerA.ReadLines();
    linesB := readerB.ReadLines();
  }

  /** A stream of terminated lines and an unterminated tail. */
  function Joined(texts: seq<seq<byte>>, tail: seq<byte>): seq<byte> {
    if texts == [] then tail else texts[0] + [NEWLINE] + Joined(texts[1..], tail)
  }

  function LineOf(text: seq<byte>): Line {
    if |text| <= 4095 then Ready(text + [NEWLINE]) else Oversized
  }

  function TailLines(tail: seq<byte>): seq<Line> {
    if tail == [] then [] else if |tail| <= 4096 then [Ready(tail)] else [Oversized]
  }

  function LinesOf(texts: seq<seq<byte>>): seq<Line> {
    if texts == [] then [] else [LineOf(texts[0])] + LinesOf(texts[1..])
  }

  lemma {:induction false} LinesStep(bytes: seq<byte>)
    requires bytes != []
    ensures Lines(bytes) == [FirstLine(bytes).line] + Lines(FirstLine(bytes).rest)
  {
    hide FirstLine;
  }

  lemma {:induction false} OneTerminated(text: seq<byte>, rest: seq<byte>)
    requires NEWLINE !in text
    ensures Lines(text + [NEWLINE] + rest) == [LineOf(text)] + Lines(rest)
  {
    hide IndexOf, FirstLine, Lines;
    FoundAt([NEWLINE], NEWLINE, 0);
    assert text + [NEWLINE] + rest == text + ([NEWLINE] + rest);
    LinesStep(text + ([NEWLINE] + rest));
    FoundNewline(text, [NEWLINE], rest, 0);
    assert [NEWLINE][1..] + rest == rest && [NEWLINE][..1] == [NEWLINE];
  }

  /** Every line comes back by itself, in order; a line that is too long costs only itself. */
  lemma {:induction false} LinesRoundTrip(texts: seq<seq<byte>>, tail: seq<byte>)
    requires forall i :: 0 <= i < |texts| ==> NEWLINE !in texts[i]
    requires NEWLINE !in tail
    ensures Lines(Joined(texts, tail)) == LinesOf(texts) + TailLines(tail)
    decreases |texts|
  {
    hide FirstLine;
    if texts == [] {
      NoNewline(tail);
      assert Lines([]) == [];
    } else {
      LinesRoundTrip(texts[1..], tail);
      OneTerminated(texts[0], Joined(texts[1..], tail));
    }
  }

  predicate LineEnd(b: byte) {
    b == NEWLINE || b == CR
  }

  /** `trim_line_end`: what is cut off is all line-end bytes, and nothing more could be cut. */
  method TrimLineEnd(buf: seq<byte>) returns (r: seq<byte>)
    ensures r <= buf
    ensures forall i :: |r| <= i < |buf| ==> LineEnd(buf[i])
    ensures r != [] ==> !LineEnd(r[|r| - 1])
  {
    var end := |buf|;
    while end > 0 && (buf[end - 1] == NEWLINE || buf[end - 1] == CR)
      invariant 0 <= end <= |buf|
      invariant forall i :: end <= i < |buf| ==> LineEnd(buf[i])
    {
      end := end - 1;
    }
    r := buf[..end];
  }
}
