/** VE.Direct hex frames: a colon, a command digit, data bytes and a check byte in hex digits.  The
    values of all digits, each pair read as a byte, add up to 0x55 modulo 256. */
module HexProtocol {
  import opened Wrappers
  import opened Bytes

  const COLON: byte := 58

  function HexDigit(n: int): byte
    requires 0 <= n < 16
  {
    if n < 10 then 48 + n else 55 + n
  }

  function HexVal(c: byte): Option<int> {
    if 48 <= c <= 57 then Some(c - 48)
    else if 65 <= c <= 70 then Some(c - 55)
    else if 97 <= c <= 102 then Some(c - 87)
    else None
  }

  function Checksum(cmd: byte, data: seq<byte>): byte {
    (0x55 - (cmd + Sum(data)) % 256) % 256
  }

  function HexBytes(data: seq<byte>): (r: seq<byte>)
    ensures |r| == 2 * |data|
  {
    if data == [] then []
    else HexBytes(data[..|data| - 1]) + [HexDigit(data[|data| - 1] / 16), HexDigit(data[|data| - 1] % 16)]
  }

  /** A command frame without its newline. */
  function Command(cmd: byte, data: seq<byte>): (r: seq<byte>)
    ensures |r| == 4 + 2 * |data|
  {
    [COLON, HexDigit(cmd % 16)] + HexBytes(data + [Checksum(cmd, data)])
  }

  /** `make_command`. */
  method MakeCommand(cmd: byte, data: seq<byte>) returns (frame: seq<byte>)
    ensures frame == Command(cmd, data) + [NEWLINE]
  {
    var check := Checksum(cmd, data);
    frame := [COLON];
    frame := frame + [HexDigit(cmd % 16)];
    for i := 0 to |data|
      invariant frame == [COLON, HexDigit(cmd % 16)] + HexBytes(data[..i])
    {
      assert data[..i + 1][..i] == data[..i];
      frame := frame + [HexDigit(data[i] / 16)];
      frame := frame + [HexDigit(data[i] % 16)];
    }
    assert data[..|data|] == data && (data + [check])[..|data|] == data;
    frame := frame + [HexDigit(check / 16)];
    frame := frame + [HexDigit(check % 16)];
    frame := frame + [NEWLINE];
  }

  /** What a digit at position `i` of a frame body is worth: high digits of a pair count sixteen-fold. */
  function Weight(i: nat): int {
    if i % 2 == 1 then 16 else 1
  }

  function DigitValue(c: byte): (v: int)
    ensures 0 <= v < 16
  {
    if HexVal(c).Some? then HexVal(c).value else 0
  }

  function ValueSum(body: seq<byte>): nat {
    if body == [] then 0
    else ValueSum(body[..|body| - 1]) + Weight(|body| - 1) * DigitValue(body[|body| - 1])
  }

  lemma {:induction false} OneMore(s: seq<byte>, c: byte)
    ensures ValueSum(s + [c]) == ValueSum(s) + Weight(|s|) * DigitValue(c)
  {
    hide DigitValue;
    assert (s + [c])[..|s|] == s;
  }

  lemma {:induction false} PairValue(s: seq<byte>, hi: byte, lo: byte)
    requires |s| % 2 == 1
    ensures ValueSum(s + [hi, lo]) == ValueSum(s) + 16 * DigitValue(hi) + DigitValue(lo)
  {
    hide DigitValue;
    OneMore(s, hi);
    OneMore(s + [hi], lo);
    assert s + [hi, lo] == s + [hi] + [lo];
  }

  predicate AllHex(s: seq<byte>) {
    forall i :: 0 <= i < |s| ==> HexVal(s[i]).Some?
  }

  predicate ValidFrame(frame: seq<byte>) {
    && |frame| >= 4 && |frame| % 2 == 0 && frame[0] == COLON
    && AllHex(frame[1..]) && ValueSum(frame[1..]) % 256 == 0x55
  }

  /** Two more digits of a body. */
  lemma {:induction false} PairStep(body: seq<byte>, i: nat)
    requires i + 1 < |body| && i % 2 == 1 && AllHex(body[..i])
    ensures AllHex(body[..i + 2]) <==> HexVal(body[i]).Some? && HexVal(body[i + 1]).Some?
    ensures ValueSum(body[..i + 2]) % 256
      == (ValueSum(body[..i]) % 256 + (DigitValue(body[i]) * 16 + DigitValue(body[i + 1]))) % 256
  {
    hide HexVal, ValueSum, DigitValue;
    assert body[..i + 2] == body[..i] + [body[i], body[i + 1]];
    PairValue(body[..i], body[i], body[i + 1]);
    WrappingAdd(ValueSum(body[..i]), 16 * DigitValue(body[i]) + DigitValue(body[i + 1]));
    assert body[..i + 2][i] == body[i] && body[..i + 2][i + 1] == body[i + 1];
  }

  lemma NotAllHex(body: seq<byte>, n: nat)
    requires n <= |body| && !AllHex(body[..n])
    ensures !AllHex(body)
  {
  }

  lemma {:induction false} FirstDigit(body: seq<byte>)
    requires body != []
    ensures AllHex(body[..1]) <==> HexVal(body[0]).Some?
    ensures ValueSum(body[..1]) == DigitValue(body[0])
  {
    hide HexVal, DigitValue;
    assert body[..1][..0] == [];
  }

  /** `validate_frame`. */
  method ValidateFrame(frame: seq<byte>) returns (ok: bool)
    ensures ok == ValidFrame(frame)
  {
    if frame == [] || frame[0] != COLON {
      return false;
    }
    var body := frame[1..];
    if |body| < 3 || |body| % 2 == 0 {
      return false;
    }
    hide HexVal, ValueSum, AllHex;
    FirstDigit(body);
    if HexVal(body[0]).None? {
      NotAllHex(body, 1);
      return false;
    }
    var sum := HexVal(body[0]).value;
    var i := 1;
    while i < |body|
      invariant 1 <= i <= |body| && i % 2 == 1
      invariant AllHex(body[..i])
      invariant 0 <= sum < 256 && sum == ValueSum(body[..i]) % 256
    {
      PairStep(body, i);
      if HexVal(body[i]).None? || HexVal(body[i + 1]).None? {
        NotAllHex(body, i + 2);
        return false;
      }
      sum := (sum + (HexVal(body[i]).value * 16 + HexVal(body[i + 1]).value)) % 256;
      i := i + 2;
    }
    assert body[..i] == body;
    ok := sum == 0x55;
  }

  lemma DigitRoundTrip(n: int)
    requires 0 <= n < 16
    ensures HexVal(HexDigit(n)) == Some(n) && HexDigit(n) != NEWLINE
  {
  }

  lemma {:induction false} HexBytesValue(head: seq<byte>, data: seq<byte>)
    requires |head| == 1
    ensures ValueSum(head + HexBytes(data)) == ValueSum(head) + Sum(data)
  {
    if data == [] {
      assert head + HexBytes(data) == head;
    } else {
      hide HexVal, ValueSum, HexDigit;
      var n := |data| - 1;
      HexBytesValue(head, data[..n]);
      var hi, lo := HexDigit(data[n] / 16), HexDigit(data[n] % 16);
      assert head + HexBytes(data) == head + HexBytes(data[..n]) + [hi, lo];
      PairValue(head + HexBytes(data[..n]), hi, lo);
      DigitRoundTrip(data[n] / 16);
      DigitRoundTrip(data[n] % 16);
    }
  }

  lemma {:induction false} HexBytesAreDigits(data: seq<byte>)
    ensures AllHex(HexBytes(data)) && NEWLINE !in HexBytes(data)
  {
    if data != [] {
      hide HexVal, HexDigit;
      var n := |data| - 1;
      HexBytesAreDigits(data[..n]);
      DigitRoundTrip(data[n] / 16);
      DigitRoundTrip(data[n] % 16);
    }
  }

  /** The check byte is computed from the whole command byte, but only its low digit is sent. */
  lemma CheckBalances(cmd: byte, sum: nat)
    ensures (cmd % 16 + sum + (0x55 - (cmd + sum) % 256) % 256) % 256 == 0x55 <==> cmd < 16
  {
  }

  /** A built command has no newline inside, and is a valid frame exactly when its command fits one
      digit. */
  lemma CommandIsValid(cmd: byte, data: seq<byte>)
    ensures ValidFrame(Command(cmd, data)) <==> cmd < 16
    ensures NEWLINE !in Command(cmd, data)
  {
    hide HexVal, HexBytes;
    var head, check := [HexDigit(cmd % 16)], Checksum(cmd, data);
    assert Command(cmd, data)[1..] == head + HexBytes(data + [check]);
    DigitRoundTrip(cmd % 16);
    assert head[..0] == [];
    HexBytesValue(head, data + [check]);
    HexBytesAreDigits(data + [check]);
    SumAppend(data, [check]);
    assert [check][..0] == [] && Sum([check]) == check;
    CheckBalances(cmd, Sum(data));
    forall i | 0 <= i < |Command(cmd, data)| ensures Command(cmd, data)[i] != NEWLINE {
    }
  }

  lemma {:induction false} ChangedDigit(body: seq<byte>, i: nat, c: byte)
    requires i < |body|
    ensures ValueSum(body[i := c]) == ValueSum(body) + Weight(i) * (DigitValue(c) - DigitValue(body[i]))
  {
    var n := |body| - 1;
    if i == n {
      assert body[i := c][..n] == body[..n];
    } else {
      assert body[i := c][..n] == body[..n][i := c];
      ChangedDigit(body[..n], i, c);
    }
  }

  /** Changing one digit of a valid frame, to another value or to something that is no digit, is
      always noticed. */
  lemma OneChangedDigitIsRejected(frame: seq<byte>, i: nat, c: byte)
    requires ValidFrame(frame) && 1 <= i < |frame| && HexVal(c) != HexVal(frame[i])
    ensures !ValidFrame(frame[i := c])
  {
    hide HexVal, ValueSum;
    var body := frame[1..];
    var changed := frame[i := c];
    assert changed[1..] == body[i - 1 := c];
    assert HexVal(body[i - 1]).Some?;
    if HexVal(c).None? {
      assert changed[1..][i - 1] == c;
    } else {
      ChangedDigit(body, i - 1, c);
      WeightedChange(Weight(i - 1), DigitValue(body[i - 1]), DigitValue(c));
      ChangeMatters(ValueSum(body), Weight(i - 1) * (DigitValue(c) - DigitValue(body[i - 1])));
    }
  }

  lemma WeightedChange(weight: int, before: int, after: int)
    requires weight == 1 || weight == 16
    requires 0 <= before < 16 && 0 <= after < 16 && before != after
    ensures var change := weight * (after - before); change != 0 && -240 <= change <= 240
  {
    if weight == 1 {
      assert weight * (after - before) == after - before;
    } else {
      assert weight * (after - before) == 16 * (after - before);
    }
  }

  lemma ChangeMatters(sum: nat, change: int)
    requires sum % 256 == 0x55 && change != 0 && -240 <= change <= 240
    ensures (sum + change) % 256 != 0x55
  {
  }

  /******* The digits themselves *******/

  /** "0123456789ABCDEF" and "0123456789abcdef". */
  const UPPER: seq<byte> := [48, 49, 50, 51, 52, 53, 54, 55, 56, 57, 65, 66, 67, 68, 69, 70]
  const LOWER: seq<byte> := [48, 49, 50, 51, 52, 53, 54, 55, 56, 57, 97, 98, 99, 100, 101, 102]

  /** Digits are printed in upper case and read in either. */
  lemma DigitsAre(c: byte, v: int)
    ensures HexVal(c) == Some(v) <==> 0 <= v < 16 && (c == UPPER[v] || c == LOWER[v])
    ensures 0 <= v < 16 ==> HexDigit(v) == UPPER[v]
  {
  }

  /** The command that reads register 0xEDF0, as the protocol document prints it: ":7F0ED0071". */
  lemma GetCommand()
    ensures Command(7, [0xF0, 0xED, 0x00]) == [58, 55, 70, 48, 69, 68, 48, 48, 55, 49]
  {
    hide Sum, HexBytes;
    var data: seq<byte> := [0xF0, 0xED, 0x00];
    ThreeBytes(0xF0, 0xED, 0x00);
    assert Checksum(7, data) == 0x71;
    FourPrinted(0xF0, 0xED, 0x00, 0x71);
    assert data + [0x71] == [0xF0, 0xED, 0x00, 0x71];
  }

  lemma ThreeBytes(a: byte, b: byte, c: byte)
    ensures Sum([a, b, c]) == a + b + c
  {
    hide Sum;
    assert [a, b, c] == [a] + [b] + [c];
    SumAppend([a] + [b], [c]);
    SumAppend([a], [b]);
    SumOne(a);
    SumOne(b);
    SumOne(c);
  }

  lemma {:induction false} OnePrinted(data: seq<byte>, b: byte)
    ensures HexBytes(data + [b]) == HexBytes(data) + [HexDigit(b / 16), HexDigit(b % 16)]
  {
    hide HexDigit;
    assert (data + [b])[..|data|] == data;
  }

  lemma FourPrinted(a: byte, b: byte, c: byte, d: byte)
    ensures HexBytes([a, b, c, d])
      == [HexDigit(a / 16), HexDigit(a % 16), HexDigit(b / 16), HexDigit(b % 16),
          HexDigit(c / 16), HexDigit(c % 16), HexDigit(d / 16), HexDigit(d % 16)]
  {
    assert HexBytes([]) == [];
    hide HexBytes, HexDigit;
    OnePrinted([], a);
    OnePrinted([a], b);
    OnePrinted([a, b], c);
    OnePrinted([a, b, c], d);
    assert [] + [a] == [a] && [a] + [b] == [a, b] && [a, b] + [c] == [a, b, c] && [a, b, c] + [d] == [a, b, c, d];
  }

  lemma SumOne(b: byte)
    ensures Sum([b]) == b
  {
    assert [b][..0] == [];
  }
}
