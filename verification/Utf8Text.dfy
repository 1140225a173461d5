/** UTF-8 as the writers use it, against a decoder written from section 3 of RFC 3629. */
module Utf8Text {
  import opened Wrappers
  import opened Bytes
  import opened MessageSize

  datatype Decoded = Decoded(c: int, size: nat)

  /** The six bits of a byte that follows a lead byte. */
  function Six(s: seq<byte>, i: nat): (r: Option<nat>)
    ensures r.Some? ==> r.value < 64
  {
    if i >= |s| then None
    else
      var b: int := s[i];
      if 0x80 <= b <= 0xBF then Some(b - 0x80) else None
  }

  /** The first character: by its lead byte one to four bytes, six bits in each that follows; overlong forms,
      surrogates and numbers past U+10FFFF are errors. */
  function DecodeFirst(s: seq<byte>): (r: Option<Decoded>)
    ensures r.Some? ==> 1 <= r.value.size <= |s|
    ensures r.Some? ==> 0 <= r.value.c < 0xD800 || 0xE000 <= r.value.c < 0x11_0000
  {
    if s == [] then None
    else
      var a: int := s[0];
      if a <= 0x7F then Some(Decoded(a, 1))
      else if 0xC2 <= a <= 0xDF && Six(s, 1).Some? then
        Some(Decoded((a - 0xC0) * 64 + Six(s, 1).value, 2))
      else if 0xE0 <= a <= 0xEF && Six(s, 1).Some? && Six(s, 2).Some? then
        var c := (a - 0xE0) * 4096 + Six(s, 1).value * 64 + Six(s, 2).value;
        if c < 0x800 || 0xD800 <= c < 0xE000 then None else Some(Decoded(c, 3))
      else if 0xF0 <= a <= 0xF4 && Six(s, 1).Some? && Six(s, 2).Some? && Six(s, 3).Some? then
        var c := (a - 0xF0) * 0x4_0000 + Six(s, 1).value * 4096 + Six(s, 2).value * 64 + Six(s, 3).value;
        if c < 0x1_0000 || c >= 0x11_0000 then None else Some(Decoded(c, 4))
      else None
  }

  function DecodeAll(s: seq<byte>): Option<seq<int>>
    decreases |s|
  {
    if s == [] then Some([])
    else
      match DecodeFirst(s)
      case None => None
      case Some(d) =>
        match DecodeAll(s[d.size..])
        case None => None
        case Some(rest) => Some([d.c] + rest)
  }

  /** A character in front of anything is decoded as itself. */
  lemma FirstRoundTrip(c: rune, rest: seq<byte>)
    ensures DecodeFirst(Utf8(c) + rest) == Some(Decoded(c, |Utf8(c)|))
  {
    if 0x80 <= c < 0x800 {
      TwoBytes(c, rest);
    } else if 0x800 <= c < 0x1_0000 {
      ThreeBytes(c, rest);
    } else if c >= 0x1_0000 {
      FourBytes(c, rest);
    }
  }

  lemma TwoBytes(c: rune, rest: seq<byte>)
    requires 0x80 <= c < 0x800
    ensures DecodeFirst(Utf8(c) + rest) == Some(Decoded(c, 2))
  {
    var s := Utf8(c) + rest;
    assert Six(s, 1) == Some(c % 64);
  }

  lemma ThreeBytes(c: rune, rest: seq<byte>)
    requires 0x800 <= c < 0x1_0000
    ensures DecodeFirst(Utf8(c) + rest) == Some(Decoded(c, 3))
  {
    var s := Utf8(c) + rest;
    Digits(c);
    assert s[0] == 224 + c / 4096 && Six(s, 1) == Some(c / 64 % 64) && Six(s, 2) == Some(c % 64);
  }

  lemma FourBytes(c: rune, rest: seq<byte>)
    requires c >= 0x1_0000
    ensures DecodeFirst(Utf8(c) + rest) == Some(Decoded(c, 4))
  {
    var s := Utf8(c) + rest;
    Digits(c);
    Digits(c / 64);
    assert s[0] == 240 + c / 0x4_0000;
    assert Six(s, 1) == Some(c / 4096 % 64) && Six(s, 2) == Some(c / 64 % 64) && Six(s, 3) == Some(c % 64);
  }

  lemma Digits(c: nat)
    ensures c == c / 4096 * 4096 + c / 64 % 64 * 64 + c % 64
    ensures c / 64 / 4096 == c / 0x4_0000 && c / 64 / 64 == c / 4096
  {
  }

  /** Every string is decoded from its bytes. */
  lemma {:induction false} TextRoundTrip(s: seq<rune>)
    ensures DecodeAll(Utf8All(s)) == Some(s)
  {
    hide DecodeFirst, Utf8;
    if s != [] {
      var c, rest := s[0], Utf8All(s[1..]);
      FirstRoundTrip(c, rest);
      TextRoundTrip(s[1..]);
      assert Utf8All(s) == Utf8(c) + rest && Utf8All(s)[|Utf8(c)|..] == rest;
      assert s == [c] + s[1..];
    }
  }
}
