/**
 * Go's conversion `[]byte(s)` of a string to bytes. A string decoded from a
 * JSON payload holds the UTF-8 encoding of its characters, so the bytes the
 * conversion yields are that encoding. The decoder is here to show that the
 * encoding loses nothing: decoding the bytes gives the string back.
 */
module Utf8 {
  import opened Wrappers

  newtype uint8 = x: int | 0 <= x < 0x100

  /** The UTF-8 encoding of one Unicode scalar value: one to four bytes. */
  function EncodeChar(c: char): (r: seq<uint8>)
    ensures 1 <= |r| <= 4
    ensures (c as int < 0x80) <==> |r| == 1
  {
    var v := c as int;
    if v < 0x80 then
      [v as uint8]
    else if v < 0x800 then
      [(0xC0 + v / 0x40) as uint8, (0x80 + v % 0x40) as uint8]
    else if v < 0x1_0000 then
      [(0xE0 + v / 0x1000) as uint8, (0x80 + v / 0x40 % 0x40) as uint8, (0x80 + v % 0x40) as uint8]
    else
      [(0xF0 + v / 0x4_0000) as uint8, (0x80 + v / 0x1000 % 0x40) as uint8,
       (0x80 + v / 0x40 % 0x40) as uint8, (0x80 + v % 0x40) as uint8]
  }

  /** The bytes of a string, `[]byte(s)` in Go. */
  function Encode(s: string): (r: seq<uint8>)
    ensures |s| <= |r| <= 4 * |s|
  {
    if s == [] then [] else EncodeChar(s[0]) + Encode(s[1..])
  }

  predicate IsContinuation(b: uint8) {
    0x80 <= b < 0xC0
  }

  /** The first character of a UTF-8 byte sequence and the number of bytes it takes, if the bytes start with a well-formed character. */
  function DecodeChar(b: seq<uint8>): (r: Option<(char, nat)>)
    ensures r.Some? ==> 1 <= r.value.1 <= |b| && r.value.1 <= 4
  {
    if |b| == 0 then None
    else
      var b0 := b[0] as int;
      if b0 < 0x80 then
        Some((b0 as char, 1))
      else if 0xC0 <= b0 < 0xE0 then
        if |b| < 2 || !IsContinuation(b[1]) then None
        else
          var v := (b0 - 0xC0) * 0x40 + (b[1] as int - 0x80);
          if v < 0x80 then None else Some((v as char, 2))
      else if 0xE0 <= b0 < 0xF0 then
        if |b| < 3 || !IsContinuation(b[1]) || !IsContinuation(b[2]) then None
        else
          var v := (b0 - 0xE0) * 0x1000 + (b[1] as int - 0x80) * 0x40 + (b[2] as int - 0x80);
          if v < 0x800 || 0xD800 <= v < 0xE000 then None else Some((v as char, 3))
      else if 0xF0 <= b0 < 0xF8 then
        if |b| < 4 || !IsContinuation(b[1]) || !IsContinuation(b[2]) || !IsContinuation(b[3]) then None
        else
          var v := (b0 - 0xF0) * 0x4_0000 + (b[1] as int - 0x80) * 0x1000
                   + (b[2] as int - 0x80) * 0x40 + (b[3] as int - 0x80);
          if v < 0x1_0000 || 0x11_0000 <= v then None else Some((v as char, 4))
      else
        None
  }

  /** The string whose UTF-8 encoding is `b`, or None when `b` is not well-formed UTF-8. */
  function Decode(b: seq<uint8>): (r: Option<string>)
    decreases |b|
  {
    if b == [] then Some([])
    else
      match DecodeChar(b)
      case None => None
      case Some((c, n)) =>
        match Decode(b[n..])
        case None => None
        case Some(rest) => Some([c] + rest)
  }

  lemma DecodeEncodeChar(c: char, rest: seq<uint8>)
    ensures DecodeChar(EncodeChar(c) + rest) == Some((c, |EncodeChar(c)|))
  {
    var v := c as int;
    if v < 0x80 {
    } else if v < 0x800 {
      DecodeEncodeTwo(c, rest);
    } else if v < 0x1_0000 {
      DecodeEncodeThree(c, rest);
    } else {
      DecodeEncodeFour(c, rest);
    }
  }

  lemma DecodeEncodeTwo(c: char, rest: seq<uint8>)
    requires 0x80 <= c as int < 0x800
    ensures DecodeChar(EncodeChar(c) + rest) == Some((c, 2))
  {
    var v := c as int;
    var b := EncodeChar(c) + rest;
    assert b[0] as int - 0xC0 == v / 0x40 && b[1] as int - 0x80 == v % 0x40;
  }

  lemma DecodeEncodeThree(c: char, rest: seq<uint8>)
    requires 0x800 <= c as int < 0x1_0000
    ensures DecodeChar(EncodeChar(c) + rest) == Some((c, 3))
  {
    var v := c as int;
    var b := EncodeChar(c) + rest;
    var hi, mid, lo := v / 0x1000, v / 0x40 % 0x40, v % 0x40;
    assert b[0] as int - 0xE0 == hi && b[1] as int - 0x80 == mid && b[2] as int - 0x80 == lo;
    assert hi * 0x1000 + mid * 0x40 + lo == v;
  }

  lemma DecodeEncodeFour(c: char, rest: seq<uint8>)
    requires 0x1_0000 <= c as int
    ensures DecodeChar(EncodeChar(c) + rest) == Some((c, 4))
  {
    var v := c as int;
    var b := EncodeChar(c) + rest;
    var top, hi, mid, lo := v / 0x4_0000, v / 0x1000 % 0x40, v / 0x40 % 0x40, v % 0x40;
    SplitFour(v);
    assert b[0] as int - 0xF0 == top && b[1] as int - 0x80 == hi;
    assert b[2] as int - 0x80 == mid && b[3] as int - 0x80 == lo;
  }

  /** The four 6-bit groups of a supplementary code point put back together give the code point. */
  lemma SplitFour(v: int)
    requires 0 <= v
    ensures v / 0x4_0000 * 0x4_0000 + v / 0x1000 % 0x40 * 0x1000 + v / 0x40 % 0x40 * 0x40 + v % 0x40 == v
  {
    var q1 := v / 0x40;
    var q2 := q1 / 0x40;
    assert v == q1 * 0x40 + v % 0x40;
    assert q1 == q2 * 0x40 + q1 % 0x40;
    assert q2 == q2 / 0x40 * 0x40 + q2 % 0x40;
    assert q2 == v / 0x1000 && q2 / 0x40 == v / 0x4_0000;
  }

  /** Round trip: the bytes of a string decode back to that string. */
  lemma {:induction false} DecodeEncode(s: string)
    ensures Decode(Encode(s)) == Some(s)
  {
    if s != [] {
      var e := EncodeChar(s[0]);
      DecodeEncodeChar(s[0], Encode(s[1..]));
      assert Encode(s)[|e|..] == Encode(s[1..]);
      DecodeEncode(s[1..]);
      assert [s[0]] + s[1..] == s;
    }
  }

  /** An ASCII string is encoded one byte per character, each byte the character's code. */
  lemma {:induction false} EncodeAscii(s: string)
    requires forall i :: 0 <= i < |s| ==> s[i] as int < 0x80
    ensures |Encode(s)| == |s|
    ensures forall i :: 0 <= i < |s| ==> Encode(s)[i] as int == s[i] as int
  {
    if s != [] {
      EncodeAscii(s[1..]);
    }
  }

  /** The bytes of an ASCII string are its code points. */
  lemma AsciiBytes(s: string, b: seq<uint8>)
    requires |b| == |s|
    requires forall i :: 0 <= i < |s| ==> s[i] as int < 0x80 && b[i] as int == s[i] as int
    ensures Encode(s) == b
  {
    EncodeAscii(s);
  }

  /** Distinct strings have distinct bytes. */
  lemma EncodeInjective(s: string, t: string)
    requires Encode(s) == Encode(t)
    ensures s == t
  {
    DecodeEncode(s);
    DecodeEncode(t);
  }
}
