/** UTF-8 (section 3 of RFC 3629): from text to the bytes that a dead-letter entry keeps, and back. */
module Utf8 {
  import opened Outcomes
  import opened Base64

  function EncodeChar(c: char): seq<byte> {
    var n := c as int;
    if n < 0x80 then [n]
    else if n < 0x800 then [0xC0 + n / 0x40, 0x80 + n % 0x40]
    else if n < 0x10000 then [0xE0 + n / 0x1000, 0x80 + n / 0x40 % 0x40, 0x80 + n % 0x40]
    else [0xF0 + n / 0x40000, 0x80 + n / 0x1000 % 0x40, 0x80 + n / 0x40 % 0x40, 0x80 + n % 0x40]
  }

  function EncodeText(s: string): seq<byte> {
    if s == "" then [] else EncodeChar(s[0]) + EncodeText(s[1..])
  }

  /** Number of bytes of the character that a lead byte starts. */
  function Width(lead: byte): nat {
    if lead < 0x80 then 1 else if lead < 0xE0 then 2 else if lead < 0xF0 then 3 else 4
  }

  /** What marks a lead byte of this width. */
  function Mark(width: nat): int {
    match width case 1 => 0 case 2 => 0xC0 case 3 => 0xE0 case _ => 0xF0
  }

  predicate IsContinuation(b: byte) { 0x80 <= b < 0xC0 }

  /** The first bytes have the form of a character: a marked lead byte and continuation bytes. */
  predicate Formed(bs: seq<byte>) {
    && bs != [] && Width(bs[0]) <= |bs|
    && Mark(Width(bs[0])) <= bs[0] < 0xF8
    && forall i | 1 <= i < Width(bs[0]) :: IsContinuation(bs[i])
  }

  /** The payload bits of a byte under its prefix. */
  function Payload(b: byte, prefix: int): int { b as int - prefix }

  /** The code point spelled by the first bytes. */
  function CodePoint(bs: seq<byte>): int
    requires bs != [] && Width(bs[0]) <= |bs|
  {
    match Width(bs[0])
    case 1 => bs[0]
    case 2 => Payload(bs[0], 0xC0) * 0x40 + Payload(bs[1], 0x80)
    case 3 => Payload(bs[0], 0xE0) * 0x1000 + Payload(bs[1], 0x80) * 0x40 + Payload(bs[2], 0x80)
    case _ =>
      Payload(bs[0], 0xF0) * 0x40000 + Payload(bs[1], 0x80) * 0x1000 + Payload(bs[2], 0x80) * 0x40
      + Payload(bs[3], 0x80)
  }

  predicate IsScalar(n: int) { 0 <= n < 0xD800 || 0xE000 <= n < 0x11_0000 }

  /** The number of bytes that a code point needs; longer forms are invalid. */
  function Needs(n: int): nat { if n < 0x80 then 1 else if n < 0x800 then 2 else if n < 0x10000 then 3 else 4 }

  /** The first bytes are a valid character. */
  predicate Valid(bs: seq<byte>) {
    Formed(bs) && IsScalar(CodePoint(bs)) && Width(bs[0]) == Needs(CodePoint(bs))
  }

  /** A strict decoder: marks, continuation bytes, scalar values and shortest forms are all checked. */
  function DecodeText(bs: seq<byte>): Option<string> {
    if bs == [] then Some("")
    else if !Valid(bs) then None
    else
      var rest :- DecodeText(bs[Width(bs[0])..]);
      Some([CodePoint(bs) as char] + rest)
  }

  lemma SixBitGroups(n: int)
    requires 0 <= n < 0x11_0000
    ensures n / 0x40 * 0x40 + n % 0x40 == n
    ensures n / 0x1000 * 0x1000 + n / 0x40 % 0x40 * 0x40 + n % 0x40 == n
    ensures n / 0x40000 * 0x40000 + n / 0x1000 % 0x40 * 0x1000 + n / 0x40 % 0x40 * 0x40 + n % 0x40 == n
  {
    assert n / 0x1000 == n / 0x40 / 0x40;
    assert n / 0x40000 == n / 0x1000 / 0x40;
  }

  lemma CharReads(c: char, rest: seq<byte>)
    ensures
      var bs := EncodeChar(c) + rest;
      && Width(bs[0]) == |EncodeChar(c)| && CodePoint(bs) == c as int && bs[Width(bs[0])..] == rest
      && Valid(bs)
  {
    SixBitGroups(c as int);
  }

  lemma {:induction false} TextRoundTrip(s: string)
    ensures DecodeText(EncodeText(s)) == Some(s)
  {
    if s != "" {
      TextRoundTrip(s[1..]);
      CharReads(s[0], EncodeText(s[1..]));
      assert [s[0]] + s[1..] == s;
    }
  }

  lemma TwoGroups(a: int, b: int)
    requires 0 <= b < 0x40
    ensures (a * 0x40 + b) / 0x40 == a && (a * 0x40 + b) % 0x40 == b
  {
  }

  lemma ThreeGroups(a: int, b: int, c: int)
    requires 0 <= b < 0x40 && 0 <= c < 0x40
    ensures
      var n := a * 0x1000 + b * 0x40 + c;
      n / 0x1000 == a && n / 0x40 % 0x40 == b && n % 0x40 == c
  {
    var n, m := a * 0x1000 + b * 0x40 + c, a * 0x40 + b;
    TwoGroups(m, c);
    assert n == m * 0x40 + c;
    TwoGroups(a, b);
    assert n / 0x1000 == n / 0x40 / 0x40;
  }

  lemma FourGroups(a: int, b: int, c: int, d: int)
    requires 0 <= b < 0x40 && 0 <= c < 0x40 && 0 <= d < 0x40
    ensures
      var n := a * 0x40000 + b * 0x1000 + c * 0x40 + d;
      n / 0x40000 == a && n / 0x1000 % 0x40 == b && n / 0x40 % 0x40 == c && n % 0x40 == d
  {
    var n, m := a * 0x40000 + b * 0x1000 + c * 0x40 + d, a * 0x1000 + b * 0x40 + c;
    TwoGroups(m, d);
    assert n == m * 0x40 + d;
    ThreeGroups(a, b, c);
    assert n / 0x1000 == n / 0x40 / 0x40 && n / 0x40000 == n / 0x40 / 0x1000;
  }

  /** The bytes of a valid character are those that the encoder writes for it. */
  lemma CharWrites(bs: seq<byte>)
    requires Valid(bs)
    ensures EncodeChar(CodePoint(bs) as char) == bs[..Width(bs[0])]
  {
    match Width(bs[0])
    case 1 =>
    case 2 => TwoGroups(Payload(bs[0], 0xC0), Payload(bs[1], 0x80));
    case 3 => ThreeGroups(Payload(bs[0], 0xE0), Payload(bs[1], 0x80), Payload(bs[2], 0x80));
    case _ => FourGroups(Payload(bs[0], 0xF0), Payload(bs[1], 0x80), Payload(bs[2], 0x80), Payload(bs[3], 0x80));
  }

  /** The encoding is the only valid UTF-8 of a text: any bytes that a strict decoder reads as s are it. */
  lemma {:induction false} OnlyEncoding(bs: seq<byte>, s: string)
    requires DecodeText(bs) == Some(s)
    ensures bs == EncodeText(s)
    decreases |bs|
  {
    if bs != [] {
      CharWrites(bs);
      OnlyEncoding(bs[Width(bs[0])..], s[1..]);
      assert bs == bs[..Width(bs[0])] + bs[Width(bs[0])..];
    }
  }

  /** A text of ASCII characters is stored as their codes, one byte each. */
  lemma {:induction false} AsciiBytes(s: string)
    requires forall i | 0 <= i < |s| :: (s[i] as int) < 0x80
    ensures |EncodeText(s)| == |s| && forall i | 0 <= i < |s| :: EncodeText(s)[i] == s[i] as int
  {
    if s != "" {
      AsciiBytes(s[1..]);
    }
  }
}
