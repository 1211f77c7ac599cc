/** Standard base64 with padding (section 4 of RFC 4648), as encoding/json writes byte slices. */
module Base64 {
  import opened Outcomes

  type byte = n: int | 0 <= n < 256

  type sextet = n: int | 0 <= n < 64

  function Symbol(n: int): char
    requires 0 <= n < 64
  {
    if n < 26 then ('A' as int + n) as char
    else if n < 52 then ('a' as int + n - 26) as char
    else if n < 62 then ('0' as int + n - 52) as char
    else if n == 62 then '+'
    else '/'
  }

  function SymbolValue(c: char): Option<sextet> {
    if 'A' <= c <= 'Z' then Some(c as int - 'A' as int)
    else if 'a' <= c <= 'z' then Some(c as int - 'a' as int + 26)
    else if '0' <= c <= '9' then Some(c as int - '0' as int + 52)
    else if c == '+' then Some(62)
    else if c == '/' then Some(63)
    else None
  }

  // The four groups of six bits of three bytes, and the three bytes of four groups.

  function Group1(x: byte): sextet { x / 4 }

  function Group2(x: byte, y: byte): sextet { x % 4 * 16 + y / 16 }

  function Group3(y: byte, z: byte): sextet { y % 16 * 4 + z / 64 }

  function Group4(z: byte): sextet { z % 64 }

  function First(a: sextet, b: sextet): byte { a * 4 + b / 16 }

  function Second(b: sextet, c: sextet): byte { b % 16 * 16 + c / 4 }

  function Third(c: sextet, d: sextet): byte { c % 4 * 64 + d }

  function Encode(bs: seq<byte>): string {
    if bs == [] then ""
    else if |bs| == 1 then [Symbol(Group1(bs[0])), Symbol(Group2(bs[0], 0)), '=', '=']
    else if |bs| == 2 then [Symbol(Group1(bs[0])), Symbol(Group2(bs[0], bs[1])), Symbol(Group3(bs[1], 0)), '=']
    else
      [Symbol(Group1(bs[0])), Symbol(Group2(bs[0], bs[1])), Symbol(Group3(bs[1], bs[2])), Symbol(Group4(bs[2]))]
      + Encode(bs[3..])
  }

  /** Four symbols. */
  function Quantum(p: char, q: char, r: char, t: char): Option<seq<byte>> {
    var a :- SymbolValue(p);
    var b :- SymbolValue(q);
    var c :- SymbolValue(r);
    var d :- SymbolValue(t);
    Some([First(a, b), Second(b, c), Third(c, d)])
  }

  /** The last four characters, which may be padded. */
  function LastQuantum(p: char, q: char, r: char, t: char): Option<seq<byte>> {
    if t != '=' then Quantum(p, q, r, t)
    else
      var a :- SymbolValue(p);
      var b :- SymbolValue(q);
      if r == '=' then Some([First(a, b)])
      else
        var c :- SymbolValue(r);
        Some([First(a, b), Second(b, c)])
  }

  function Decode(s: string): Option<seq<byte>> {
    if s == "" then Some([])
    else if |s| < 4 then None
    else if |s| == 4 then LastQuantum(s[0], s[1], s[2], s[3])
    else
      var first :- Quantum(s[0], s[1], s[2], s[3]);
      var rest :- Decode(s[4..]);
      Some(first + rest)
  }

  lemma SymbolRoundTrip(n: sextet)
    ensures SymbolValue(Symbol(n)) == Some(n) && Symbol(n) != '='
  {
  }

  lemma Parts4(high: int, low: int)
    requires 0 <= low < 4
    ensures (high * 4 + low) / 4 == high && (high * 4 + low) % 4 == low
  {
  }

  lemma Parts16(high: int, low: int)
    requires 0 <= low < 16
    ensures (high * 16 + low) / 16 == high && (high * 16 + low) % 16 == low
  {
  }

  lemma Parts64(high: int, low: int)
    requires 0 <= low < 64
    ensures (high * 64 + low) / 64 == high && (high * 64 + low) % 64 == low
  {
  }

  // The three bytes come back out of the four groups of six bits.

  lemma FirstBack(x: byte, y: byte)
    ensures First(Group1(x), Group2(x, y)) == x
  {
  }

  lemma SecondBack(x: byte, y: byte, z: byte)
    ensures Second(Group2(x, y), Group3(y, z)) == y
  {
    Parts16(x % 4, y / 16);
    Parts4(y % 16, z / 64);
  }

  lemma ThirdBack(y: byte, z: byte)
    ensures Third(Group3(y, z), Group4(z)) == z
  {
  }

  lemma QuantumReads(x: byte, y: byte, z: byte)
    ensures Quantum(Symbol(Group1(x)), Symbol(Group2(x, y)), Symbol(Group3(y, z)), Symbol(Group4(z))) == Some([x, y, z])
    ensures Symbol(Group4(z)) != '='
  {
    FirstBack(x, y);
    SecondBack(x, y, z);
    ThirdBack(y, z);
    SymbolRoundTrip(Group1(x));
    SymbolRoundTrip(Group2(x, y));
    SymbolRoundTrip(Group3(y, z));
    SymbolRoundTrip(Group4(z));
  }

  lemma PairReads(x: byte, y: byte, zero: byte)
    requires zero == 0
    ensures LastQuantum(Symbol(Group1(x)), Symbol(Group2(x, y)), Symbol(Group3(y, zero)), '=') == Some([x, y])
  {
    FirstBack(x, y);
    SecondBack(x, y, zero);
    SymbolRoundTrip(Group1(x));
    SymbolRoundTrip(Group2(x, y));
    SymbolRoundTrip(Group3(y, zero));
  }

  /** Two symbols and two pads are one byte. */
  lemma OneByte(p: char, q: char, r: char, t: char)
    requires r == '=' && t == '='
    ensures LastQuantum(p, q, r, t).Some? <==> SymbolValue(p).Some? && SymbolValue(q).Some?
    ensures LastQuantum(p, q, r, t).Some? ==>
              LastQuantum(p, q, r, t) == Some([First(SymbolValue(p).value, SymbolValue(q).value)])
  {
  }

  lemma SingleReads(x: byte, zero: byte, pad: char)
    requires zero == 0 && pad == '='
    ensures LastQuantum(Symbol(Group1(x)), Symbol(Group2(x, zero)), pad, pad) == Some([x])
  {
    var a, b := Group1(x), Group2(x, zero);
    FirstBack(x, zero);
    SymbolRoundTrip(a);
    SymbolRoundTrip(b);
    OneByte(Symbol(a), Symbol(b), pad, pad);
  }

  lemma {:induction false} EncodedLength(bs: seq<byte>)
    ensures bs != [] ==> |Encode(bs)| >= 4
  {
  }

  lemma FullRoundTrip(x: byte, y: byte, z: byte, rest: seq<byte>, s: string)
    requires Decode(Encode(rest)) == Some(rest) && (rest != [] ==> |Encode(rest)| >= 4)
    requires s == [Symbol(Group1(x)), Symbol(Group2(x, y)), Symbol(Group3(y, z)), Symbol(Group4(z))] + Encode(rest)
    ensures Decode(s) == Some([x, y, z] + rest)
  {
    QuantumReads(x, y, z);
    assert s[4..] == Encode(rest);
    if rest == [] {
      assert [x, y, z] + rest == [x, y, z];
    }
  }

  lemma {:induction false} RoundTrip(bs: seq<byte>)
    ensures Decode(Encode(bs)) == Some(bs)
  {
    if |bs| == 1 {
      SingleReads(bs[0], 0, '=');
      assert bs == [bs[0]];
    } else if |bs| == 2 {
      PairReads(bs[0], bs[1], 0);
      assert bs == [bs[0], bs[1]];
    } else if |bs| > 2 {
      RoundTrip(bs[3..]);
      EncodedLength(bs[3..]);
      FullRoundTrip(bs[0], bs[1], bs[2], bs[3..], Encode(bs));
      assert bs == [bs[0], bs[1], bs[2]] + bs[3..];
    }
  }

  // ---- The only encoding ----

  /** The alphabet of table 1 of RFC 4648: capitals, small letters and digits in order, then plus and slash. */
  lemma Alphabet()
    ensures Symbol(0) == 'A' && Symbol(25) == 'Z' && Symbol(26) == 'a' && Symbol(51) == 'z'
    ensures Symbol(52) == '0' && Symbol(61) == '9' && Symbol(62) == '+' && Symbol(63) == '/'
    ensures forall n | 0 <= n < 61 && n != 25 && n != 51 :: Symbol(n + 1) as int == Symbol(n) as int + 1
  {
  }

  /** Three bytes are four symbols of the same 24 bits, the first in front. */
  lemma SameBits(x: byte, y: byte, z: byte)
    ensures
      var s := Encode([x, y, z]);
      && |s| == 4 && (forall i | 0 <= i < 4 :: SymbolValue(s[i]).Some?)
      && SymbolValue(s[0]).value * 262144 + SymbolValue(s[1]).value * 4096
         + SymbolValue(s[2]).value * 64 + SymbolValue(s[3]).value == x * 65536 + y * 256 + z
  {
    assert [x, y, z][3..] == [];
    SymbolRoundTrip(Group1(x));
    SymbolRoundTrip(Group2(x, y));
    SymbolRoundTrip(Group3(y, z));
    SymbolRoundTrip(Group4(z));
  }

  lemma ValueRoundTrip(c: char)
    requires SymbolValue(c).Some?
    ensures Symbol(SymbolValue(c).value) == c
  {
  }

  /** The bits behind the last byte are zero, as section 3.5 of RFC 4648 asks of encoders. */
  predicate PadBitsZero(s: string) {
    |s| >= 4 ==>
      var n := |s|;
      if s[n - 1] != '=' then true
      else if s[n - 2] == '=' then SymbolValue(s[n - 3]).Some? && SymbolValue(s[n - 3]).value % 16 == 0
      else SymbolValue(s[n - 2]).Some? && SymbolValue(s[n - 2]).value % 4 == 0
  }

  lemma PadGroups(x: byte, zero: byte)
    requires zero == 0
    ensures Group2(x, zero) % 16 == 0 && Group3(x, zero) % 4 == 0
  {
  }

  lemma {:induction false} EncodedPadBits(bs: seq<byte>)
    ensures PadBitsZero(Encode(bs))
  {
    if |bs| == 1 {
      PadGroups(bs[0], 0);
      SymbolRoundTrip(Group2(bs[0], 0));
    } else if |bs| == 2 {
      PadGroups(bs[1], 0);
      SymbolRoundTrip(Group3(bs[1], 0));
    } else if |bs| > 2 {
      EncodedPadBits(bs[3..]);
      EncodedLength(bs[3..]);
      SymbolRoundTrip(Group4(bs[2]));
      assert Encode(bs)[4..] == Encode(bs[3..]);
      if |bs| > 3 {
        FrontPadBits(Encode(bs));
      }
    }
  }

  /** Only the last four characters matter. */
  lemma FrontPadBits(s: string)
    requires |s| >= 8
    ensures PadBitsZero(s) <==> PadBitsZero(s[4..])
  {
    var rest := s[4..];
    assert rest[|rest| - 1] == s[|s| - 1] && rest[|rest| - 2] == s[|s| - 2] && rest[|rest| - 3] == s[|s| - 3];
  }

  // And the four groups out of the three bytes; the last group of a padded quantum only if its pad bits are zero.

  lemma Back1(a: sextet, b: sextet)
    ensures Group1(First(a, b)) == a
  {
  }

  lemma Back2(a: sextet, b: sextet, c: sextet)
    ensures Group2(First(a, b), Second(b, c)) == b
  {
    Parts4(a, b / 16);
    Parts16(b % 16, c / 4);
  }

  lemma Back3(b: sextet, c: sextet, d: sextet)
    ensures Group3(Second(b, c), Third(c, d)) == c
  {
    Parts16(b % 16, c / 4);
    Parts64(c % 4, d);
  }

  lemma Back4(c: sextet, d: sextet)
    ensures Group4(Third(c, d)) == d
  {
  }

  lemma Back2Padded(a: sextet, b: sextet, zero: byte)
    requires zero == 0 && b % 16 == 0
    ensures Group2(First(a, b), zero) == b
  {
  }

  lemma Back3Padded(b: sextet, c: sextet, zero: byte)
    requires zero == 0 && c % 4 == 0
    ensures Group3(Second(b, c), zero) == c
  {
  }

  lemma QuantumWrites(p: char, q: char, r: char, t: char, x: byte, y: byte, z: byte)
    requires Quantum(p, q, r, t) == Some([x, y, z])
    ensures Symbol(Group1(x)) == p && Symbol(Group2(x, y)) == q && Symbol(Group3(y, z)) == r && Symbol(Group4(z)) == t
  {
    var a, b, c, d := SymbolValue(p).value, SymbolValue(q).value, SymbolValue(r).value, SymbolValue(t).value;
    assert [First(a, b), Second(b, c), Third(c, d)] == [x, y, z];
    assert [x, y, z][0] == x && [x, y, z][1] == y && [x, y, z][2] == z;
    Back1(a, b);
    Back2(a, b, c);
    Back3(b, c, d);
    Back4(c, d);
    ValueRoundTrip(p);
    ValueRoundTrip(q);
    ValueRoundTrip(r);
    ValueRoundTrip(t);
  }

  lemma SingleWrites(p: char, q: char, pad: char, x: byte, zero: byte)
    requires zero == 0 && pad == '=' && LastQuantum(p, q, pad, pad) == Some([x]) && SymbolValue(q).value % 16 == 0
    ensures Symbol(Group1(x)) == p && Symbol(Group2(x, zero)) == q
  {
    OneByte(p, q, pad, pad);
    var a, b := SymbolValue(p).value, SymbolValue(q).value;
    assert [x][0] == [First(a, b)][0];
    Back1(a, b);
    Back2Padded(a, b, zero);
    ValueRoundTrip(p);
    ValueRoundTrip(q);
  }

  lemma PairWrites(p: char, q: char, r: char, bs: seq<byte>, zero: byte)
    requires zero == 0 && r != '=' && LastQuantum(p, q, r, '=') == Some(bs) && SymbolValue(r).value % 4 == 0
    ensures |bs| == 2 && Symbol(Group1(bs[0])) == p && Symbol(Group2(bs[0], bs[1])) == q
    ensures Symbol(Group3(bs[1], zero)) == r
  {
    var a, b, c := SymbolValue(p).value, SymbolValue(q).value, SymbolValue(r).value;
    assert bs == [First(a, b), Second(b, c)];
    Back1(a, b);
    Back2(a, b, c);
    Back3Padded(b, c, zero);
    ValueRoundTrip(p);
    ValueRoundTrip(q);
    ValueRoundTrip(r);
  }

  lemma QuantumLength(p: char, q: char, r: char, t: char)
    ensures Quantum(p, q, r, t).Some? ==> |Quantum(p, q, r, t).value| == 3 && t != '='
  {
  }

  lemma LastOnly(s: string, bs: seq<byte>)
    requires |s| == 4 && s[3] == '=' && Decode(s) == Some(bs) && PadBitsZero(s)
    ensures s == Encode(bs)
  {
    if s[2] == '=' {
      OneByte(s[0], s[1], s[2], s[3]);
      SingleWrites(s[0], s[1], '=', bs[0], 0);
    } else {
      PairWrites(s[0], s[1], s[2], bs, 0);
    }
  }

  lemma ThreeOf(first: seq<byte>, rest: seq<byte>)
    requires |first| == 3
    ensures first == [first[0], first[1], first[2]] && (first + rest)[3..] == rest
    ensures (first + rest)[0] == first[0] && (first + rest)[1] == first[1] && (first + rest)[2] == first[2]
  {
  }

  /** How a text begins that does not end with its first four characters in a pad. */
  lemma FullFirst(s: string)
    requires |s| >= 4 && s[3] != '=' && Decode(s).Some?
    ensures Quantum(s[0], s[1], s[2], s[3]).Some? && Decode(s[4..]).Some?
    ensures Decode(s) == Some(Quantum(s[0], s[1], s[2], s[3]).value + Decode(s[4..]).value)
  {
    if |s| == 4 {
      assert s[4..] == "";
      var first := Quantum(s[0], s[1], s[2], s[3]).value;
      assert first + [] == first;
    }
  }

  lemma FirstWrites(s: string, bs: seq<byte>)
    requires |s| >= 4 && s[3] != '=' && Decode(s) == Some(bs)
    ensures |bs| >= 3 && Decode(s[4..]) == Some(bs[3..])
    ensures s[..4] == [Symbol(Group1(bs[0])), Symbol(Group2(bs[0], bs[1])),
                       Symbol(Group3(bs[1], bs[2])), Symbol(Group4(bs[2]))]
  {
    FullFirst(s);
    QuantumLength(s[0], s[1], s[2], s[3]);
    var first := Quantum(s[0], s[1], s[2], s[3]).value;
    ThreeOf(first, Decode(s[4..]).value);
    QuantumWrites(s[0], s[1], s[2], s[3], first[0], first[1], first[2]);
  }

  /** The encoding is the only text with zero pad bits that decodes to these bytes. */
  lemma {:induction false} OnlyEncoding(s: string, bs: seq<byte>)
    requires Decode(s) == Some(bs) && PadBitsZero(s)
    ensures s == Encode(bs)
    decreases |s|
  {
    if s != "" {
      if s[3] == '=' {
        QuantumLength(s[0], s[1], s[2], s[3]);
        LastOnly(s, bs);
      } else {
        FirstWrites(s, bs);
        if |s| >= 8 {
          FrontPadBits(s);
        }
        OnlyEncoding(s[4..], bs[3..]);
        assert s == s[..4] + s[4..];
      }
    }
  }
}
