/** JSON texts (RFC 8259): a value datatype, the compact printer with the string escapes that encoding/json
    uses, and a parser for the whole grammar. Texts are sequences of Unicode scalar values. */
module JsonText {
  import opened Outcomes

  /** Numbers keep their literal, so that nothing is lost between reading and writing. */
  datatype Json =
    | Null
    | Bool(b: bool)
    | Num(lit: string)
    | Str(s: string)
    | Arr(items: Items)
    | Obj(members: Members)

  datatype Items = NoItems | Item(head: Json, tail: Items)

  datatype Members = NoMembers | Member(key: string, value: Json, rest: Members)

  // ---- Strings ----

  function HexDigit(n: int): char
    requires 0 <= n < 16
  {
    (if n < 10 then '0' as int + n else 'a' as int + n - 10) as char
  }

  function HexValue(c: char): (r: Option<int>)
    ensures r.Some? ==> 0 <= r.value < 16
  {
    if '0' <= c <= '9' then Some(c as int - '0' as int)
    else if 'a' <= c <= 'f' then Some(c as int - 'a' as int + 10)
    else if 'A' <= c <= 'F' then Some(c as int - 'A' as int + 10)
    else None
  }

  function Hex4(n: int): string
    requires 0 <= n < 0x10000
  {
    [HexDigit(n / 0x1000), HexDigit(n / 0x100 % 0x10), HexDigit(n / 0x10 % 0x10), HexDigit(n % 0x10)]
  }

  function ReadHex4(s: string): (r: Option<int>)
    ensures r.Some? ==> |s| >= 4 && 0 <= r.value < 0x10000
  {
    if |s| < 4 then None
    else
      var a :- HexValue(s[0]);
      var b :- HexValue(s[1]);
      var c :- HexValue(s[2]);
      var d :- HexValue(s[3]);
      Some(a * 0x1000 + b * 0x100 + c * 0x10 + d)
  }

  /** The letter after the backslash of a two-character escape. */
  function ShortEscape(c: char): Option<char> {
    if c == '\"' || c == '\\' then Some(c)
    else if c == '\n' then Some('n')
    else if c == '\r' then Some('r')
    else if c == '\t' then Some('t')
    else if c as int == 8 then Some('b')
    else if c as int == 12 then Some('f')
    else None
  }

  predicate NeedsUnicode(c: char) {
    c < ' ' || c == '<' || c == '>' || c == '&' || c == '\U{2028}' || c == '\U{2029}'
  }

  /** Quote, backslash and control characters must be escaped (section 7 of RFC 8259); encoding/json
      also escapes the characters that are unsafe inside HTML and the two line separators. */
  function EscapeChar(c: char): (r: string)
    ensures r != ""
  {
    if ShortEscape(c).Some? then ['\\', ShortEscape(c).value]
    else if NeedsUnicode(c) then "\\u" + Hex4(c as int)
    else [c]
  }

  function Escape(s: string): string {
    if s == "" then "" else EscapeChar(s[0]) + Escape(s[1..])
  }

  function Quote(s: string): string { "\"" + Escape(s) + "\"" }

  predicate IsHigh(n: int) { 0xD800 <= n < 0xDC00 }

  predicate IsLow(n: int) { 0xDC00 <= n < 0xE000 }

  const REPLACEMENT := '\U{FFFD}'

  /** The character of a \u escape, s starting at its digits. A high and a low surrogate make one character;
      a lone surrogate becomes the replacement character. */
  function ReadUnicode(s: string): (r: Option<(char, string)>)
    ensures r.Some? ==> |r.value.1| < |s|
  {
    var n :- ReadHex4(s);
    if !IsHigh(n) && !IsLow(n) then Some((n as char, s[4..]))
    else if IsHigh(n) && |s| >= 6 && s[4] == '\\' && s[5] == 'u' then
      match ReadHex4(s[6..])
      case Some(m) =>
        if IsLow(m) then Some(((0x10000 + (n - 0xD800) * 0x400 + (m - 0xDC00)) as char, s[10..]))
        else Some((REPLACEMENT, s[4..]))
      case None => Some((REPLACEMENT, s[4..]))
    else Some((REPLACEMENT, s[4..]))
  }

  /** The character of an escape, s starting after the backslash. */
  function ReadEscape(s: string): (r: Option<(char, string)>)
    ensures r.Some? ==> |r.value.1| < |s|
  {
    if s == "" then None
    else if s[0] == 'u' then ReadUnicode(s[1..])
    else
      var c :-
        if s[0] == '\"' || s[0] == '\\' || s[0] == '/' then Some(s[0])
        else if s[0] == 'n' then Some('\n')
        else if s[0] == 'r' then Some('\r')
        else if s[0] == 't' then Some('\t')
        else if s[0] == 'b' then Some(8 as char)
        else if s[0] == 'f' then Some(12 as char)
        else None;
      Some((c, s[1..]))
  }

  /** The rest of a string literal, s starting after the opening quote. */
  function ReadChars(s: string): (r: Option<(string, string)>)
    ensures r.Some? ==> |r.value.1| < |s|
  {
    if s == "" || s[0] < ' ' then None
    else if s[0] == '\"' then Some(("", s[1..]))
    else
      var (c, after) :- if s[0] == '\\' then ReadEscape(s[1..]) else Some((s[0], s[1..]));
      var (cs, rest) :- ReadChars(after);
      Some(([c] + cs, rest))
  }

  lemma HexRoundTrip(n: int)
    requires 0 <= n < 16
    ensures HexValue(HexDigit(n)) == Some(n)
  {
  }

  lemma HexDigitsOf(n: int)
    requires 0 <= n < 0x10000
    ensures n == n / 0x1000 * 0x1000 + n / 0x100 % 0x10 * 0x100 + n / 0x10 % 0x10 * 0x10 + n % 0x10
  {
    assert n / 0x1000 == n / 0x100 / 0x10;
    assert n / 0x100 == n / 0x10 / 0x10;
  }

  lemma ReadHexDigits(a: int, b: int, c: int, d: int, rest: string)
    requires 0 <= a < 16 && 0 <= b < 16 && 0 <= c < 16 && 0 <= d < 16
    ensures
      ReadHex4([HexDigit(a), HexDigit(b), HexDigit(c), HexDigit(d)] + rest) ==
      Some(a * 0x1000 + b * 0x100 + c * 0x10 + d)
  {
    HexRoundTrip(a);
    HexRoundTrip(b);
    HexRoundTrip(c);
    HexRoundTrip(d);
  }

  lemma Hex4RoundTrip(n: int, rest: string)
    requires 0 <= n < 0x10000
    ensures ReadHex4(Hex4(n) + rest) == Some(n)
  {
    HexDigitsOf(n);
    ReadHexDigits(n / 0x1000, n / 0x100 % 0x10, n / 0x10 % 0x10, n % 0x10, rest);
  }

  /** What reading one character more does to the outcome for the rest. */
  function Prepend(c: char, r: Option<(string, string)>): Option<(string, string)> {
    match r
    case None => None
    case Some((cs, rest)) => Some(([c] + cs, rest))
  }

  lemma UnicodeRoundTrip(c: char, rest: string)
    requires (c as int) < 0xD800
    ensures ReadChars("\\u" + Hex4(c as int) + rest) == Prepend(c, ReadChars(rest))
  {
    var digits := Hex4(c as int) + rest;
    var s := "\\u" + Hex4(c as int) + rest;
    Hex4RoundTrip(c as int, rest);
    assert s[1..][1..] == digits;
    assert digits[4..] == rest;
    assert ReadEscape(s[1..]) == Some((c, rest));
  }

  lemma ShortRoundTrip(e: char, c: char, rest: string)
    requires e != 'u' && ReadEscape([e]) == Some((c, ""))
    ensures ReadChars(['\\', e] + rest) == Prepend(c, ReadChars(rest))
  {
    var s := ['\\', e] + rest;
    assert s[1..][1..] == rest;
    assert ReadEscape(s[1..]) == Some((c, rest));
  }

  lemma CharRoundTrip(c: char, rest: string)
    ensures ReadChars(EscapeChar(c) + rest) == Prepend(c, ReadChars(rest))
  {
    if ShortEscape(c).Some? {
      ShortRoundTrip(ShortEscape(c).value, c, rest);
    } else if NeedsUnicode(c) {
      UnicodeRoundTrip(c, rest);
    } else {
      assert ([c] + rest)[1..] == rest;
    }
  }

  lemma {:induction false} StringRoundTrip(s: string, rest: string)
    ensures ReadChars(Escape(s) + "\"" + rest) == Some((s, rest))
  {
    if s == "" {
      assert ("" + "\"" + rest)[1..] == rest;
    } else {
      StringRoundTrip(s[1..], rest);
      var after := Escape(s[1..]) + "\"" + rest;
      CharRoundTrip(s[0], after);
      assert [s[0]] + s[1..] == s;
      assert Escape(s) + "\"" + rest == EscapeChar(s[0]) + after;
    }
  }

  /** A text without control characters; in particular without a raw newline. */
  ghost predicate Printable(s: string) { forall c | c in s :: c >= ' ' }

  lemma EscapeCharPrintable(c: char)
    ensures Printable(EscapeChar(c))
  {
  }

  lemma {:induction false} EscapePrintable(s: string)
    ensures Printable(Escape(s))
  {
    if s != "" {
      EscapePrintable(s[1..]);
      EscapeCharPrintable(s[0]);
    }
  }

  // ---- Numbers ----

  predicate IsDigit(c: char) { '0' <= c <= '9' }

  predicate IsNumberChar(c: char) { IsDigit(c) || c == '-' || c == '+' || c == '.' || c == 'e' || c == 'E' }

  /** The parts of a number literal; its value is (-1)^negative * whole.frac * 10^exp. */
  datatype Number = Number(negative: bool, whole: string, frac: string, exp: int)

  /** Length of the longest prefix of digits. */
  function DigitRun(s: string): (n: nat)
    ensures n <= |s|
    ensures n < |s| ==> !IsDigit(s[n])
    ensures forall i | 0 <= i < n :: IsDigit(s[i])
  {
    if s == "" || !IsDigit(s[0]) then 0 else 1 + DigitRun(s[1..])
  }

  function DigitValue(c: char): nat
    requires IsDigit(c)
  {
    c as int - '0' as int
  }

  function DigitsValue(s: string): (n: nat)
    requires forall c | c in s :: IsDigit(c)
  {
    if s == "" then 0
    else
      assert s[|s| - 1] in s;
      10 * DigitsValue(s[..|s| - 1]) + DigitValue(s[|s| - 1])
  }

  function ReadExponent(s: string): Option<int> {
    if s == "" then Some(0)
    else if s[0] != 'e' && s[0] != 'E' then None
    else
      var signed := |s| > 1 && (s[1] == '-' || s[1] == '+');
      var digits := if signed then s[2..] else s[1..];
      if digits == "" || DigitRun(digits) != |digits| then None
      else
        var magnitude: int := DigitsValue(digits);
        Some(if signed && s[1] == '-' then -magnitude else magnitude)
  }

  /** The number grammar (section 6 of RFC 8259). */
  function ReadNumber(lit: string): (r: Option<Number>)
    ensures r.Some? ==> r.value.whole != "" && forall c | c in r.value.whole + r.value.frac :: IsDigit(c)
  {
    var negative := lit != "" && lit[0] == '-';
    var s := if negative then lit[1..] else lit;
    var n := DigitRun(s);
    if n == 0 || (n > 1 && s[0] == '0') then None
    else
      var after := s[n..];
      if after != "" && after[0] == '.' then
        var m := DigitRun(after[1..]);
        if m == 0 then None
        else
          var exp :- ReadExponent(after[1..][m..]);
          Some(Number(negative, s[..n], after[1..][..m], exp))
      else
        var exp :- ReadExponent(after);
        Some(Number(negative, s[..n], "", exp))
  }

  predicate IsNumber(lit: string) { (forall c | c in lit :: IsNumberChar(c)) && ReadNumber(lit).Some? }

  /** Length of the longest prefix of number characters. */
  function NumberRun(s: string): (n: nat)
    ensures n <= |s|
    ensures forall i | 0 <= i < n :: IsNumberChar(s[i])
  {
    if s == "" || !IsNumberChar(s[0]) then 0 else 1 + NumberRun(s[1..])
  }

  ghost predicate Delimited(rest: string) { rest != "" ==> !IsNumberChar(rest[0]) }

  lemma {:induction false} NumberRunStops(lit: string, rest: string)
    requires (forall c | c in lit :: IsNumberChar(c)) && Delimited(rest)
    ensures NumberRun(lit + rest) == |lit|
  {
    if lit == "" {
      assert lit + rest == rest;
    } else {
      NumberRunStops(lit[1..], rest);
      assert (lit + rest)[1..] == lit[1..] + rest;
    }
  }

  function Digit(n: int): char
    requires 0 <= n < 10
  {
    ('0' as int + n) as char
  }

  function NatLiteral(n: nat): (r: string)
    ensures r != "" && forall c | c in r :: IsDigit(c)
  {
    if n < 10 then [Digit(n)] else NatLiteral(n / 10) + [Digit(n % 10)]
  }

  function IntLiteral(n: int): string { if n < 0 then "-" + NatLiteral(-n) else NatLiteral(n) }

  lemma {:induction false} NatLiteralValue(n: nat)
    ensures DigitsValue(NatLiteral(n)) == n
    ensures |NatLiteral(n)| > 1 ==> NatLiteral(n)[0] != '0'
    ensures |NatLiteral(n)| == 1 <==> n < 10
  {
    if n < 10 {
      assert NatLiteral(n)[..0] == "";
    } else {
      NatLiteralValue(n / 10);
      var front := NatLiteral(n / 10);
      assert (front + [Digit(n % 10)])[..|front|] == front;
    }
  }

  lemma {:induction false} DigitRunAll(s: string)
    requires forall c | c in s :: IsDigit(c)
    ensures DigitRun(s) == |s|
  {
    if s != "" {
      DigitRunAll(s[1..]);
    }
  }

  lemma WholeNumberReads(negative: bool, digits: string)
    requires digits != "" && (forall c | c in digits :: IsDigit(c)) && (|digits| > 1 ==> digits[0] != '0')
    ensures ReadNumber((if negative then "-" else "") + digits) == Some(Number(negative, digits, "", 0))
  {
    var lit := (if negative then "-" else "") + digits;
    DigitRunAll(digits);
    assert digits[0] in digits;
    assert lit[0] == '-' <==> negative;
    assert (if negative then lit[1..] else lit) == digits;
    assert digits[|digits|..] == "" && digits[..|digits|] == digits;
  }

  lemma IntLiteralReads(n: int)
    ensures IsNumber(IntLiteral(n))
    ensures
      var digits := NatLiteral(if n < 0 then -n else n);
      ReadNumber(IntLiteral(n)) == Some(Number(n < 0, digits, "", 0))
  {
    var digits := NatLiteral(if n < 0 then -n else n);
    NatLiteralValue(if n < 0 then -n else n);
    WholeNumberReads(n < 0, digits);
    assert IntLiteral(n) == (if n < 0 then "-" else "") + digits;
  }

  // ---- Values ----

  function Print(v: Json): string {
    match v
    case Null => "null"
    case Bool(b) => if b then "true" else "false"
    case Num(lit) => lit
    case Str(s) => Quote(s)
    case Arr(items) => "[" + PrintArray(items)
    case Obj(members) => "{" + PrintObject(members)
  }

  /** A printed array without its opening bracket. */
  function PrintArray(items: Items): string {
    match items
    case NoItems => "]"
    case Item(head, tail) => Print(head) + PrintItems(tail)
  }

  function PrintItems(items: Items): string {
    match items
    case NoItems => "]"
    case Item(head, tail) => "," + (Print(head) + PrintItems(tail))
  }

  /** A printed object without its opening brace. */
  function PrintObject(members: Members): string
    decreases members, 0
  {
    match members
    case NoMembers => "}"
    case Member(key, value, rest) => Quote(key) + (":" + (Print(value) + PrintMembers(rest)))
  }

  function PrintMembers(members: Members): string
    decreases members, 1
  {
    match members
    case NoMembers => "}"
    case Member(key, value, rest) => "," + PrintObject(members)
  }

  predicate IsSpace(c: char) { c == ' ' || c == '\t' || c == '\n' || c == '\r' }

  function SkipSpace(s: string): (r: string)
    ensures |r| <= |s|
  {
    if s != "" && IsSpace(s[0]) then SkipSpace(s[1..]) else s
  }

  /** s without `word` in front of it. */
  function Expect(s: string, word: string): (r: Option<string>)
    requires word != ""
    ensures r.Some? ==> |r.value| < |s|
  {
    if |word| <= |s| && s[..|word|] == word then Some(s[|word|..]) else None
  }

  /** Every number literal is one. */
  predicate WellFormed(v: Json) {
    match v
    case Num(lit) => IsNumber(lit)
    case Arr(items) => WellFormedItems(items)
    case Obj(members) => WellFormedMembers(members)
    case _ => true
  }

  predicate WellFormedItems(items: Items) {
    match items
    case NoItems => true
    case Item(head, tail) => WellFormed(head) && WellFormedItems(tail)
  }

  predicate WellFormedMembers(members: Members) {
    match members
    case NoMembers => true
    case Member(_, value, rest) => WellFormed(value) && WellFormedMembers(rest)
  }

  function ReadValue(text: string): (r: Option<(Json, string)>)
    ensures r.Some? ==> |r.value.1| < |text| && WellFormed(r.value.0)
    decreases |text|, 0
  {
    var s := SkipSpace(text);
    if s == "" then None
    else if s[0] == '[' then ReadArray(s[1..])
    else if s[0] == '{' then ReadObject(s[1..])
    else ReadScalar(s)
  }

  function ReadWord(s: string): (r: Option<(Json, string)>)
    ensures r.Some? ==> |r.value.1| < |s| && WellFormed(r.value.0)
  {
    if Expect(s, "true").Some? then Some((Bool(true), Expect(s, "true").value))
    else if Expect(s, "false").Some? then Some((Bool(false), Expect(s, "false").value))
    else if Expect(s, "null").Some? then Some((Null, Expect(s, "null").value))
    else None
  }

  function ReadNumeral(s: string): (r: Option<(Json, string)>)
    ensures r.Some? ==> |r.value.1| < |s| && WellFormed(r.value.0)
  {
    var n := NumberRun(s);
    if n > 0 && IsNumber(s[..n]) then Some((Num(s[..n]), s[n..])) else None
  }

  /** A string, a number or a word. */
  function ReadScalar(s: string): (r: Option<(Json, string)>)
    requires s != ""
    ensures r.Some? ==> |r.value.1| < |s| && WellFormed(r.value.0)
  {
    if s[0] == '\"' then
      var (cs, rest) :- ReadChars(s[1..]);
      Some((Str(cs), rest))
    else if IsNumberChar(s[0]) then ReadNumeral(s)
    else ReadWord(s)
  }

  /** An array, text starting after its opening bracket. */
  function ReadArray(text: string): (r: Option<(Json, string)>)
    ensures r.Some? ==> |r.value.1| < |text| && WellFormed(r.value.0)
    decreases |text|, 1
  {
    var s := SkipSpace(text);
    if s != "" && s[0] == ']' then Some((Arr(NoItems), s[1..]))
    else
      var (head, after) :- ReadValue(s);
      var (tail, rest) :- ReadItems(after);
      Some((Arr(Item(head, tail)), rest))
  }

  /** An object, text starting after its opening brace. */
  function ReadObject(text: string): (r: Option<(Json, string)>)
    ensures r.Some? ==> |r.value.1| < |text| && WellFormed(r.value.0)
    decreases |text|, 2
  {
    var s := SkipSpace(text);
    if s != "" && s[0] == '}' then Some((Obj(NoMembers), s[1..]))
    else
      var (members, rest) :- ReadMember(s);
      Some((Obj(members), rest))
  }

  /** The items after the first one, up to the closing bracket. */
  function ReadItems(text: string): (r: Option<(Items, string)>)
    ensures r.Some? ==> |r.value.1| < |text| && WellFormedItems(r.value.0)
    decreases |text|, 1
  {
    var s := SkipSpace(text);
    if s == "" then None
    else if s[0] == ']' then Some((NoItems, s[1..]))
    else if s[0] == ',' then
      var (head, after) :- ReadValue(s[1..]);
      var (tail, rest) :- ReadItems(after);
      Some((Item(head, tail), rest))
    else None
  }

  /** One member and the ones after it, up to the closing brace. */
  function ReadMember(text: string): (r: Option<(Members, string)>)
    ensures r.Some? ==> |r.value.1| < |text| && WellFormedMembers(r.value.0)
    decreases |text|, 1
  {
    var s := SkipSpace(text);
    if s == "" || s[0] != '\"' then None
    else
      var (key, afterKey) :- ReadChars(s[1..]);
      var afterColon :- Expect(SkipSpace(afterKey), ":");
      var (value, after) :- ReadValue(afterColon);
      var (members, rest) :- ReadMembers(after);
      Some((Member(key, value, members), rest))
  }

  function ReadMembers(text: string): (r: Option<(Members, string)>)
    ensures r.Some? ==> |r.value.1| < |text| && WellFormedMembers(r.value.0)
    decreases |text|, 2
  {
    var s := SkipSpace(text);
    if s == "" then None
    else if s[0] == '}' then Some((NoMembers, s[1..]))
    else if s[0] == ',' then ReadMember(s[1..])
    else None
  }

  /** The value of a whole text; nothing but space may follow it. */
  function Parse(text: string): (r: Option<Json>)
    ensures r.Some? ==> WellFormed(r.value)
  {
    var (v, rest) :- ReadValue(text);
    if SkipSpace(rest) == "" then Some(v) else None
  }

  // ---- Nesting ----

  /** encoding/json refuses a text with more brackets than this open at once. */
  const MAX_DEPTH := 10000

  function Max(a: nat, b: nat): nat { if a < b then b else a }

  /** How many brackets are open at once in the text of a value. */
  function Depth(v: Json): nat {
    match v
    case Arr(items) => 1 + ItemsDepth(items)
    case Obj(members) => 1 + MembersDepth(members)
    case _ => 0
  }

  function ItemsDepth(items: Items): nat {
    match items
    case NoItems => 0
    case Item(head, tail) => Max(Depth(head), ItemsDepth(tail))
  }

  function MembersDepth(members: Members): nat {
    match members
    case NoMembers => 0
    case Member(_, value, rest) => Max(Depth(value), MembersDepth(rest))
  }

  /** The value of a text that encoding/json takes. */
  function Unmarshal(text: string): (r: Option<Json>)
    ensures r.Some? ==> WellFormed(r.value) && Depth(r.value) <= MAX_DEPTH
  {
    var v :- Parse(text);
    if Depth(v) <= MAX_DEPTH then Some(v) else None
  }

  // ---- Printing and reading ----

  lemma StringValueRoundTrip(s: string, rest: string)
    ensures ReadValue(Quote(s) + rest) == Some((Str(s), rest))
  {
    assert SkipSpace(Quote(s) + rest) == Quote(s) + rest;
    var text := Quote(s) + rest;
    assert text[1..] == Escape(s) + "\"" + rest;
    StringRoundTrip(s, rest);
  }

  /** A printed value starts with neither space nor a closing bracket. */
  lemma FirstChar(v: Json)
    requires WellFormed(v)
    ensures Print(v) != "" && !IsSpace(Print(v)[0]) && Print(v)[0] != ']' && Print(v)[0] != '}'
  {
    if v.Num? {
      NumberStart(v.lit);
    }
  }

  lemma NumberStart(lit: string)
    requires IsNumber(lit)
    ensures lit != "" && IsNumberChar(lit[0])
  {
    if lit != "" {
      assert lit[0] in lit;
    }
  }

  lemma NumeralReads(lit: string, rest: string)
    requires IsNumber(lit) && lit != "" && NumberRun(lit + rest) == |lit|
    ensures ReadNumeral(lit + rest) == Some((Num(lit), rest))
  {
    CutJoin(lit, rest);
  }

  lemma CutJoin(a: string, b: string)
    ensures (a + b)[..|a|] == a && (a + b)[|a|..] == b
  {
  }

  lemma ScalarDispatch(text: string)
    requires text != "" && !IsSpace(text[0]) && text[0] != '[' && text[0] != '{'
    ensures ReadValue(text) == ReadScalar(text)
  {
  }

  lemma NumberValueRoundTrip(lit: string, rest: string)
    requires IsNumber(lit) && Delimited(rest)
    ensures ReadValue(lit + rest) == Some((Num(lit), rest))
  {
    NumberStart(lit);
    NumberRunStops(lit, rest);
    NumeralReads(lit, rest);
    assert (lit + rest)[0] == lit[0];
    ScalarDispatch(lit + rest);
  }

  /** The three words start with different letters. */
  lemma WordReads(text: string, v: Json, rest: string)
    requires (v.Null? || v.Bool?) && Expect(text, Print(v)) == Some(rest)
    ensures ReadWord(text) == Some((v, rest))
  {
    var word := Print(v);
    assert text[0] == text[..|word|][0] == word[0];
    forall other | other in ["true", "false", "null"] && other[0] != word[0]
      ensures Expect(text, other).None?
    {
      if |other| <= |text| {
        assert text[..|other|][0] == text[0];
      }
    }
  }

  lemma WordRoundTrip(v: Json, rest: string)
    requires v.Null? || v.Bool?
    ensures ReadValue(Print(v) + rest) == Some((v, rest))
  {
    var word := Print(v);
    CutJoin(word, rest);
    assert (word + rest)[0] == word[0];
    assert Expect(word + rest, word) == Some(rest);
    WordReads(word + rest, v, rest);
    ScalarDispatch(word + rest);
  }

  lemma EmptyReads(rest: string)
    ensures ReadArray("]" + rest) == Some((Arr(NoItems), rest))
    ensures ReadItems("]" + rest) == Some((NoItems, rest))
    ensures ReadObject("}" + rest) == Some((Obj(NoMembers), rest))
    ensures ReadMembers("}" + rest) == Some((NoMembers, rest))
  {
    assert ("]" + rest)[1..] == rest;
    assert ("}" + rest)[1..] == rest;
  }

  lemma BracketReads(inside: string)
    ensures ReadValue("[" + inside) == ReadArray(inside)
    ensures ReadValue("{" + inside) == ReadObject(inside)
  {
    assert ("[" + inside)[1..] == inside;
    assert ("{" + inside)[1..] == inside;
  }

  lemma ArrayReads(inside: string, head: Json, after: string, tail: Items, rest: string)
    requires inside != "" && !IsSpace(inside[0]) && inside[0] != ']'
    requires ReadValue(inside) == Some((head, after)) && ReadItems(after) == Some((tail, rest))
    ensures ReadArray(inside) == Some((Arr(Item(head, tail)), rest))
  {
  }

  lemma MoreItemsRead(inside: string, head: Json, after: string, tail: Items, rest: string)
    requires ReadValue(inside) == Some((head, after)) && ReadItems(after) == Some((tail, rest))
    ensures ReadItems("," + inside) == Some((Item(head, tail), rest))
  {
    assert ("," + inside)[1..] == inside;
  }

  lemma QuoteReads(key: string, rest: string)
    ensures (Quote(key) + rest)[0] == '\"'
    ensures ReadChars((Quote(key) + rest)[1..]) == Some((key, rest))
  {
    StringRoundTrip(key, rest);
    assert (Quote(key) + rest)[1..] == Escape(key) + "\"" + rest;
  }

  lemma ColonReads(afterColon: string)
    ensures Expect(SkipSpace(":" + afterColon), ":") == Some(afterColon)
  {
    assert SkipSpace(":" + afterColon) == ":" + afterColon;
  }

  lemma MemberReads(key: string, afterColon: string, value: Json, after: string, members: Members, rest: string)
    requires ReadValue(afterColon) == Some((value, after)) && ReadMembers(after) == Some((members, rest))
    ensures ReadMember(Quote(key) + (":" + afterColon)) == Some((Member(key, value, members), rest))
  {
    var text := Quote(key) + (":" + afterColon);
    QuoteReads(key, ":" + afterColon);
    ColonReads(afterColon);
    assert SkipSpace(text) == text;
  }

  lemma ObjectReads(inside: string, members: Members, rest: string)
    requires inside != "" && inside[0] == '\"' && ReadMember(inside) == Some((members, rest))
    ensures ReadObject(inside) == Some((Obj(members), rest))
    ensures ReadMembers("," + inside) == Some((members, rest))
  {
    assert ("," + inside)[1..] == inside;
  }

  lemma Associate(a: string, b: string, c: string)
    ensures (a + b) + c == a + (b + c)
  {
  }

  /** Reading a printed value gives it back, and leaves what follows it. */
  lemma {:induction false} ValueRoundTrip(v: Json, rest: string)
    requires WellFormed(v) && Delimited(rest)
    ensures ReadValue(Print(v) + rest) == Some((v, rest))
    decreases v, 0
  {
    match v
    case Null => WordRoundTrip(v, rest);
    case Bool(_) => WordRoundTrip(v, rest);
    case Num(lit) => NumberValueRoundTrip(lit, rest);
    case Str(s) => StringValueRoundTrip(s, rest);
    case Arr(items) =>
      ArrayRoundTrip(items, rest);
      BracketReads(PrintArray(items) + rest);
      Associate("[", PrintArray(items), rest);
    case Obj(members) =>
      ObjectRoundTrip(members, rest);
      BracketReads(PrintObject(members) + rest);
      Associate("{", PrintObject(members), rest);
  }

  lemma {:induction false} ArrayRoundTrip(items: Items, rest: string)
    requires WellFormedItems(items)
    ensures ReadArray(PrintArray(items) + rest) == Some((Arr(items), rest))
    decreases items, 0
  {
    if items.NoItems? {
      EmptyReads(rest);
    } else {
      ItemsRoundTrip(items.tail, rest);
      var after := PrintItems(items.tail) + rest;
      ItemsDelimit(items.tail, rest);
      ValueRoundTrip(items.head, after);
      FirstChar(items.head);
      Associate(Print(items.head), PrintItems(items.tail), rest);
      assert (Print(items.head) + after)[0] == Print(items.head)[0];
      ArrayReads(Print(items.head) + after, items.head, after, items.tail, rest);
    }
  }

  lemma {:induction false} ItemsRoundTrip(items: Items, rest: string)
    requires WellFormedItems(items)
    ensures ReadItems(PrintItems(items) + rest) == Some((items, rest))
    decreases items, 0
  {
    if items.NoItems? {
      EmptyReads(rest);
    } else {
      ItemsRoundTrip(items.tail, rest);
      var after := PrintItems(items.tail) + rest;
      ItemsDelimit(items.tail, rest);
      ValueRoundTrip(items.head, after);
      Associate(Print(items.head), PrintItems(items.tail), rest);
      Associate(",", Print(items.head) + PrintItems(items.tail), rest);
      MoreItemsRead(Print(items.head) + after, items.head, after, items.tail, rest);
    }
  }

  lemma {:induction false} ObjectRoundTrip(members: Members, rest: string)
    requires WellFormedMembers(members)
    ensures ReadObject(PrintObject(members) + rest) == Some((Obj(members), rest))
    ensures ReadMembers(PrintMembers(members) + rest) == Some((members, rest))
    decreases members, 0
  {
    if members.NoMembers? {
      EmptyReads(rest);
    } else {
      var Member(key, value, others) := members;
      ObjectRoundTrip(others, rest);
      var after := PrintMembers(others) + rest;
      MembersDelimit(others, rest);
      ValueRoundTrip(value, after);
      MemberReads(key, Print(value) + after, value, after, others, rest);
      MemberText(members, rest);
      var inside := PrintObject(members) + rest;
      ObjectReads(inside, members, rest);
      Associate(",", PrintObject(members), rest);
    }
  }

  lemma MemberText(m: Members, rest: string)
    requires m.Member?
    ensures PrintObject(m) + rest == Quote(m.key) + (":" + (Print(m.value) + (PrintMembers(m.rest) + rest)))
    ensures (PrintObject(m) + rest)[0] == '\"'
  {
    var body := Print(m.value) + PrintMembers(m.rest);
    Associate(Quote(m.key), ":" + body, rest);
    Associate(":", body, rest);
    Associate(Print(m.value), PrintMembers(m.rest), rest);
  }

  lemma ItemsDelimit(items: Items, rest: string)
    ensures Delimited(PrintItems(items) + rest)
  {
  }

  lemma MembersDelimit(members: Members, rest: string)
    ensures Delimited(PrintMembers(members) + rest)
  {
  }

  /** Parsing undoes printing. */
  lemma ParseOfPrint(v: Json)
    requires WellFormed(v)
    ensures Parse(Print(v)) == Some(v)
  {
    ValueRoundTrip(v, "");
    assert Print(v) + "" == Print(v);
  }

  /** A printed value has no control character in it, so no raw newline. */
  lemma {:induction false} PrintPrintable(v: Json)
    requires WellFormed(v)
    ensures Printable(Print(v))
    decreases v, 0
  {
    match v
    case Str(s) => EscapePrintable(s);
    case Arr(items) => ItemsPrintable(items);
    case Obj(members) => MembersPrintable(members);
    case _ =>
  }

  lemma {:induction false} ItemsPrintable(items: Items)
    requires WellFormedItems(items)
    ensures Printable(PrintItems(items)) && Printable(PrintArray(items))
    decreases items, 0
  {
    if items.Item? {
      PrintPrintable(items.head);
      ItemsPrintable(items.tail);
    }
  }

  lemma {:induction false} MembersPrintable(members: Members)
    requires WellFormedMembers(members)
    ensures Printable(PrintObject(members)) && Printable(PrintMembers(members))
    decreases members, 0
  {
    if members.Member? {
      EscapePrintable(members.key);
      PrintPrintable(members.value);
      MembersPrintable(members.rest);
    }
  }

  /** A printed value is taken back if and only if it is not nested too deeply. */
  lemma {:induction false} UnmarshalOfPrint(v: Json)
    requires WellFormed(v)
    ensures Unmarshal(Print(v)) == if Depth(v) <= MAX_DEPTH then Some(v) else None
  {
    ParseOfPrint(v);
  }
}
