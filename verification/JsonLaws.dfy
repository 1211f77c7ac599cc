/** The JSON texts that the parser reads beyond those that the printer writes (RFC 8259): white space between tokens,
    every form of escape, the grammar of numbers; that it reads nothing else; and how nesting is counted. */
module JsonLaws {
  import opened Outcomes
  import opened JsonText

  // ---- White space (section 2) ----

  ghost predicate Blank(w: string) { forall i | 0 <= i < |w| :: w[i] in {' ', '\t', '\n', '\r'} }

  lemma {:induction false} SkipBlank(w: string, s: string)
    requires Blank(w)
    ensures SkipSpace(w + s) == SkipSpace(s)
  {
    if w == "" {
      assert w + s == s;
    } else {
      SkipBlank(w[1..], s);
      assert (w + s)[1..] == w[1..] + s;
    }
  }

  /** White space may stand in front of every token of a value, an array or an object. */
  lemma BlankBeforeTokens(w: string, s: string)
    requires Blank(w)
    ensures ReadValue(w + s) == ReadValue(s)
    ensures ReadArray(w + s) == ReadArray(s) && ReadItems(w + s) == ReadItems(s)
    ensures ReadObject(w + s) == ReadObject(s) && ReadMembers(w + s) == ReadMembers(s)
    ensures ReadMember(w + s) == ReadMember(s)
  {
    SkipBlank(w, s);
  }

  /** And between a key and its colon. */
  lemma BlankBeforeColon(key: string, w: string, s: string)
    requires Blank(w)
    ensures ReadMember(Quote(key) + (w + s)) == ReadMember(Quote(key) + s)
  {
    QuoteReads(key, w + s);
    QuoteReads(key, s);
    SkipBlank(w, s);
  }

  /** And around a whole text. */
  lemma BlankAround(v: Json, before: string, after: string)
    requires WellFormed(v) && Blank(before) && Blank(after)
    ensures Parse(before + (Print(v) + after)) == Some(v)
  {
    BlankBeforeTokens(before, Print(v) + after);
    ValueRoundTrip(v, after);
    SkipBlank(after, "");
    assert after + "" == after;
  }

  // ---- Escapes (section 7) ----

  /** The two-character escapes, all eight of them, with the character that each stands for. */
  lemma ShortEscapes(e: char, c: char, rest: string)
    requires (e, c) in {('\"', '\"'), ('\\', '\\'), ('/', '/'), ('b', '\U{0008}'), ('f', '\U{000C}'),
                        ('n', '\n'), ('r', '\r'), ('t', '\t')}
    ensures ReadChars(['\\', e] + rest) == Prepend(c, ReadChars(rest))
  {
    assert [e][1..] == "";
    ShortRoundTrip(e, c, rest);
  }

  /** Hexadecimal digits count the same in both cases. */
  lemma HexCase(k: int)
    requires 0 <= k < 6
    ensures HexValue(('A' as int + k) as char) == HexValue(('a' as int + k) as char) == Some(10 + k)
  {
  }

  /** A high and a low surrogate make one character. */
  lemma SurrogatePair(c: char, rest: string)
    requires c as int >= 0x10000
    ensures
      var n := c as int - 0x10000;
      ReadChars("\\u" + (Hex4(0xD800 + n / 0x400) + ("\\u" + (Hex4(0xDC00 + n % 0x400) + rest)))) ==
      Prepend(c, ReadChars(rest))
  {
    var n := c as int - 0x10000;
    var low := Hex4(0xDC00 + n % 0x400) + rest;
    var digits := Hex4(0xD800 + n / 0x400) + ("\\u" + low);
    Hex4RoundTrip(0xD800 + n / 0x400, "\\u" + low);
    Hex4RoundTrip(0xDC00 + n % 0x400, rest);
    assert digits[6..] == low && low[4..] == rest && digits[10..] == rest;
    assert ReadUnicode(digits) == Some((c, rest));
    UnicodeEscapeReads(digits, c, rest);
  }

  lemma UnicodeEscapeReads(digits: string, c: char, rest: string)
    requires ReadUnicode(digits) == Some((c, rest))
    ensures ReadChars("\\u" + digits) == Prepend(c, ReadChars(rest))
  {
    var s := "\\u" + digits;
    assert s[1..][1..] == digits && s[1..][0] == 'u';
  }

  /** Any other surrogate reads as the replacement character, and what follows it is read by itself, be it an escape or
      not. */
  lemma LoneSurrogate(n: int, rest: string)
    requires 0xD800 <= n < 0xE000
    requires IsHigh(n) && |rest| >= 2 && rest[..2] == "\\u" ==>
      var m := ReadHex4(rest[2..]);
      m == None || !IsLow(m.value)
    ensures ReadChars("\\u" + (Hex4(n) + rest)) == Prepend('\U{FFFD}', ReadChars(rest))
  {
    LoneUnicode(n, rest);
    UnicodeEscapeReads(Hex4(n) + rest, '\U{FFFD}', rest);
  }

  lemma LoneUnicode(n: int, rest: string)
    requires 0xD800 <= n < 0xE000
    requires IsHigh(n) && |rest| >= 2 && rest[..2] == "\\u" ==>
      var m := ReadHex4(rest[2..]);
      m == None || !IsLow(m.value)
    ensures ReadUnicode(Hex4(n) + rest) == Some(('\U{FFFD}', rest))
  {
    Hex4RoundTrip(n, rest);
    var digits := Hex4(n) + rest;
    assert digits[4..] == rest;
    if |rest| >= 2 {
      assert digits[4] == rest[0] && digits[5] == rest[1] && rest[..2] == [rest[0], rest[1]];
      assert digits[6..] == rest[2..];
    }
  }

  /** Control characters may not stand in a string as they are; every other character but the quote and the backslash
      stands for itself. */
  lemma PlainCharacters(c: char, rest: string)
    ensures c < ' ' ==> ReadChars([c] + rest) == None
    ensures c >= ' ' && c != '\"' && c != '\\' ==> ReadChars([c] + rest) == Prepend(c, ReadChars(rest))
  {
    assert ([c] + rest)[1..] == rest;
  }

  /** encoding/json writes such a character as it is unless it is unsafe inside HTML or a line separator, and leaves no
      unsafe one. */
  lemma PlainWhenSafe(c: char)
    ensures c >= ' ' && c !in {'\"', '\\', '<', '>', '&', '\U{2028}', '\U{2029}'} ==> EscapeChar(c) == [c]
    ensures forall x | x in EscapeChar(c) :: x !in {'<', '>', '&', '\U{2028}', '\U{2029}'}
  {
  }

  /** How the unsafe ones and the control characters are written. */
  lemma EscapesWritten()
    ensures EscapeChar('<') == "\\u003c" && EscapeChar('>') == "\\u003e" && EscapeChar('&') == "\\u0026"
    ensures EscapeChar('\U{2028}') == "\\u2028" && EscapeChar('\U{2029}') == "\\u2029"
    ensures EscapeChar('\U{0000}') == "\\u0000" && EscapeChar('\U{001F}') == "\\u001f"
    ensures EscapeChar('\"') == "\\\"" && EscapeChar('\\') == "\\\\" && EscapeChar('\n') == "\\n"
    ensures EscapeChar('\r') == "\\r" && EscapeChar('\t') == "\\t"
    ensures EscapeChar('\U{0008}') == "\\b" && EscapeChar('\U{000C}') == "\\f"
  {
  }

  // ---- Numbers (section 6) ----

  /** A number as it is spelled: an optional minus, the whole part, and where present a fraction and an exponent. */
  datatype Spelling = Spelling(negative: bool, whole: string, frac: Option<string>, exp: Option<(string, string)>)

  predicate Digits(s: string) { s != "" && forall i | 0 <= i < |s| :: IsDigit(s[i]) }

  /** Present or not, the exponent is a mark and digits. */
  predicate Marked(exp: Option<(string, string)>) {
    exp.Some? ==> exp.value.0 in {"e", "E", "e+", "E+", "e-", "E-"} && Digits(exp.value.1)
  }

  predicate Grammatical(n: Spelling) {
    && Digits(n.whole) && (|n.whole| > 1 ==> n.whole[0] != '0')
    && (n.frac.Some? ==> Digits(n.frac.value))
    && Marked(n.exp)
  }

  function ExpText(exp: Option<(string, string)>): string { if exp.Some? then exp.value.0 + exp.value.1 else "" }

  function FracText(frac: Option<string>): string { if frac.Some? then "." + frac.value else "" }

  function Text(n: Spelling): string {
    (if n.negative then "-" else "") + (n.whole + (FracText(n.frac) + ExpText(n.exp)))
  }

  lemma {:induction false} DigitRunStops(digits: string, rest: string)
    requires forall i | 0 <= i < |digits| :: IsDigit(digits[i])
    requires rest != "" ==> !IsDigit(rest[0])
    ensures DigitRun(digits + rest) == |digits|
  {
    if digits == "" {
      assert digits + rest == rest;
    } else {
      DigitRunStops(digits[1..], rest);
      assert (digits + rest)[1..] == digits[1..] + rest;
    }
  }

  function ExpValue(exp: Option<(string, string)>): int
    requires exp.Some? ==> Digits(exp.value.1)
  {
    match exp
    case None => 0
    case Some((mark, digits)) =>
      assert forall c | c in digits :: IsDigit(c);
      var magnitude: int := DigitsValue(digits);
      if mark in {"e-", "E-"} then -magnitude else magnitude
  }

  lemma ExponentReads(exp: Option<(string, string)>)
    requires Marked(exp)
    ensures ReadExponent(ExpText(exp)) == Some(ExpValue(exp))
  {
    if exp.Some? {
      var (mark, digits) := exp.value;
      var s := mark + digits;
      assert forall c | c in digits :: IsDigit(c);
      DigitRunAll(digits);
      if |mark| == 1 {
        assert s[1..] == digits && (|s| > 1 ==> s[1] == digits[0]);
      } else {
        assert s[2..] == digits && s[1] == mark[1];
      }
    }
  }

  lemma ExponentFirst(exp: Option<(string, string)>)
    requires Marked(exp)
    ensures ExpText(exp) != "" ==> ExpText(exp)[0] == 'e' || ExpText(exp)[0] == 'E'
  {
    if exp.Some? {
      assert (exp.value.0 + exp.value.1)[0] == exp.value.0[0];
    }
  }

  /** What follows the whole part. */
  ghost predicate ReadsAs(tail: string, frac: Option<string>, e: string) {
    && (tail != "" ==> !IsDigit(tail[0]))
    && if frac.Some? then
         && tail != "" && tail[0] == '.' && DigitRun(tail[1..]) == |frac.value|
         && tail[1..][..|frac.value|] == frac.value && tail[1..][|frac.value|..] == e
       else tail == e && (tail != "" ==> tail[0] != '.')
  }

  lemma FractionReads(digits: string, e: string)
    requires Digits(digits) && (e != "" ==> !IsDigit(e[0]))
    ensures ReadsAs("." + digits + e, Some(digits), e)
  {
    var tail := "." + digits + e;
    DigitRunStops(digits, e);
    assert tail[1..] == digits + e;
    CutJoin(digits, e);
  }

  lemma TailReads(frac: Option<string>, exp: Option<(string, string)>)
    requires (frac.Some? ==> Digits(frac.value)) && Marked(exp)
    ensures ReadsAs(FracText(frac) + ExpText(exp), frac, ExpText(exp))
  {
    ExponentFirst(exp);
    if frac.Some? {
      FractionReads(frac.value, ExpText(exp));
    } else {
      assert "" + ExpText(exp) == ExpText(exp);
    }
  }

  /** A grammatical number reads as the number that it spells. */
  lemma SpellingReads(n: Spelling)
    requires Grammatical(n)
    ensures ReadNumber(Text(n)) ==
            Some(Number(n.negative, n.whole, if n.frac.Some? then n.frac.value else "", ExpValue(n.exp)))
  {
    var lit, tail := Text(n), FracText(n.frac) + ExpText(n.exp);
    var s := n.whole + tail;
    TailReads(n.frac, n.exp);
    ExponentReads(n.exp);
    assert lit[0] == '-' <==> n.negative;
    assert (if n.negative then lit[1..] else lit) == s;
    DigitRunStops(n.whole, tail);
    WholeReads(lit, n.negative, n.whole, tail);
  }

  /** How reading goes on behind the whole part. */
  lemma WholeReads(lit: string, negative: bool, whole: string, tail: string)
    requires lit != "" && (lit[0] == '-' <==> negative) && (if negative then lit[1..] else lit) == whole + tail
    requires Digits(whole) && (|whole| > 1 ==> whole[0] != '0') && DigitRun(whole + tail) == |whole|
    ensures ReadNumber(lit) ==
            if tail != "" && tail[0] == '.' then
              var m := DigitRun(tail[1..]);
              if m == 0 || ReadExponent(tail[1..][m..]).None? then None
              else Some(Number(negative, whole, tail[1..][..m], ReadExponent(tail[1..][m..]).value))
            else if ReadExponent(tail).None? then None
            else Some(Number(negative, whole, "", ReadExponent(tail).value))
  {
    var s := whole + tail;
    assert s[..|whole|] == whole && s[|whole|..] == tail;
  }

  lemma ExponentSpelled(s: string) returns (exp: Option<(string, string)>)
    requires ReadExponent(s).Some?
    ensures ExpText(exp) == s
    ensures Marked(exp)
  {
    if s == "" {
      exp := None;
    } else {
      var signed := |s| > 1 && (s[1] == '-' || s[1] == '+');
      var k := if signed then 2 else 1;
      assert s[..1] == [s[0]] && (signed ==> s[..2] == [s[0], s[1]]);
      exp := Some((s[..k], s[k..]));
      assert s[..k] + s[k..] == s;
    }
  }

  lemma Rejoin(s: string, k: nat)
    requires k <= |s|
    ensures s[..k] + s[k..] == s
  {
  }

  lemma PointRejoin(after: string, m: nat)
    requires after != "" && after[0] == '.' && m < |after|
    ensures "." + after[1..][..m] + after[1..][m..] == after
  {
    Rejoin(after[1..], m);
    Associate(".", after[1..][..m], after[1..][m..]);
    assert "." + after[1..] == after;
  }

  lemma TailSpelled(after: string) returns (frac: Option<string>, exp: Option<(string, string)>)
    requires
      if after != "" && after[0] == '.' then
        DigitRun(after[1..]) > 0 && ReadExponent(after[1..][DigitRun(after[1..])..]).Some?
      else ReadExponent(after).Some?
    ensures FracText(frac) + ExpText(exp) == after && (frac.Some? ==> Digits(frac.value)) && Marked(exp)
  {
    if after != "" && after[0] == '.' {
      var m := DigitRun(after[1..]);
      exp := ExponentSpelled(after[1..][m..]);
      frac := Some(after[1..][..m]);
      PointRejoin(after, m);
    } else {
      exp := ExponentSpelled(after);
      frac := None;
      assert "" + after == after;
    }
  }

  lemma SignRejoin(lit: string, s: string)
    requires s == if lit != "" && lit[0] == '-' then lit[1..] else lit
    ensures (if lit != "" && lit[0] == '-' then "-" else "") + s == lit
  {
  }

  /** And what reads as a number is grammatical. */
  lemma NumberSpelled(lit: string) returns (n: Spelling)
    requires ReadNumber(lit).Some?
    ensures Grammatical(n) && Text(n) == lit
  {
    var negative := lit != "" && lit[0] == '-';
    var s := if negative then lit[1..] else lit;
    var k := DigitRun(s);
    var frac, exp := TailSpelled(s[k..]);
    n := Spelling(negative, s[..k], frac, exp);
    Rejoin(s, k);
    SignRejoin(lit, s);
  }

  /** The parser takes exactly the numbers of the grammar. */
  lemma NumberGrammar(lit: string)
    ensures ReadNumber(lit).Some? <==> exists n :: Grammatical(n) && Text(n) == lit
  {
    if ReadNumber(lit).Some? {
      var n := NumberSpelled(lit);
      assert Grammatical(n) && Text(n) == lit;
    }
    forall n | Grammatical(n) && Text(n) == lit
      ensures ReadNumber(lit).Some?
    {
      SpellingReads(n);
    }
  }

  // ---- Whole texts: nothing but JSON is read ----

  /** s spells v, without space around it. */
  ghost predicate Spelled(v: Json, s: string)
    decreases v, 2
  {
    match v
    case Null => s == "null"
    case Bool(b) => s == if b then "true" else "false"
    case Num(lit) => s == lit && IsNumber(lit)
    case Str(cs) => SpelledString(cs, s)
    case Arr(items) => s != "" && s[0] == '[' && SpelledArray(items, s[1..])
    case Obj(members) => s != "" && s[0] == '{' && SpelledObject(members, s[1..])
  }

  /** A quoted string, the closing quote included. */
  ghost predicate SpelledString(cs: string, s: string) {
    s != "" && s[0] == '\"' && exists rest :: ReadChars(s[1..] + rest) == Some((cs, rest))
  }

  /** An array behind its opening bracket: values with commas between them, and the closing bracket. */
  ghost predicate SpelledArray(items: Items, s: string)
    decreases items, 0
  {
    match items
    case NoItems => exists w :: Blank(w) && s == w + "]"
    case Item(head, tail) =>
      exists w, hs, ts :: Blank(w) && s == w + (hs + ts) && Spelled(head, hs) && SpelledItems(tail, ts)
  }

  ghost predicate SpelledItems(items: Items, s: string)
    decreases items, 1
  {
    if items.NoItems? then SpelledArray(items, s)
    else exists w, more :: Blank(w) && s == w + ("," + more) && SpelledArray(items, more)
  }

  /** An object behind its opening brace: members with commas between them, and the closing brace. */
  ghost predicate SpelledObject(members: Members, s: string)
    decreases members, 0
  {
    match members
    case NoMembers => exists w :: Blank(w) && s == w + "}"
    case Member(key, value, rest) =>
      exists w, ks, w2, w3, vs, ms ::
        && Blank(w) && Blank(w2) && Blank(w3)
        && s == w + (ks + (w2 + (":" + (w3 + (vs + ms)))))
        && SpelledString(key, ks) && Spelled(value, vs) && SpelledMembers(rest, ms)
  }

  ghost predicate SpelledMembers(members: Members, s: string)
    decreases members, 1
  {
    if members.NoMembers? then SpelledObject(members, s)
    else exists w, more :: Blank(w) && s == w + ("," + more) && SpelledObject(members, more)
  }

  lemma {:induction false} Leading(s: string) returns (w: string)
    ensures Blank(w) && s == w + SkipSpace(s)
  {
    if s != "" && IsSpace(s[0]) {
      var more := Leading(s[1..]);
      w := [s[0]] + more;
    } else {
      w := "";
    }
  }

  lemma Third(a: string, b: string, c: string)
    ensures a + (b + c) == (a + b) + c
  {
  }

  lemma UnicodeSuffix(s: string) returns (k: nat)
    requires ReadUnicode(s).Some?
    ensures k <= |s| && ReadUnicode(s).value.1 == s[k..]
  {
    k := if ReadUnicode(s).value.1 == s[4..] then 4 else 10;
  }

  lemma EscapeSuffix(s: string) returns (k: nat)
    requires ReadEscape(s).Some?
    ensures k <= |s| && ReadEscape(s).value.1 == s[k..]
  {
    if s[0] == 'u' {
      var j := UnicodeSuffix(s[1..]);
      k := j + 1;
    } else {
      k := 1;
    }
  }

  lemma {:induction false} CharsSuffix(s: string) returns (k: nat)
    requires ReadChars(s).Some?
    ensures k <= |s| && ReadChars(s).value.1 == s[k..]
    decreases |s|
  {
    if s[0] == '\"' {
      k := 1;
    } else {
      var after := if s[0] == '\\' then ReadEscape(s[1..]).value.1 else s[1..];
      var i := 1;
      if s[0] == '\\' {
        var j := EscapeSuffix(s[1..]);
        i := j + 1;
      }
      assert after == s[i..];
      var j := CharsSuffix(after);
      k := i + j;
    }
  }

  lemma StringSpelled(s: string) returns (spelled: string)
    requires s != "" && s[0] == '\"' && ReadChars(s[1..]).Some?
    ensures s == spelled + ReadChars(s[1..]).value.1 && SpelledString(ReadChars(s[1..]).value.0, spelled)
  {
    var (cs, rest) := ReadChars(s[1..]).value;
    var k := CharsSuffix(s[1..]);
    spelled := s[..k + 1];
    assert spelled[1..] + rest == s[1..];
  }

  lemma ScalarSpelled(s: string) returns (spelled: string)
    requires s != "" && ReadScalar(s).Some?
    ensures s == spelled + ReadScalar(s).value.1 && Spelled(ReadScalar(s).value.0, spelled)
  {
    if s[0] == '\"' {
      spelled := StringSpelled(s);
    } else if IsNumberChar(s[0]) {
      spelled := s[..NumberRun(s)];
    } else if Expect(s, "true").Some? {
      spelled := "true";
    } else if Expect(s, "false").Some? {
      spelled := "false";
    } else {
      spelled := "null";
    }
  }

  /** How a value was read, by its first character. */
  lemma ValueRead(text: string) returns (w: string, t: string)
    requires ReadValue(text).Some?
    ensures Blank(w) && text == w + t && t != "" && |t| <= |text|
    ensures ReadValue(text) == if t[0] == '[' then ReadArray(t[1..])
                               else if t[0] == '{' then ReadObject(t[1..])
                               else ReadScalar(t)
  {
    w := Leading(text);
    t := SkipSpace(text);
  }

  lemma Bracketed(v: Json, open: char, t: string, inside: string, rest: string) returns (s: string)
    requires t != "" && t[0] == open && t[1..] == inside + rest
    requires (open == '[' && v.Arr? && SpelledArray(v.items, inside))
             || (open == '{' && v.Obj? && SpelledObject(v.members, inside))
    ensures t == s + rest && Spelled(v, s)
  {
    s := [open] + inside;
    assert s[1..] == inside;
    assert t == [open] + t[1..];
    Third([open], inside, rest);
  }

  lemma {:induction false} ValueSpelled(text: string) returns (w: string, s: string)
    requires ReadValue(text).Some?
    ensures Blank(w) && text == w + (s + ReadValue(text).value.1) && Spelled(ReadValue(text).value.0, s)
    decreases |text|, 0
  {
    var t;
    w, t := ValueRead(text);
    var (v, rest) := ReadValue(text).value;
    if t[0] == '[' {
      var inside := ArraySpelled(t[1..]);
      s := Bracketed(v, '[', t, inside, rest);
    } else if t[0] == '{' {
      var inside := ObjectSpelled(t[1..]);
      s := Bracketed(v, '{', t, inside, rest);
    } else {
      s := ScalarSpelled(t);
    }
  }

  lemma ArrayParts(head: Json, tail: Items, w: string, hs: string, ts: string)
    requires Blank(w) && Spelled(head, hs) && SpelledItems(tail, ts)
    ensures SpelledArray(Item(head, tail), w + (hs + ts))
  {
  }

  lemma ArrayEnds(w: string)
    requires Blank(w)
    ensures SpelledArray(NoItems, w + "]") && SpelledItems(NoItems, w + "]")
    ensures SpelledObject(NoMembers, w + "}") && SpelledMembers(NoMembers, w + "}")
  {
  }

  lemma Four(a: string, b: string, c: string, d: string)
    ensures a + (b + (c + d)) == (a + (b + c)) + d
  {
    Third(b, c, d);
    Third(a, b + c, d);
  }

  /** How an array that is not empty was read. */
  lemma ArrayRead(text: string)
    requires ReadArray(text).Some? && ReadArray(text).value.0 != Arr(NoItems)
    ensures ReadValue(text).Some? && ReadItems(ReadValue(text).value.1).Some?
    ensures
      var (head, after) := ReadValue(text).value;
      ReadArray(text).value == (Arr(Item(head, ReadItems(after).value.0)), ReadItems(after).value.1)
  {
    var w := Leading(text);
    BlankBeforeTokens(w, SkipSpace(text));
  }

  lemma EmptyArrayRead(text: string) returns (w: string)
    requires ReadArray(text).Some? && ReadArray(text).value.0 == Arr(NoItems)
    ensures Blank(w) && text == (w + "]") + ReadArray(text).value.1
  {
    w := Leading(text);
    assert SkipSpace(text) == "]" + SkipSpace(text)[1..];
    Third(w, "]", SkipSpace(text)[1..]);
  }

  lemma {:induction false} ArraySpelled(text: string) returns (s: string)
    requires ReadArray(text).Some?
    ensures text == s + ReadArray(text).value.1
    ensures ReadArray(text).value.0.Arr? && SpelledArray(ReadArray(text).value.0.items, s)
    decreases |text|, 1
  {
    if ReadArray(text).value.0 == Arr(NoItems) {
      var w := EmptyArrayRead(text);
      ArrayEnds(w);
      s := w + "]";
    } else {
      ArrayRead(text);
      var (head, after) := ReadValue(text).value;
      var w, hs := ValueSpelled(text);
      var ts := ItemsSpelled(after);
      s := w + (hs + ts);
      ArrayParts(head, ReadItems(after).value.0, w, hs, ts);
      Four(w, hs, ts, ReadItems(after).value.1);
    }
  }

  lemma ItemsMore(items: Items, w: string, more: string)
    requires items.Item? && Blank(w) && SpelledArray(items, more)
    ensures SpelledItems(items, w + ("," + more))
  {
  }

  /** How the items behind the first one were read. */
  lemma ItemsRead(text: string) returns (w: string, t: string)
    requires ReadItems(text).Some?
    ensures Blank(w) && text == w + t && t == SkipSpace(text) && t != ""
    ensures t[0] == ']' ==> ReadItems(text).value == (NoItems, t[1..])
    ensures t[0] != ']' ==>
      && t[0] == ',' && ReadValue(t[1..]).Some? && ReadItems(ReadValue(t[1..]).value.1).Some?
      && var (head, after) := ReadValue(t[1..]).value;
         ReadItems(text).value == (Item(head, ReadItems(after).value.0), ReadItems(after).value.1)
  {
    w := Leading(text);
    t := SkipSpace(text);
  }

  lemma {:induction false} ItemsSpelled(text: string) returns (s: string)
    requires ReadItems(text).Some?
    ensures text == s + ReadItems(text).value.1 && SpelledItems(ReadItems(text).value.0, s)
    decreases |text|, 1
  {
    var w, t := ItemsRead(text);
    if t[0] == ']' {
      s := w + "]";
      ArrayEnds(w);
      assert t == "]" + t[1..];
      Third(w, "]", t[1..]);
    } else {
      var (head, after) := ReadValue(t[1..]).value;
      var w1, hs := ValueSpelled(t[1..]);
      var ts := ItemsSpelled(after);
      var more := w1 + (hs + ts);
      ArrayParts(head, ReadItems(after).value.0, w1, hs, ts);
      Four(w1, hs, ts, ReadItems(after).value.1);
      ItemsMore(ReadItems(text).value.0, w, more);
      s := w + ("," + more);
      assert t == "," + t[1..];
      Four(w, ",", more, ReadItems(after).value.1);
    }
  }

  lemma EmptyObjectRead(text: string) returns (w: string)
    requires ReadObject(text).Some? && ReadObject(text).value.0 == Obj(NoMembers)
    ensures Blank(w) && text == (w + "}") + ReadObject(text).value.1
  {
    w := Leading(text);
    assert SkipSpace(text) == "}" + SkipSpace(text)[1..];
    Third(w, "}", SkipSpace(text)[1..]);
  }

  lemma ObjectRead(text: string)
    requires ReadObject(text).Some? && ReadObject(text).value.0 != Obj(NoMembers)
    ensures ReadMember(text).Some?
    ensures ReadObject(text).value == (Obj(ReadMember(text).value.0), ReadMember(text).value.1)
  {
    var w := Leading(text);
    BlankBeforeTokens(w, SkipSpace(text));
  }

  lemma {:induction false} ObjectSpelled(text: string) returns (s: string)
    requires ReadObject(text).Some?
    ensures text == s + ReadObject(text).value.1
    ensures ReadObject(text).value.0.Obj? && SpelledObject(ReadObject(text).value.0.members, s)
    decreases |text|, 2
  {
    if ReadObject(text).value.0 == Obj(NoMembers) {
      var w := EmptyObjectRead(text);
      ArrayEnds(w);
      s := w + "}";
    } else {
      ObjectRead(text);
      s := MemberSpelled(text);
    }
  }

  lemma ObjectParts(key: string, value: Json, rest: Members, w: string, ks: string, w2: string, w3: string,
                    vs: string, ms: string)
    requires Blank(w) && Blank(w2) && Blank(w3)
    requires SpelledString(key, ks) && Spelled(value, vs) && SpelledMembers(rest, ms)
    ensures SpelledObject(Member(key, value, rest), w + (ks + (w2 + (":" + (w3 + (vs + ms))))))
  {
  }

  /** How a member was read: its key with the colon, and what follows the colon. */
  lemma MemberRead(text: string) returns (w: string, ks: string, w2: string, afterColon: string)
    requires ReadMember(text).Some?
    ensures |afterColon| < |text| && Blank(w) && Blank(w2) && text == w + (ks + (w2 + (":" + afterColon)))
    ensures ReadMember(text).value.0.Member? && SpelledString(ReadMember(text).value.0.key, ks)
    ensures ReadValue(afterColon).Some? && ReadMembers(ReadValue(afterColon).value.1).Some?
    ensures
      var (value, after) := ReadValue(afterColon).value;
      && ReadMember(text).value.0.value == value && ReadMember(text).value.0.rest == ReadMembers(after).value.0
      && ReadMember(text).value.1 == ReadMembers(after).value.1
  {
    w := Leading(text);
    var t := SkipSpace(text);
    var afterKey := ReadChars(t[1..]).value.1;
    ks := StringSpelled(t);
    w2 := Leading(afterKey);
    afterColon := Expect(SkipSpace(afterKey), ":").value;
    assert SkipSpace(afterKey) == ":" + afterColon;
  }

  lemma {:induction false} MemberSpelled(text: string) returns (s: string)
    requires ReadMember(text).Some?
    ensures text == s + ReadMember(text).value.1 && SpelledObject(ReadMember(text).value.0, s)
    decreases |text|, 1
  {
    var w, ks, w2, afterColon := MemberRead(text);
    var m := ReadMember(text).value.0;
    var after := ReadValue(afterColon).value.1;
    var w3, vs := ValueSpelled(afterColon);
    var ms := MembersSpelled(after);
    ObjectParts(m.key, m.value, m.rest, w, ks, w2, w3, vs, ms);
    s := w + (ks + (w2 + (":" + (w3 + (vs + ms)))));
    SevenParts(w, ks, w2, w3, vs, ms, ReadMembers(after).value.1);
  }

  lemma SevenParts(w: string, ks: string, w2: string, w3: string, vs: string, ms: string, rest: string)
    ensures w + (ks + (w2 + (":" + (w3 + (vs + (ms + rest)))))) ==
            (w + (ks + (w2 + (":" + (w3 + (vs + ms)))))) + rest
  {
    Third(vs, ms, rest);
    Third(w3, vs + ms, rest);
    Third(":", w3 + (vs + ms), rest);
    Third(w2, ":" + (w3 + (vs + ms)), rest);
    Third(ks, w2 + (":" + (w3 + (vs + ms))), rest);
    Third(w, ks + (w2 + (":" + (w3 + (vs + ms)))), rest);
  }

  lemma MembersMore(members: Members, w: string, more: string)
    requires members.Member? && Blank(w) && SpelledObject(members, more)
    ensures SpelledMembers(members, w + ("," + more))
  {
  }

  /** How the members behind the first one were read. */
  lemma MembersRead(text: string) returns (w: string, t: string, members: Members, rest: string)
    requires ReadMembers(text).Some?
    ensures ReadMembers(text).value == (members, rest)
    ensures Blank(w) && text == w + t && t != "" && |t| <= |text|
    ensures t[0] == '}' ==> members == NoMembers && rest == t[1..]
    ensures t[0] != '}' ==> t[0] == ',' && ReadMember(t[1..]) == Some((members, rest)) && members.Member?
  {
    w := Leading(text);
    t := SkipSpace(text);
    members, rest := ReadMembers(text).value.0, ReadMembers(text).value.1;
    if t[0] != '}' {
      MembersAreMember(t[1..]);
    }
  }

  lemma MembersAreMember(text: string)
    requires ReadMember(text).Some?
    ensures ReadMember(text).value.0.Member?
  {
  }

  lemma NoMore(w: string, t: string, rest: string)
    requires t != "" && t[0] == '}' && rest == t[1..]
    ensures w + t == (w + "}") + rest
  {
    assert t == "}" + rest;
    Third(w, "}", rest);
  }

  lemma OneMore(w: string, t: string, more: string, rest: string)
    requires t != "" && t[0] == ',' && t[1..] == more + rest
    ensures w + t == (w + ("," + more)) + rest
  {
    assert t == "," + (more + rest);
    Four(w, ",", more, rest);
  }

  lemma {:induction false} MembersSpelled(text: string) returns (s: string)
    requires ReadMembers(text).Some?
    ensures text == s + ReadMembers(text).value.1 && SpelledMembers(ReadMembers(text).value.0, s)
    decreases |text|, 2
  {
    var w, t, members, rest := MembersRead(text);
    if t[0] == '}' {
      s := w + "}";
      ArrayEnds(w);
      NoMore(w, t, rest);
    } else {
      var more := MemberSpelled(t[1..]);
      MembersMore(members, w, more);
      s := w + ("," + more);
      OneMore(w, t, more, rest);
    }
  }

  /** Whatever is read as v is a spelling of v with nothing but space around it. */
  lemma {:induction false} ParsedIsSpelled(text: string) returns (before: string, s: string, after: string)
    requires Parse(text).Some?
    ensures text == before + (s + after) && Blank(before) && Blank(after) && Spelled(Parse(text).value, s)
  {
    before, s := ValueSpelled(text);
    after := ReadValue(text).value.1;
    var w := Leading(after);
    assert w + "" == w;
  }

  // ---- Nesting ----

  function ItemSeq(items: Items): seq<Json> {
    match items case NoItems => [] case Item(head, tail) => [head] + ItemSeq(tail)
  }

  function ValueSeq(members: Members): seq<Json> {
    match members case NoMembers => [] case Member(_, value, rest) => [value] + ValueSeq(rest)
  }

  /** The values directly inside a value. */
  function Children(v: Json): seq<Json> {
    match v
    case Arr(items) => ItemSeq(items)
    case Obj(members) => ValueSeq(members)
    case _ => []
  }

  ghost predicate Deepest(vs: seq<Json>, depth: nat) {
    && (forall v | v in vs :: Depth(v) <= depth)
    && (if vs == [] then depth == 0 else exists v :: v in vs && Depth(v) == depth)
  }

  lemma {:induction false} ItemsDeepest(items: Items)
    ensures Deepest(ItemSeq(items), ItemsDepth(items))
  {
    if items.Item? {
      ItemsDeepest(items.tail);
      DeepestFront(items.head, ItemSeq(items.tail), ItemsDepth(items.tail));
    }
  }

  lemma {:induction false} ValuesDeepest(members: Members)
    ensures Deepest(ValueSeq(members), MembersDepth(members))
  {
    if members.Member? {
      ValuesDeepest(members.rest);
      DeepestFront(members.value, ValueSeq(members.rest), MembersDepth(members.rest));
    }
  }

  lemma DeepestFront(v: Json, vs: seq<Json>, depth: nat)
    requires Deepest(vs, depth)
    ensures Deepest([v] + vs, Max(Depth(v), depth))
  {
    var all := [v] + vs;
    if Depth(v) >= depth {
      assert v in all;
    } else {
      var u :| u in vs && Depth(u) == depth;
      assert u in all;
    }
  }

  /** Scalars are not nested; an array or an object is one level deeper than the deepest value inside it. */
  lemma DepthCounts(v: Json)
    ensures if v.Arr? || v.Obj? then Depth(v) >= 1 && Deepest(Children(v), Depth(v) - 1) else Depth(v) == 0
  {
    match v
    case Arr(items) => ItemsDeepest(items);
    case Obj(members) => ValuesDeepest(members);
    case _ =>
  }
}
