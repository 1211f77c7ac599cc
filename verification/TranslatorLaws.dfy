/** What the translation layer takes and what it makes of it, in terms of the decoded request: which requests the
    default translator refuses, which event results, and what is finally encoded. */
module TranslatorLaws {
  import opened Outcomes
  import opened JsonText
  import opened Translator

  /** The members of an object in the order of the text, duplicates included. */
  function Pairs(members: Members): seq<(string, Json)> {
    match members
    case NoMembers => []
    case Member(key, value, rest) => [(key, value)] + Pairs(rest)
  }

  // ---- Struct fields ----

  /** Member i is the last one that names the field with something other than null. */
  ghost predicate Decides(ps: seq<(string, Json)>, i: nat, field: string) {
    && i < |ps| && Names(ps[i].0, field) && !ps[i].1.Null?
    && forall j | i < j < |ps| && Names(ps[j].0, field) :: ps[j].1.Null?
  }

  /** Member i is the last one that names the field at all. */
  ghost predicate IsLast(ps: seq<(string, Json)>, i: nat, field: string) {
    i < |ps| && Names(ps[i].0, field) && forall j | i < j < |ps| :: !Names(ps[j].0, field)
  }

  ghost predicate OnlyNull(ps: seq<(string, Json)>, field: string) {
    forall p | p in ps && Names(p.0, field) :: p.1.Null?
  }

  ghost predicate OnlyStrings(ps: seq<(string, Json)>, field: string) {
    forall p | p in ps && Names(p.0, field) :: p.1.Null? || p.1.Str?
  }

  /** The integers of 64 bits with a sign. */
  predicate In64Bits(n: int) { -9_223_372_036_854_775_808 <= n <= 9_223_372_036_854_775_807 }

  /** The literal spells n; zero also has a negative spelling. */
  predicate Spells(lit: string, n: int) { lit == IntLiteral(n) || (n == 0 && lit == "-0") }

  ghost predicate OnlyInt64s(ps: seq<(string, Json)>, field: string) {
    forall p | p in ps && Names(p.0, field) :: p.1.Null? || (p.1.Num? && exists n :: In64Bits(n) && Spells(p.1.lit, n))
  }

  lemma ValueSnoc(front: string, d: char)
    requires (forall c | c in front :: IsDigit(c)) && IsDigit(d)
    ensures forall c | c in front + [d] :: IsDigit(c)
    ensures DigitsValue(front + [d]) == 10 * DigitsValue(front) + DigitValue(d)
  {
    assert (front + [d])[..|front|] == front;
  }

  lemma LiteralSnoc(v: nat, d: nat)
    requires v >= 1 && d < 10
    ensures NatLiteral(10 * v + d) == NatLiteral(v) + [Digit(d)]
  {
    assert (10 * v + d) / 10 == v && (10 * v + d) % 10 == d;
  }

  /** Digits without a leading zero are the literal of their value. */
  lemma {:induction false} LiteralOfValue(digits: string)
    requires digits != "" && (forall c | c in digits :: IsDigit(c)) && (|digits| > 1 ==> digits[0] != '0')
    ensures NatLiteral(DigitsValue(digits)) == digits
  {
    var front, d := digits[..|digits| - 1], digits[|digits| - 1];
    assert digits == front + [d] && d in digits && forall c | c in front :: c in digits;
    ValueSnoc(front, d);
    if front == "" {
      assert DigitsValue(front) == 0;
      assert digits == [d];
    } else {
      assert front[0] == digits[0];
      LiteralOfValue(front);
      NotZero(front);
      LiteralSnoc(DigitsValue(front), DigitValue(d));
    }
  }

  lemma NotZero(digits: string)
    requires digits != "" && digits[0] != '0' && forall c | c in digits :: IsDigit(c)
    requires NatLiteral(DigitsValue(digits)) == digits
    ensures DigitsValue(digits) >= 1
  {
    assert NatLiteral(0) == "0";
  }

  lemma IntegerLiteralParts(lit: string)
    requires IsIntegerLiteral(lit) && ReadNumber(lit).Some?
    ensures
      var n := ReadNumber(lit).value;
      lit == (if n.negative then "-" else "") + n.whole && (|n.whole| > 1 ==> n.whole[0] != '0')
  {
    var negative := lit != "" && lit[0] == '-';
    var s := if negative then lit[1..] else lit;
    var after := s[DigitRun(s)..];
    assert s[..DigitRun(s)] + after == s;
  }

  /** An int64 field takes exactly the spellings of the 64-bit integers, each as the integer it spells. */
  lemma {:induction false} Int64Literals(lit: string, n: int)
    ensures ReadInt64(lit) == Some(n) <==> In64Bits(n) && Spells(lit, n)
  {
    MinusZero();
    if IsInt64(n) {
      Int64RoundTrip(n);
    }
    if ReadInt64(lit) == Some(n) {
      IntegerLiteralParts(lit);
      LiteralOfValue(ReadNumber(lit).value.whole);
    }
  }

  lemma MinusZero()
    ensures ReadInt64("-0") == Some(0)
  {
    WholeNumberReads(true, "0");
    assert "-" + "0" == "-0";
    ValueSnoc("", '0');
    assert "" + ['0'] == "0";
  }

  lemma {:induction false} StringFieldTakes(ms: Members, field: string, soFar: string)
    ensures StringField(ms, field, soFar).Some? <==> OnlyStrings(Pairs(ms), field)
    ensures OnlyNull(Pairs(ms), field) ==> StringField(ms, field, soFar) == Some(soFar)
    decreases ms
  {
    if ms.Member? {
      PairsFront(ms);
      StringFieldTakes(ms.rest, field, soFar);
      if ms.value.Str? {
        StringFieldTakes(ms.rest, field, ms.value.s);
      }
    }
  }

  lemma PairsFront(ms: Members)
    requires ms.Member?
    ensures forall p :: p in Pairs(ms) <==> p == (ms.key, ms.value) || p in Pairs(ms.rest)
  {
  }

  lemma {:induction false} Int64FieldTakes(ms: Members, field: string, soFar: int)
    ensures Int64Field(ms, field, soFar).Some? <==> OnlyInt64s(Pairs(ms), field)
    ensures OnlyNull(Pairs(ms), field) ==> Int64Field(ms, field, soFar) == Some(soFar)
    decreases ms
  {
    if ms.Member? {
      PairsFront(ms);
      Int64FieldTakes(ms.rest, field, soFar);
      if ms.value.Num? {
        NumberTakes(ms.value.lit);
        if ReadInt64(ms.value.lit).Some? {
          Int64FieldTakes(ms.rest, field, ReadInt64(ms.value.lit).value);
        }
      }
    }
  }

  lemma NumberTakes(lit: string)
    ensures ReadInt64(lit).Some? <==> exists n :: In64Bits(n) && Spells(lit, n)
  {
    if ReadInt64(lit).Some? {
      Int64Literals(lit, ReadInt64(lit).value);
    }
    forall n | In64Bits(n) && Spells(lit, n)
      ensures ReadInt64(lit).Some?
    {
      Int64Literals(lit, n);
    }
  }

  /** A later member wins; null leaves the field as it is. */
  lemma {:induction false} StringFieldValue(ms: Members, field: string, soFar: string, i: nat)
    requires StringField(ms, field, soFar).Some? && Decides(Pairs(ms), i, field)
    ensures Pairs(ms)[i].1 == Str(StringField(ms, field, soFar).value)
    decreases ms
  {
    var ps, rest := Pairs(ms), Pairs(ms.rest);
    assert ps == [(ms.key, ms.value)] + rest;
    if i == 0 {
      StringFieldTakes(ms.rest, field, ms.value.s);
      forall p | p in rest && Names(p.0, field)
        ensures p.1.Null?
      {
        var j :| 0 <= j < |rest| && rest[j] == p;
        assert ps[j + 1] == p;
      }
    } else {
      DecidesLater(ps, rest, i, field);
      StringFieldValue(ms.rest, field, if Names(ms.key, field) && ms.value.Str? then ms.value.s else soFar, i - 1);
    }
  }

  lemma DecidesLater(ps: seq<(string, Json)>, rest: seq<(string, Json)>, i: nat, field: string)
    requires ps != [] && ps[1..] == rest && i > 0 && Decides(ps, i, field)
    ensures Decides(rest, i - 1, field)
  {
    forall j | i - 1 < j < |rest| && Names(rest[j].0, field)
      ensures rest[j].1.Null?
    {
      assert rest[j] == ps[j + 1];
    }
  }

  lemma {:induction false} Int64FieldValue(ms: Members, field: string, soFar: int, i: nat)
    requires Int64Field(ms, field, soFar).Some? && Decides(Pairs(ms), i, field)
    ensures Pairs(ms)[i].1.Num? && Spells(Pairs(ms)[i].1.lit, Int64Field(ms, field, soFar).value)
    decreases ms
  {
    var ps, rest := Pairs(ms), Pairs(ms.rest);
    assert ps == [(ms.key, ms.value)] + rest;
    if i == 0 {
      var n := ReadInt64(ms.value.lit).value;
      Int64Literals(ms.value.lit, n);
      Int64FieldTakes(ms.rest, field, n);
      forall p | p in rest && Names(p.0, field)
        ensures p.1.Null?
      {
        var j :| 0 <= j < |rest| && rest[j] == p;
        assert ps[j + 1] == p;
      }
    } else {
      DecidesLater(ps, rest, i, field);
      var next := if Names(ms.key, field) && ms.value.Num? then ReadInt64(ms.value.lit).value else soFar;
      Int64FieldValue(ms.rest, field, next, i - 1);
    }
  }

  /** A raw field takes the last member that names it, null included. */
  lemma {:induction false} RawFieldValue(ms: Members, field: string)
    ensures RawField(ms, field).None? <==> forall p | p in Pairs(ms) :: !Names(p.0, field)
    ensures forall i: nat | IsLast(Pairs(ms), i, field) :: RawField(ms, field) == Some(Pairs(ms)[i].1)
  {
    if ms.Member? {
      var ps, rest := Pairs(ms), Pairs(ms.rest);
      PairsFront(ms);
      RawFieldValue(ms.rest, field);
      forall i: nat | IsLast(ps, i, field)
        ensures RawField(ms, field) == Some(ps[i].1)
      {
        if i > 0 {
          LastLater(ps, rest, i, field);
        } else {
          LastIsFirst(ps, rest, field);
        }
      }
    }
  }

  lemma LastLater(ps: seq<(string, Json)>, rest: seq<(string, Json)>, i: nat, field: string)
    requires ps != [] && ps[1..] == rest && i > 0 && IsLast(ps, i, field)
    ensures IsLast(rest, i - 1, field) && rest[i - 1] == ps[i]
  {
    forall j | i - 1 < j < |rest|
      ensures !Names(rest[j].0, field)
    {
      assert rest[j] == ps[j + 1];
    }
  }

  lemma LastIsFirst(ps: seq<(string, Json)>, rest: seq<(string, Json)>, field: string)
    requires ps != [] && ps[1..] == rest && IsLast(ps, 0, field)
    ensures forall p | p in rest :: !Names(p.0, field)
  {
    forall p | p in rest
      ensures !Names(p.0, field)
    {
      var j :| 0 <= j < |rest| && rest[j] == p;
      assert ps[j + 1] == p;
    }
  }

  /** Member i is the last one with this very key. */
  ghost predicate IsLastKey(ps: seq<(string, Json)>, i: nat, key: string) {
    i < |ps| && ps[i].0 == key && forall j | i < j < |ps| :: ps[j].0 != key
  }

  /** A generic map has the last member with a key, and the key exactly as it is spelled. */
  lemma {:induction false} LastValueMeans(ms: Members, key: string)
    ensures LastValue(ms, key).None? <==> forall p | p in Pairs(ms) :: p.0 != key
    ensures forall i: nat | IsLastKey(Pairs(ms), i, key) :: LastValue(ms, key) == Some(Pairs(ms)[i].1)
  {
    if ms.Member? {
      var ps, rest := Pairs(ms), Pairs(ms.rest);
      PairsFront(ms);
      LastValueMeans(ms.rest, key);
      forall i: nat | IsLastKey(ps, i, key)
        ensures LastValue(ms, key) == Some(ps[i].1)
      {
        if i > 0 {
          KeyLater(ps, rest, i, key);
        } else {
          KeyFirst(ps, rest, key);
        }
      }
    }
  }

  lemma KeyLater(ps: seq<(string, Json)>, rest: seq<(string, Json)>, i: nat, key: string)
    requires ps != [] && ps[1..] == rest && i > 0 && IsLastKey(ps, i, key)
    ensures IsLastKey(rest, i - 1, key) && rest[i - 1] == ps[i]
  {
    forall j | i - 1 < j < |rest|
      ensures rest[j].0 != key
    {
      assert rest[j] == ps[j + 1];
    }
  }

  lemma KeyFirst(ps: seq<(string, Json)>, rest: seq<(string, Json)>, key: string)
    requires ps != [] && ps[1..] == rest && IsLastKey(ps, 0, key)
    ensures forall p | p in rest :: p.0 != key
  {
    forall p | p in rest
      ensures p.0 != key
    {
      var j :| 0 <= j < |rest| && rest[j] == p;
      assert ps[j + 1] == p;
    }
  }

  // ---- The default translator ----

  /** The members that the default translator looks at. */
  function Envelope(top: Json): seq<(string, Json)> { if top.Obj? then Pairs(top.members) else [] }

  /** The default translator takes exactly the texts that decode to null or to an object in which every member that
      names the event type is null or a string, and every one that names the timestamp null or a 64-bit integer. */
  lemma {:induction false} PassthroughTakes(source: string, raw: string, stamp: Stamp)
    ensures Passthrough(source, raw, stamp).Some? <==>
      && Unmarshal(raw).Some? && (Unmarshal(raw).value.Null? || Unmarshal(raw).value.Obj?)
      && OnlyStrings(Envelope(Unmarshal(raw).value), "event_type")
      && OnlyInt64s(Envelope(Unmarshal(raw).value), "timestamp_ms")
  {
    if Unmarshal(raw).Some? && Unmarshal(raw).value.Obj? {
      StringFieldTakes(Unmarshal(raw).value.members, "event_type", "");
      Int64FieldTakes(Unmarshal(raw).value.members, "timestamp_ms", 0);
    }
  }

  /** The event that it makes: the last event type that is not null, or the empty one; the last timestamp that is not
      null, or the clock where there is none or it is zero; the last body, or the whole request where there is none. */
  lemma {:induction false} PassthroughMakes(source: string, raw: string, stamp: Stamp)
    requires Passthrough(source, raw, stamp).Some?
    ensures
      var e, ps := Passthrough(source, raw, stamp).value, Envelope(Unmarshal(raw).value);
      && e.id == "" && e.source == source && e.receivedAt == stamp.receivedAt
      && (OnlyNull(ps, "event_type") ==> e.eventType == "")
      && (forall i: nat | Decides(ps, i, "event_type") :: ps[i].1 == Str(e.eventType))
      && (OnlyNull(ps, "timestamp_ms") ==> e.timestampMs == stamp.nowMs)
      && (forall i: nat | Decides(ps, i, "timestamp_ms") ::
            ps[i].1.Num? && if Spells(ps[i].1.lit, 0) then e.timestampMs == stamp.nowMs
                            else Spells(ps[i].1.lit, e.timestampMs))
      && ((forall p | p in ps :: !Names(p.0, "body")) ==> e.body == Window(0, |raw|))
      && (forall i: nat | IsLast(ps, i, "body") :: e.body == Copied(Print(ps[i].1)))
  {
    var top := Unmarshal(raw).value;
    if top.Obj? {
      EventTypeMade(source, raw, stamp, top.members);
      TimestampMade(source, raw, stamp, top.members);
      RawFieldValue(top.members, "body");
    }
  }

  lemma EventTypeMade(source: string, raw: string, stamp: Stamp, ms: Members)
    requires Passthrough(source, raw, stamp).Some? && Unmarshal(raw) == Some(Obj(ms))
    ensures
      var e := Passthrough(source, raw, stamp).value;
      && (OnlyNull(Pairs(ms), "event_type") ==> e.eventType == "")
      && (forall i: nat | Decides(Pairs(ms), i, "event_type") :: Pairs(ms)[i].1 == Str(e.eventType))
  {
    StringFieldTakes(ms, "event_type", "");
    forall i: nat | Decides(Pairs(ms), i, "event_type") {
      StringFieldValue(ms, "event_type", "", i);
    }
  }

  lemma TimestampMade(source: string, raw: string, stamp: Stamp, ms: Members)
    requires Passthrough(source, raw, stamp).Some? && Unmarshal(raw) == Some(Obj(ms))
    ensures
      var e := Passthrough(source, raw, stamp).value;
      && (OnlyNull(Pairs(ms), "timestamp_ms") ==> e.timestampMs == stamp.nowMs)
      && (forall i: nat | Decides(Pairs(ms), i, "timestamp_ms") ::
            Pairs(ms)[i].1.Num? && if Spells(Pairs(ms)[i].1.lit, 0) then e.timestampMs == stamp.nowMs
                                   else Spells(Pairs(ms)[i].1.lit, e.timestampMs))
  {
    Int64FieldTakes(ms, "timestamp_ms", 0);
    forall i: nat | Decides(Pairs(ms), i, "timestamp_ms")
      ensures Pairs(ms)[i].1.Num?
      ensures if Spells(Pairs(ms)[i].1.lit, 0) then Passthrough(source, raw, stamp).value.timestampMs == stamp.nowMs
              else Spells(Pairs(ms)[i].1.lit, Passthrough(source, raw, stamp).value.timestampMs)
    {
      Int64FieldValue(ms, "timestamp_ms", 0, i);
      var lit, n := Pairs(ms)[i].1.lit, Int64Field(ms, "timestamp_ms", 0).value;
      if Spells(lit, 0) {
        SpelledOnce(lit, n, 0);
      }
    }
  }

  /** A literal spells one integer. */
  lemma SpelledOnce(lit: string, m: int, n: int)
    requires IsInt64(m) && IsInt64(n) && Spells(lit, m) && Spells(lit, n)
    ensures m == n
  {
    Int64Literals(lit, m);
    Int64Literals(lit, n);
  }

  /** Keys are compared up to case, with the two letters beyond ASCII that fold into it, and not further. */
  lemma KeyExamples()
    ensures Names("Event_TYPE", "event_type") && Names("time\U{017F}tamp_m\U{017F}", "timestamp_ms")
    ensures !Names("event-type", "event_type") && !Names("eventtype", "event_type")
    ensures !Names("event_typ3", "event_type")
  {
    assert Folded("event-type"[5]) != Folded("event_type"[5]);
    assert Folded("event_typ3"[9]) != Folded("event_type"[9]);
  }

  // ---- Preparing a payload ----

  /** The JSON value of a body: null for none, the text's own, or that of the window of the input. */
  ghost predicate BodyIs(body: Body, raw: string, value: Option<Json>) {
    match body
    case Absent => value == Some(Null)
    case Copied(text) => value == Unmarshal(text)
    case Window(lo, hi) => lo <= hi <= |raw| ==> value == Unmarshal(raw[lo..hi])
  }

  /** The six members of an encoded event, in order. */
  ghost predicate EncodesAs(data: string, id: string, e: Event, body: Json) {
    && Parse(data).Some? && Parse(data).value.Obj?
    && Pairs(Parse(data).value.members) ==
       [("id", Str(id)), ("source", Str(e.source)), ("event_type", Str(e.eventType)),
        ("timestamp_ms", Num(IntLiteral(e.timestampMs))), ("received_at", Str(e.receivedAt)), ("body", body)]
  }

  lemma NullDecodes()
    ensures Unmarshal("null") == Some(Null)
  {
    UnmarshalOfPrint(Null);
  }

  lemma EventPairs(e: Event, body: Json)
    ensures Pairs(EventJson(e, body).members) ==
            [("id", Str(e.id)), ("source", Str(e.source)), ("event_type", Str(e.eventType)),
             ("timestamp_ms", Num(IntLiteral(e.timestampMs))), ("received_at", Str(e.receivedAt)), ("body", body)]
  {
    var m6 := NoMembers;
    var m5 := Member("body", body, m6);
    var m4 := Member("received_at", Str(e.receivedAt), m5);
    var m3 := Member("timestamp_ms", Num(IntLiteral(e.timestampMs)), m4);
    var m2 := Member("event_type", Str(e.eventType), m3);
    var m1 := Member("source", Str(e.source), m2);
    assert Pairs(m5) == [("body", body)] + Pairs(m6);
    assert Pairs(m4) == [("received_at", Str(e.receivedAt))] + Pairs(m5);
    assert Pairs(m3) == [("timestamp_ms", Num(IntLiteral(e.timestampMs)))] + Pairs(m4);
    assert Pairs(m2) == [("event_type", Str(e.eventType))] + Pairs(m3);
    assert Pairs(m1) == [("source", Str(e.source))] + Pairs(m2);
  }

  /** What the registered translator, or the default one, makes of the input. */
  function Made(translators: map<string, Inbound>, source: string, raw: string, stamp: Stamp): Option<Event> {
    if source in translators then translators[source](source, raw, stamp) else Passthrough(source, raw, stamp)
  }

  /** An input is untranslatable if its translator refuses it, unmarshalable if the event's body is not a JSON text, and
      otherwise encoded: the event as the translator made it, with the fresh identifier only where it had none. */
  lemma {:induction false} PrepareOutcome(translators: map<string, Inbound>, source: string, raw: string, stamp: Stamp)
    returns (body: Option<Json>)
    ensures
      match Made(translators, source, raw, stamp)
      case None => Prepare(translators, source, raw, stamp) == Untranslatable
      case Some(e) =>
        && BodyIs(e.body, raw, body)
        && match body
           case None => Prepare(translators, source, raw, stamp) == Unmarshalable
           case Some(value) =>
             && Prepare(translators, source, raw, stamp).Ready?
             && Prepare(translators, source, raw, stamp).id == (if e.id == "" then stamp.id else e.id)
             && EncodesAs(Prepare(translators, source, raw, stamp).data,
                          Prepare(translators, source, raw, stamp).id, e, value)
  {
    body := None;
    var made := Made(translators, source, raw, stamp);
    if made.Some? {
      var e := Identified(made.value, stamp);
      body := Unmarshal(BodyText(e.body, raw));
      NullDecodes();
      if body.Some? {
        EventJsonWellFormed(e, body.value);
        ParseOfPrint(EventJson(e, body.value));
        EventPairs(e, body.value);
      }
    }
  }
}
