/** The anti-corruption layer: from the raw bytes of a source to the canonical event, and the event's encoding. */
module Translator {
  import opened Outcomes
  import opened JsonText

  /** What the environment contributes to one event: a fresh identifier and clock readings. */
  datatype Stamp = Stamp(id: string, nowMs: int, receivedAt: string)

  /** Where an event's body lives: nowhere, in memory of its own, or in a window of the raw input. */
  datatype Body = Absent | Copied(text: string) | Window(lo: nat, hi: nat)

  datatype Event = Event(
    id: string, source: string, eventType: string, timestampMs: int, receivedAt: string, body: Body)

  /** An inbound translator; it may answer with an event that still points into its input. */
  type Inbound = (string, string, Stamp) -> Option<Event>

  // ---- Decoding into a struct ----

  predicate IsIntegerLiteral(lit: string) { forall c | c in lit :: IsDigit(c) || c == '-' }

  predicate IsInt64(n: int) { -0x8000_0000_0000_0000 <= n < 0x8000_0000_0000_0000 }

  /** A number literal as an int64 field takes it: fractions, exponents and larger values are type errors. */
  function ReadInt64(lit: string): (r: Option<int>)
    ensures r.Some? ==> IsInt64(r.value)
  {
    var n :- ReadNumber(lit);
    assert forall c | c in n.whole :: c in n.whole + n.frac;
    var size: int := DigitsValue(n.whole);
    var value := if n.negative then -size else size;
    if IsIntegerLiteral(lit) && IsInt64(value) then Some(value) else None
  }

  /** Upper case; the long s and the Kelvin sign are the two letters beyond ASCII that fold into it. */
  function Folded(c: char): char {
    if 'a' <= c <= 'z' then (c as int - 32) as char
    else if c == '\U{017F}' then 'S'
    else if c == '\U{212A}' then 'K'
    else c
  }

  /** A struct field takes the members whose key is its name up to case. */
  predicate Names(key: string, field: string) {
    |key| == |field| && forall i | 0 <= i < |key| :: Folded(key[i]) == Folded(field[i])
  }

  /** A string field after all members that name it: null leaves it as it is, any other non-string is an error. */
  function StringField(members: Members, key: string, soFar: string): Option<string> {
    match members
    case NoMembers => Some(soFar)
    case Member(k, v, rest) =>
      if !Names(k, key) || v.Null? then StringField(rest, key, soFar)
      else if v.Str? then StringField(rest, key, v.s)
      else None
  }

  function Int64Field(members: Members, key: string, soFar: int): (r: Option<int>)
    ensures IsInt64(soFar) && r.Some? ==> IsInt64(r.value)
  {
    match members
    case NoMembers => Some(soFar)
    case Member(k, v, rest) =>
      if !Names(k, key) || v.Null? then Int64Field(rest, key, soFar)
      else if v.Num? then
        var n :- ReadInt64(v.lit);
        Int64Field(rest, key, n)
      else None
  }

  /** The value that a raw field ends up with: that of the last member that names it. */
  function RawField(members: Members, field: string): (r: Option<Json>)
    ensures r.Some? ==> (WellFormedMembers(members) ==> WellFormed(r.value)) && Depth(r.value) <= MembersDepth(members)
  {
    match members
    case NoMembers => None
    case Member(k, v, rest) =>
      var later := RawField(rest, field);
      if later.Some? then later else if Names(k, field) then Some(v) else None
  }

  /** The value under a key of a generic map: that of the last member with this very key. */
  function LastValue(members: Members, key: string): Option<Json> {
    match members
    case NoMembers => None
    case Member(k, v, rest) =>
      var later := LastValue(rest, key);
      if later.Some? then later else if k == key then Some(v) else None
  }

  /** The default translator. The decoder copies an explicit body, so only a missing one aliases the input. */
  function Passthrough(source: string, raw: string, stamp: Stamp): (r: Option<Event>)
    ensures r.Some? ==> r.value.source == source && r.value.id == ""
    ensures r.Some? && IsInt64(stamp.nowMs) ==> IsInt64(r.value.timestampMs)
  {
    var top :- Unmarshal(raw);
    var members :- match top {
      case Null => Some(NoMembers)
      case Obj(ms) => Some(ms)
      case _ => None
    };
    var eventType :- StringField(members, "event_type", "");
    var given :- Int64Field(members, "timestamp_ms", 0);
    var timestamp := if given == 0 then stamp.nowMs else given;
    var body := match RawField(members, "body") {
      case Some(v) => Copied(Print(v))
      case None => Window(0, |raw|)
    };
    Some(Event("", source, eventType, timestamp, stamp.receivedAt, body))
  }

  // ---- The registry ----

  function Select(translators: map<string, Inbound>, source: string): Inbound {
    if source in translators then translators[source] else Passthrough
  }

  class Registry {
    var translators: map<string, Inbound>

    constructor ()
      ensures translators == map[]
    {
      translators := map[];
    }

    method Register(source: string, t: Inbound)
      modifies this
      ensures translators == old(translators)[source := t]
    {
      translators := translators[source := t];
    }

    method Translate(source: string, raw: string, stamp: Stamp) returns (r: Option<Event>)
      ensures source in translators ==> r == translators[source](source, raw, stamp)
      ensures source !in translators ==> r == Passthrough(source, raw, stamp)
    {
      var t: Inbound := Passthrough;
      if source in translators {
        t := translators[source];
      }
      r := t(source, raw, stamp);
    }
  }

  // ---- Encoding ----

  /** The text that the body denotes, given the bytes it may point into. */
  function BodyText(body: Body, raw: string): string {
    match body
    case Absent => "null"
    case Copied(text) => text
    case Window(lo, hi) => if lo <= hi <= |raw| then raw[lo..hi] else ""
  }

  function EventJson(e: Event, body: Json): Json {
    Obj(Member("id", Str(e.id),
        Member("source", Str(e.source),
        Member("event_type", Str(e.eventType),
        Member("timestamp_ms", Num(IntLiteral(e.timestampMs)),
        Member("received_at", Str(e.receivedAt),
        Member("body", body, NoMembers)))))))
  }

  /** Encoding fails exactly when the body is not a JSON text that the encoder takes. It is the body's nesting that is
      limited; the event's own pair of brackets goes uncounted. */
  function Marshal(e: Event, raw: string): Option<string> {
    var body :- Unmarshal(BodyText(e.body, raw));
    Some(Print(EventJson(e, body)))
  }

  /** The caller assigns the identifier when the translator has left it empty. */
  function Identified(e: Event, stamp: Stamp): Event { if e.id == "" then e.(id := stamp.id) else e }

  datatype Prepared = Untranslatable | Unmarshalable | Ready(id: string, data: string)

  /** Translate, identify, encode: what both ingestors do before they submit. */
  function Prepare(translators: map<string, Inbound>, source: string, raw: string, stamp: Stamp): Prepared {
    match Select(translators, source)(source, raw, stamp)
    case None => Untranslatable
    case Some(e) =>
      match Marshal(Identified(e, stamp), raw)
      case None => Unmarshalable
      case Some(data) => Ready(Identified(e, stamp).id, data)
  }

  /** The body of a Passthrough event: the explicit one, or else the whole input. */
  function BodyValue(raw: string): Option<Json> {
    var top :- Unmarshal(raw);
    match top
    case Obj(members) => if RawField(members, "body").Some? then RawField(members, "body") else Some(top)
    case _ => Some(top)
  }

  lemma EventJsonWellFormed(e: Event, body: Json)
    requires WellFormed(body)
    ensures WellFormed(EventJson(e, body))
  {
    IntLiteralReads(e.timestampMs);
    var m5 := Member("body", body, NoMembers);
    var m4 := Member("received_at", Str(e.receivedAt), m5);
    var m3 := Member("timestamp_ms", Num(IntLiteral(e.timestampMs)), m4);
    var m2 := Member("event_type", Str(e.eventType), m3);
    var m1 := Member("source", Str(e.source), m2);
    assert WellFormedMembers(NoMembers);
    OneMore("body", body, NoMembers);
    OneMore("received_at", Str(e.receivedAt), m5);
    OneMore("timestamp_ms", Num(IntLiteral(e.timestampMs)), m4);
    OneMore("event_type", Str(e.eventType), m3);
    OneMore("source", Str(e.source), m2);
    OneMore("id", Str(e.id), m1);
  }

  lemma OneMore(key: string, value: Json, rest: Members)
    requires WellFormed(value) && WellFormedMembers(rest)
    ensures WellFormedMembers(Member(key, value, rest))
  {
  }

  lemma DepthFront(key: string, value: Json, rest: Members)
    ensures MembersDepth(Member(key, value, rest)) == Max(Depth(value), MembersDepth(rest))
    ensures !value.Arr? && !value.Obj? ==> Depth(value) == 0
    ensures MembersDepth(NoMembers) == 0
  {
  }

  lemma EventDepth(e: Event, body: Json)
    ensures Depth(EventJson(e, body)) == 1 + Depth(body)
  {
    var m5 := Member("body", body, NoMembers);
    var m4 := Member("received_at", Str(e.receivedAt), m5);
    var m3 := Member("timestamp_ms", Num(IntLiteral(e.timestampMs)), m4);
    var m2 := Member("event_type", Str(e.eventType), m3);
    var m1 := Member("source", Str(e.source), m2);
    DepthFront("body", body, NoMembers);
    DepthFront("received_at", Str(e.receivedAt), m5);
    DepthFront("timestamp_ms", Num(IntLiteral(e.timestampMs)), m4);
    DepthFront("event_type", Str(e.eventType), m3);
    DepthFront("source", Str(e.source), m2);
    DepthFront("id", Str(e.id), m1);
  }

  /** A Passthrough event is always encodable. Its encoding is a JSON text that reads back as the event, but decoders
      take it if and only if the body leaves room for one more level of nesting. */
  lemma {:induction false} PassthroughEncodes(source: string, raw: string, stamp: Stamp)
    requires Passthrough(source, raw, stamp).Some?
    ensures
      var e := Identified(Passthrough(source, raw, stamp).value, stamp);
      && BodyValue(raw).Some?
      && Marshal(e, raw).Some?
      && var body := BodyValue(raw).value;
         && Parse(Marshal(e, raw).value) == Some(EventJson(e, body))
         && Unmarshal(Marshal(e, raw).value) == if Depth(body) < MAX_DEPTH then Some(EventJson(e, body)) else None
  {
    var e := Identified(Passthrough(source, raw, stamp).value, stamp);
    var v := BodyValue(raw).value;
    assert raw[0..|raw|] == raw;
    UnmarshalOfPrint(v);
    assert Unmarshal(BodyText(e.body, raw)) == Some(v);
    EventJsonWellFormed(e, v);
    EventDepth(e, v);
    ParseOfPrint(EventJson(e, v));
  }

  /** An int64 field reads back what the encoder wrote. */
  lemma Int64RoundTrip(n: int)
    requires IsInt64(n)
    ensures ReadInt64(IntLiteral(n)) == Some(n)
  {
    IntLiteralReads(n);
    IntLiteralIsInteger(n);
    NatLiteralValue(if n < 0 then -n else n);
  }

  lemma IntLiteralIsInteger(n: int)
    ensures IsIntegerLiteral(IntLiteral(n))
  {
  }

  /** An event that is already canonical passes through with its type, timestamp and body unchanged;
      only a zero timestamp is replaced, by the clock. Identity and source are the ingestor's. The one exception is a
      body that uses up all the nesting there is: then the event is not even decoded. */
  lemma CanonicalSurvives(e: Event, body: Json, source: string, stamp: Stamp)
    requires WellFormed(body) && IsInt64(e.timestampMs)
    ensures
      Passthrough(source, Print(EventJson(e, body)), stamp) ==
      if Depth(body) < MAX_DEPTH then
        Some(Event("", source, e.eventType, if e.timestampMs == 0 then stamp.nowMs else e.timestampMs,
                   stamp.receivedAt, Copied(Print(body))))
      else None
  {
    EventJsonWellFormed(e, body);
    EventDepth(e, body);
    UnmarshalOfPrint(EventJson(e, body));
    EventStruct(e, body);
  }

  lemma EventStruct(e: Event, body: Json)
    requires IsInt64(e.timestampMs)
    ensures
      var members := EventJson(e, body).members;
      && StringField(members, "event_type", "") == Some(e.eventType)
      && Int64Field(members, "timestamp_ms", 0) == Some(e.timestampMs)
      && RawField(members, "body") == Some(body)
  {
    Int64RoundTrip(e.timestampMs);
    var m5 := Member("body", body, NoMembers);
    var m4 := Member("received_at", Str(e.receivedAt), m5);
    var m3 := Member("timestamp_ms", Num(IntLiteral(e.timestampMs)), m4);
    var m2 := Member("event_type", Str(e.eventType), m3);
    var m1 := Member("source", Str(e.source), m2);
    Skips("body", body, NoMembers);
    Skips("received_at", Str(e.receivedAt), m5);
    Skips("timestamp_ms", Num(IntLiteral(e.timestampMs)), m4);
    Skips("event_type", Str(e.eventType), m3);
    Skips("source", Str(e.source), m2);
    Skips("id", Str(e.id), m1);
    assert RawField(m5, "body") == Some(body);
    assert StringField(m2, "event_type", "") == StringField(m3, "event_type", e.eventType);
    assert Int64Field(m3, "timestamp_ms", 0) == Int64Field(m4, "timestamp_ms", e.timestampMs);
  }

  /** A member in front is invisible to the fields that it does not name. */
  lemma Skips(key: string, value: Json, rest: Members)
    ensures forall k, soFar | !Names(key, k) ::
              StringField(Member(key, value, rest), k, soFar) == StringField(rest, k, soFar)
    ensures forall k, soFar | !Names(key, k) ::
              Int64Field(Member(key, value, rest), k, soFar) == Int64Field(rest, k, soFar)
    ensures forall k | !Names(key, k) :: RawField(Member(key, value, rest), k) == RawField(rest, k)
  {
  }
}
