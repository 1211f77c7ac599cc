/** The two validators of the handler chain, over encoded events. */
module Validation {
  import opened Outcomes
  import opened JsonText
  import opened Float64
  import opened JsonLaws
  import opened Translator
  import opened TranslatorLaws
  import opened HandlerChain

  // ---- Decoding into a map ----

  /** Every number in the value converts to float64. */
  predicate NumbersFit(v: Json) {
    match v
    case Num(lit) => Fits(lit)
    case Arr(items) => ItemsFit(items)
    case Obj(members) => MembersFit(members)
    case _ => true
  }

  predicate ItemsFit(items: Items) {
    match items
    case NoItems => true
    case Item(head, tail) => NumbersFit(head) && ItemsFit(tail)
  }

  predicate MembersFit(members: Members) {
    match members
    case NoMembers => true
    case Member(_, value, rest) => NumbersFit(value) && MembersFit(rest)
  }

  /** A value fits if it is not a literal that overflows and all values directly inside it fit. */
  lemma NumbersFitMeans(v: Json)
    ensures NumbersFit(v) <==> (v.Num? ==> Fits(v.lit)) && forall u | u in Children(v) :: NumbersFit(u)
  {
    match v
    case Arr(items) => ItemsFitMeans(items);
    case Obj(members) => MembersFitMeans(members);
    case _ =>
  }

  lemma FrontFits(v: Json, vs: seq<Json>)
    ensures (forall u | u in [v] + vs :: NumbersFit(u)) <==> NumbersFit(v) && forall u | u in vs :: NumbersFit(u)
  {
    assert forall u :: u in [v] + vs <==> u == v || u in vs;
    assert v in [v] + vs;
  }

  lemma {:induction false} ItemsFitMeans(items: Items)
    ensures ItemsFit(items) <==> forall u | u in ItemSeq(items) :: NumbersFit(u)
  {
    if items.Item? {
      ItemsFitMeans(items.tail);
      FrontFits(items.head, ItemSeq(items.tail));
    }
  }

  lemma {:induction false} MembersFitMeans(members: Members)
    ensures MembersFit(members) <==> forall u | u in ValueSeq(members) :: NumbersFit(u)
  {
    if members.Member? {
      MembersFitMeans(members.rest);
      FrontFits(members.value, ValueSeq(members.rest));
    }
  }

  /** Decoding into a generic map: null leaves the map empty, other non-objects are errors,
      and so is any number, however deep, that float64 cannot hold, and any text nested too deeply. */
  function DecodeMap(data: string): Option<Members> {
    var v :- Unmarshal(data);
    match v
    case Null => Some(NoMembers)
    case Obj(members) => if MembersFit(members) then Some(members) else None
    case _ => None
  }

  // ---- The validators ----

  const REQUIRED := ["id", "source", "event_type", "timestamp_ms"]
  const STRINGS := ["id", "source", "event_type"]

  /** Present, not null, not an empty string, not a zero. */
  predicate Filled(members: Members, key: string) {
    match LastValue(members, key)
    case None => false
    case Some(Null) => false
    case Some(Str(s)) => s != ""
    case Some(Num(lit)) => !IsZero(lit)
    case Some(_) => true
  }

  /** Any value under the last member with this key will do, but null, the empty string and zero. */
  lemma FilledMeans(members: Members, key: string)
    ensures (forall p | p in Pairs(members) :: p.0 != key) ==> !Filled(members, key)
    ensures forall i: nat | IsLastKey(Pairs(members), i, key) ::
              var v := Pairs(members)[i].1;
              Filled(members, key) <==> v != Null && v != Str("") && !(v.Num? && IsZero(v.lit))
  {
    LastValueMeans(members, key);
  }

  /** Absent or a string. */
  predicate StringIfPresent(members: Members, key: string) {
    LastValue(members, key).Some? ==> LastValue(members, key).value.Str?
  }

  predicate NumberIfPresent(members: Members, key: string) {
    LastValue(members, key).Some? ==> LastValue(members, key).value.Num?
  }

  predicate SchemaAccepts(data: string) {
    DecodeMap(data).Some? && forall key | key in REQUIRED :: Filled(DecodeMap(data).value, key)
  }

  predicate TypesAccept(data: string) {
    && DecodeMap(data).Some?
    && (forall key | key in STRINGS :: StringIfPresent(DecodeMap(data).value, key))
    && NumberIfPresent(DecodeMap(data).value, "timestamp_ms")
  }

  method SchemaValidator(data: string) returns (ok: bool)
    ensures ok <==> SchemaAccepts(data)
  {
    var decoded := DecodeMap(data);
    if decoded.None? {
      return false;
    }
    for i := 0 to |REQUIRED|
      invariant forall j | 0 <= j < i :: Filled(decoded.value, REQUIRED[j])
    {
      if !Filled(decoded.value, REQUIRED[i]) {
        return false;
      }
    }
    return true;
  }

  method TypeChecker(data: string) returns (ok: bool)
    ensures ok <==> TypesAccept(data)
  {
    var decoded := DecodeMap(data);
    if decoded.None? {
      return false;
    }
    for i := 0 to |STRINGS|
      invariant forall j | 0 <= j < i :: StringIfPresent(decoded.value, STRINGS[j])
    {
      if !StringIfPresent(decoded.value, STRINGS[i]) {
        return false;
      }
    }
    return NumberIfPresent(decoded.value, "timestamp_ms");
  }

  /** As handlers, the two validators keep no state and do not look at the source. */
  function SchemaHandler<S>(): Handler<S> {
    (s: S, source: string, data: string) => (if SchemaAccepts(data) then Ok else Err, s)
  }

  function TypeHandler<S>(): Handler<S> {
    (s: S, source: string, data: string) => (if TypesAccept(data) then Ok else Err, s)
  }

  /** What the chain of the two answers. */
  function Validated(data: string): Verdict { RunHandlers([SchemaHandler(), TypeHandler()], (), "", data).0 }

  predicate NonEmptyString(members: Members, key: string) {
    match LastValue(members, key)
    case Some(Str(s)) => s != ""
    case _ => false
  }

  predicate NonZeroNumber(members: Members, key: string) {
    match LastValue(members, key)
    case Some(Num(lit)) => !IsZero(lit)
    case _ => false
  }

  /** What validation is for: the canonical fields are there with the right types. */
  predicate Canonical(data: string) {
    && DecodeMap(data).Some?
    && var members := DecodeMap(data).value;
       && NonEmptyString(members, "id")
       && NonEmptyString(members, "source")
       && NonEmptyString(members, "event_type")
       && NonZeroNumber(members, "timestamp_ms")
  }

  lemma RunTwo<S>(a: Handler<S>, b: Handler<S>, s: S, source: string, data: string)
    ensures
      var (v, t) := a(s, source, data);
      RunHandlers([a, b], s, source, data) == if v != Ok then (v, t) else b(t, source, data)
  {
    assert [a, b][0] == a && [a, b][1..] == [b];
    assert [b][0] == b && [b][1..] == [];
    var t := a(s, source, data).1;
    assert RunHandlers([b], t, source, data) == b(t, source, data);
  }

  lemma RequiredKeys(ms: Members)
    ensures (forall key | key in REQUIRED :: Filled(ms, key)) <==>
            Filled(ms, "id") && Filled(ms, "source") && Filled(ms, "event_type") && Filled(ms, "timestamp_ms")
  {
    assert REQUIRED[0] in REQUIRED && REQUIRED[1] in REQUIRED && REQUIRED[2] in REQUIRED && REQUIRED[3] in REQUIRED;
  }

  lemma StringKeys(ms: Members)
    ensures (forall key | key in STRINGS :: StringIfPresent(ms, key)) <==>
            StringIfPresent(ms, "id") && StringIfPresent(ms, "source") && StringIfPresent(ms, "event_type")
  {
    assert STRINGS[0] in STRINGS && STRINGS[1] in STRINGS && STRINGS[2] in STRINGS;
  }

  /** Neither validator alone does it, but both together accept exactly the canonical texts, in either order. */
  lemma ValidatorsAcceptCanonical<S>(s: S, source: string, data: string)
    ensures RunHandlers([SchemaHandler(), TypeHandler()], s, source, data) == (if Canonical(data) then Ok else Err, s)
    ensures RunHandlers([TypeHandler(), SchemaHandler()], s, source, data) == (if Canonical(data) then Ok else Err, s)
  {
    RunTwo(SchemaHandler(), TypeHandler(), s, source, data);
    RunTwo(TypeHandler(), SchemaHandler(), s, source, data);
    if DecodeMap(data).Some? {
      RequiredKeys(DecodeMap(data).value);
      StringKeys(DecodeMap(data).value);
    }
  }

  // ---- Translation meets validation ----

  function AsMembers(v: Json): Members
    requires v.Obj?
  {
    v.members
  }

  lemma EventFields(e: Event, body: Json)
    ensures
      var ms := AsMembers(EventJson(e, body));
      && LastValue(ms, "id") == Some(Str(e.id))
      && LastValue(ms, "source") == Some(Str(e.source))
      && LastValue(ms, "event_type") == Some(Str(e.eventType))
      && LastValue(ms, "timestamp_ms") == Some(Num(IntLiteral(e.timestampMs)))
  {
    var m5 := Member("body", body, NoMembers);
    var m4 := Member("received_at", Str(e.receivedAt), m5);
    var m3 := Member("timestamp_ms", Num(IntLiteral(e.timestampMs)), m4);
    var m2 := Member("event_type", Str(e.eventType), m3);
    var m1 := Member("source", Str(e.source), m2);
    Front("body", body, NoMembers);
    Front("received_at", Str(e.receivedAt), m5);
    Front("timestamp_ms", Num(IntLiteral(e.timestampMs)), m4);
    Front("event_type", Str(e.eventType), m3);
    Front("source", Str(e.source), m2);
    Front("id", Str(e.id), m1);
  }

  /** How one member in front changes every lookup. */
  lemma Front(key: string, value: Json, rest: Members)
    ensures forall k :: LastValue(Member(key, value, rest), k) ==
                        if LastValue(rest, k).Some? then LastValue(rest, k)
                        else if k == key then Some(value) else None
  {
  }

  lemma FitsFront(key: string, value: Json, rest: Members)
    ensures MembersFit(Member(key, value, rest)) <==> NumbersFit(value) && MembersFit(rest)
  {
  }

  lemma EventNumbersFit(e: Event, body: Json)
    requires IsInt64(e.timestampMs)
    ensures MembersFit(AsMembers(EventJson(e, body))) <==> NumbersFit(body)
  {
    IntegersConvert(e.timestampMs);
    var m5 := Member("body", body, NoMembers);
    var m4 := Member("received_at", Str(e.receivedAt), m5);
    var m3 := Member("timestamp_ms", Num(IntLiteral(e.timestampMs)), m4);
    var m2 := Member("event_type", Str(e.eventType), m3);
    var m1 := Member("source", Str(e.source), m2);
    assert MembersFit(NoMembers);
    FitsFront("body", body, NoMembers);
    FitsFront("received_at", Str(e.receivedAt), m5);
    FitsFront("timestamp_ms", Num(IntLiteral(e.timestampMs)), m4);
    FitsFront("event_type", Str(e.eventType), m3);
    FitsFront("source", Str(e.source), m2);
    FitsFront("id", Str(e.id), m1);
  }

  lemma EncodedEventCanonical(e: Event, body: Json, data: string)
    requires WellFormed(body) && IsInt64(e.timestampMs) && Parse(data) == Some(EventJson(e, body))
    ensures Canonical(data) <==>
      && e.id != "" && e.source != "" && e.eventType != "" && e.timestampMs != 0
      && NumbersFit(body) && Depth(body) < MAX_DEPTH
  {
    var members := AsMembers(EventJson(e, body));
    EventDepth(e, body);
    EventFields(e, body);
    EventNumbersFit(e, body);
    IntegersConvert(e.timestampMs);
    assert DecodeMap(data) == if Depth(body) < MAX_DEPTH && MembersFit(members) then Some(members) else None;
    assert NonEmptyString(members, "id") <==> e.id != "";
    assert NonEmptyString(members, "source") <==> e.source != "";
    assert NonEmptyString(members, "event_type") <==> e.eventType != "";
    assert NonZeroNumber(members, "timestamp_ms") <==> e.timestampMs != 0;
  }

  /** Once identified and encoded, a Passthrough event with a non-zero clock is accepted exactly when its source
      and event type are non-empty, no number in its body overflows float64, and its body is not nested as deeply as
      the request was allowed to be. The last two can be checked on the request; nothing before the validators looks
      at the numbers, and before them the body is decoded and encoded without the event around it. */
  lemma PassthroughMeetsValidation(source: string, raw: string, stamp: Stamp)
    requires Passthrough(source, raw, stamp).Some?
    requires stamp.id != "" && IsInt64(stamp.nowMs) && stamp.nowMs != 0
    ensures
      var e := Identified(Passthrough(source, raw, stamp).value, stamp);
      && Marshal(e, raw).Some?
      && BodyValue(raw).Some?
      && (Validated(Marshal(e, raw).value) == Ok <==>
            && source != "" && e.eventType != ""
            && NumbersFit(BodyValue(raw).value) && Depth(BodyValue(raw).value) < MAX_DEPTH)
  {
    var e := Identified(Passthrough(source, raw, stamp).value, stamp);
    PassthroughEncodes(source, raw, stamp);
    var data := Marshal(e, raw).value;
    EncodedEventCanonical(e, BodyValue(raw).value, data);
    ValidatorsAcceptCanonical((), "", data);
  }

  /** A request that shows the last condition at work. */
  function HugeNumberRequest(): string {
    Print(Obj(Member("event_type", Str("metric"), Member("body", Num("1e400"), NoMembers))))
  }

  lemma HugeNumberRequestParses()
    ensures Parse(HugeNumberRequest()) ==
            Some(Obj(Member("event_type", Str("metric"), Member("body", Num("1e400"), NoMembers))))
  {
    HugeLiteral();
    var body := Member("body", Num("1e400"), NoMembers);
    assert WellFormedMembers(body);
    ParseOfPrint(Obj(Member("event_type", Str("metric"), body)));
  }

  lemma HugeNumberTranslates(raw: string, stamp: Stamp)
    requires Parse(raw) == Some(Obj(Member("event_type", Str("metric"), Member("body", Num("1e400"), NoMembers))))
    ensures Passthrough("sensor", raw, stamp).Some?
    ensures Passthrough("sensor", raw, stamp).value.eventType == "metric"
    ensures BodyValue(raw) == Some(Num("1e400"))
  {
    var body := Member("body", Num("1e400"), NoMembers);
    var all := Member("event_type", Str("metric"), body);
    assert Int64Field(body, "timestamp_ms", 0) == Some(0);
    assert Int64Field(all, "timestamp_ms", 0) == Some(0);
    assert StringField(body, "event_type", "metric") == Some("metric");
    assert StringField(all, "event_type", "") == Some("metric");
    assert RawField(body, "body") == Some(Num("1e400"));
    assert RawField(all, "body") == Some(Num("1e400"));
  }

  /** Well-formed JSON with a source and an event type, translated without an error, and yet rejected. */
  lemma {:induction false} ValidEventRejected(stamp: Stamp)
    requires stamp.id != "" && IsInt64(stamp.nowMs) && stamp.nowMs != 0
    ensures
      var r := Passthrough("sensor", HugeNumberRequest(), stamp);
      && r.Some? && r.value.eventType == "metric"
      && var encoded := Marshal(Identified(r.value, stamp), HugeNumberRequest());
         && encoded.Some?
         && Validated(encoded.value) == Err
  {
    HugeLiteral();
    HugeNumberRequestParses();
    HugeNumberRejected(HugeNumberRequest(), stamp);
  }

  lemma HugeNumberRejected(raw: string, stamp: Stamp)
    requires Parse(raw) == Some(Obj(Member("event_type", Str("metric"), Member("body", Num("1e400"), NoMembers))))
    requires stamp.id != "" && IsInt64(stamp.nowMs) && stamp.nowMs != 0
    ensures
      var r := Passthrough("sensor", raw, stamp);
      && r.Some? && r.value.eventType == "metric"
      && var encoded := Marshal(Identified(r.value, stamp), raw);
         && encoded.Some?
         && Validated(encoded.value) == Err
  {
    HugeLiteral();
    HugeNumberTranslates(raw, stamp);
    PassthroughMeetsValidation("sensor", raw, stamp);
    ValidatorsAcceptCanonical((), "", Marshal(Identified(Passthrough("sensor", raw, stamp).value, stamp), raw).value);
  }

  // ---- A deep request ----

  function Nest(n: nat): Json { if n == 0 then Null else Arr(Item(Nest(n - 1), NoItems)) }

  /** Type, and n arrays inside one another in a member of its own: no "body", so the whole request becomes the body. */
  function DeepMembers(n: nat): Members { Member("event_type", Str("m"), Member("x", Nest(n), NoMembers)) }

  function DeepRequest(n: nat): string { Print(Obj(DeepMembers(n))) }

  lemma {:induction false} NestFacts(n: nat)
    ensures WellFormed(Nest(n)) && NumbersFit(Nest(n)) && Depth(Nest(n)) == n
  {
    if n > 0 {
      NestFacts(n - 1);
    }
  }

  lemma DeepMembersFacts(n: nat)
    ensures
      var v := Obj(DeepMembers(n));
      && WellFormed(v) && NumbersFit(v) && Depth(v) == n + 1
      && StringField(DeepMembers(n), "event_type", "") == Some("m")
      && Int64Field(DeepMembers(n), "timestamp_ms", 0) == Some(0)
      && RawField(DeepMembers(n), "body") == None
  {
    NestFacts(n);
    var inner := Member("x", Nest(n), NoMembers);
    DepthFront("x", Nest(n), NoMembers);
    DepthFront("event_type", Str("m"), inner);
    assert WellFormedMembers(inner) && MembersFit(inner);
    assert StringField(inner, "event_type", "m") == Some("m");
    assert Int64Field(inner, "timestamp_ms", 0) == Some(0);
    assert RawField(inner, "body") == None;
  }

  /** With n arrays, the request is translated and encoded if and only if n < 10000, and of those the validators
      accept all but the deepest. */
  lemma {:induction false} DeepRequestOutcome(n: nat, stamp: Stamp)
    requires stamp.id != "" && IsInt64(stamp.nowMs) && stamp.nowMs != 0
    ensures
      var r := Passthrough("sensor", DeepRequest(n), stamp);
      && (r.Some? <==> n < 10000)
      && (r.Some? ==>
            var encoded := Marshal(Identified(r.value, stamp), DeepRequest(n));
            && r.value.eventType == "m" && encoded.Some?
            && Validated(encoded.value) == if n + 1 < 10000 then Ok else Err)
  {
    var v, raw := Obj(DeepMembers(n)), DeepRequest(n);
    DeepMembersFacts(n);
    UnmarshalOfPrint(v);
    if n < MAX_DEPTH {
      PassthroughMeetsValidation("sensor", raw, stamp);
      assert BodyValue(raw) == Some(v);
      ValidatorsAcceptCanonical((), "", Marshal(Identified(Passthrough("sensor", raw, stamp).value, stamp), raw).value);
    }
  }

  /** Accepted by the ingest path, rejected by the validators: one level short of what a text may have. */
  lemma DeepEventRejected(n: nat, stamp: Stamp)
    requires n == 9999 && stamp.id != "" && IsInt64(stamp.nowMs) && stamp.nowMs != 0
    ensures
      var r := Passthrough("sensor", DeepRequest(n), stamp);
      && r.Some? && r.value.eventType == "m"
      && var encoded := Marshal(Identified(r.value, stamp), DeepRequest(n));
         && encoded.Some?
         && Validated(encoded.value) == Err
  {
    DeepRequestOutcome(n, stamp);
  }
}
