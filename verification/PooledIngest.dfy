/** The HTTP ingest handler over pooled buffers: any number of handlers run step by step, in any order, over shared
    memory. A translated event may point into the pooled bytes until it is encoded. */
module PooledIngest {
  import opened Outcomes
  import opened JsonText
  import opened Translator
  import opened TranslatorLaws

  // ---- Memory ----

  /** A pooled object: its slice is the first `len` elements of a backing array. */
  datatype Payload = Payload(source: string, arr: nat, len: nat)

  /** Backing arrays by address (a string as long as the capacity), pooled objects by address, the pool,
      and the next unused address. */
  datatype Memory = Memory(arrays: map<nat, string>, payloads: map<nat, Payload>, pool: set<nat>, next: nat)

  const CAPACITY := 4096

  // ---- Handlers ----

  datatype Request = Request(source: string, body: string, stamp: Stamp)

  datatype Status = BadRequest | Unprocessable | ServerError | TooManyRequests | Accepted(id: string)

  /** Program counter and live variables of one handler. */
  datatype Pc =
    | Start
    | Holds(p: nat)                                    // got a buffer
    | Filling(p: nat, copied: nat)                     // `append` runs
    | Failed(p: nat)                                   // translation failed; the buffer is due back
    | Translated(p: nat, arr: nat, length: nat, e: Event) // e.body may be a window of the slice arr[..length]
    | Encoded(p: nat, id: string, result: Option<string>) // e is gone; the buffer is due back
    | Submitting(id: string, data: string)
    | Counting(id: string)                             // the channel took it; it is not counted as ingested yet
    | Done(status: Status)

  datatype Session = Session(req: Request, pc: Pc)

  datatype State = State(mem: Memory, sessions: map<nat, Session>, submitted: seq<(nat, string)>)

  /** `backing` is whatever a freshly allocated array happens to contain. */
  datatype Action =
    | Arrive(h: nat, req: Request)
    | RejectEmpty(h: nat)
    | GetPooled(h: nat, p: nat)
    | GetNew(h: nat, backing: string)
    | Grow(h: nat, backing: string)
    | BeginCopy(h: nat)
    | CopyOne(h: nat)
    | Translate(h: nat)
    | Encode(h: nat)
    | PutBack(h: nat)
    | Submit(h: nat, accepted: bool)
    | Count(h: nat)
    | Evict(p: nat)

  function Init(): State { State(Memory(map[], map[], {}, 0), map[], []) }

  // Reading and writing memory; an address that is not in use reads as empty.

  function ObjectAt(m: Memory, p: nat): Payload { if p in m.payloads then m.payloads[p] else Payload("", 0, 0) }

  function ArrayAt(m: Memory, a: nat): string { if a in m.arrays then m.arrays[a] else "" }

  function Slice(s: string, n: nat): string { if n <= |s| then s[..n] else s }

  function Put1(s: string, i: nat, c: char): string { if i < |s| then s[i := c] else s }

  /** The bytes of a pooled object's slice. */
  function Bytes(m: Memory, p: nat): string { Slice(ArrayAt(m, ObjectAt(m, p).arr), ObjectAt(m, p).len) }

  /** A body of this length fits behind what the slice already holds. */
  predicate Fits(m: Memory, p: nat, length: nat) { ObjectAt(m, p).len + length <= |ArrayAt(m, ObjectAt(m, p).arr)| }

  // ---- Steps ----

  predicate HasBuffer(pc: Pc) { pc.Holds? || pc.Filling? || pc.Failed? || pc.Translated? || pc.Encoded? }

  predicate Enabled(s: State, a: Action) {
    match a
    case Arrive(h, _) => h !in s.sessions
    case RejectEmpty(h) => h in s.sessions && s.sessions[h].pc.Start? && s.sessions[h].req.body == ""
    case GetPooled(h, p) =>
      h in s.sessions && s.sessions[h].pc.Start? && s.sessions[h].req.body != "" && p in s.mem.pool
    case GetNew(h, backing) =>
      h in s.sessions && s.sessions[h].pc.Start? && s.sessions[h].req.body != "" && |backing| == CAPACITY
    case Grow(h, backing) =>
      && h in s.sessions && s.sessions[h].pc.Holds?
      && !Fits(s.mem, s.sessions[h].pc.p, |s.sessions[h].req.body|)
      && |backing| >= |Bytes(s.mem, s.sessions[h].pc.p)| + |s.sessions[h].req.body|
    case BeginCopy(h) =>
      h in s.sessions && s.sessions[h].pc.Holds? && Fits(s.mem, s.sessions[h].pc.p, |s.sessions[h].req.body|)
    case CopyOne(h) =>
      h in s.sessions && s.sessions[h].pc.Filling? && s.sessions[h].pc.copied < |s.sessions[h].req.body|
    case Translate(h) =>
      h in s.sessions && s.sessions[h].pc.Filling? && s.sessions[h].pc.copied == |s.sessions[h].req.body|
    case Encode(h) => h in s.sessions && s.sessions[h].pc.Translated?
    case PutBack(h) => h in s.sessions && (s.sessions[h].pc.Failed? || s.sessions[h].pc.Encoded?)
    case Submit(h, _) => h in s.sessions && s.sessions[h].pc.Submitting?
    case Count(h) => h in s.sessions && s.sessions[h].pc.Counting?
    case Evict(p) => p in s.mem.pool
  }

  function Goto(s: State, h: nat, m: Memory, pc: Pc): State
    requires h in s.sessions
  {
    s.(mem := m, sessions := s.sessions[h := Session(s.sessions[h].req, pc)])
  }

  function Taken(m: Memory, p: nat): Memory { m.(pool := m.pool - {p}) }

  function Allocated(m: Memory, backing: string): Memory {
    Memory(m.arrays[m.next := backing], m.payloads[m.next + 1 := Payload("", m.next, 0)], m.pool, m.next + 2)
  }

  /** Reallocation by `append`: the bytes move to a larger array. */
  function Grown(m: Memory, p: nat, backing: string): Memory {
    var kept := Bytes(m, p);
    var larger := if |kept| <= |backing| then kept + backing[|kept|..] else kept;
    m.(arrays := m.arrays[m.next := larger],
       payloads := m.payloads[p := ObjectAt(m, p).(arr := m.next)], next := m.next + 1)
  }

  function Written(m: Memory, p: nat, i: nat, c: char): Memory {
    var o := ObjectAt(m, p);
    m.(arrays := m.arrays[o.arr := Put1(ArrayAt(m, o.arr), o.len + i, c)])
  }

  function Extended(m: Memory, p: nat, length: nat): Memory {
    var o := ObjectAt(m, p);
    m.(payloads := m.payloads[p := o.(len := o.len + length)])
  }

  /** `Put`: the source is cleared and the slice cut to length zero, array kept. */
  function Returned(m: Memory, p: nat): Memory {
    m.(payloads := m.payloads[p := Payload("", ObjectAt(m, p).arr, 0)], pool := m.pool + {p})
  }

  function Evicted(m: Memory, p: nat): Memory { m.(payloads := m.payloads - {p}, pool := m.pool - {p}) }

  /** The bytes that a translated event may point into, as they are now. */
  function RawOf(m: Memory, pc: Pc): string
    requires pc.Translated?
  {
    Slice(ArrayAt(m, pc.arr), pc.length)
  }

  function AfterTranslate(translators: map<string, Inbound>, req: Request, m: Memory, p: nat): Pc {
    match Select(translators, req.source)(req.source, Bytes(m, p), req.stamp)
    case None => Failed(p)
    case Some(e) => Translated(p, ObjectAt(m, p).arr, ObjectAt(m, p).len, Identified(e, req.stamp))
  }

  function AfterPut(pc: Pc): Pc
    requires pc.Failed? || pc.Encoded?
  {
    if pc.Failed? then Done(Unprocessable)
    else if pc.result.None? then Done(ServerError)
    else Submitting(pc.id, pc.result.value)
  }

  function Next(translators: map<string, Inbound>, s: State, a: Action): State
    requires Enabled(s, a)
  {
    match a
    case Arrive(h, req) => s.(sessions := s.sessions[h := Session(req, Start)])
    case RejectEmpty(h) => Goto(s, h, s.mem, Done(BadRequest))
    case GetPooled(h, p) => Goto(s, h, Taken(s.mem, p), Holds(p))
    case GetNew(h, backing) => Goto(s, h, Allocated(s.mem, backing), Holds(s.mem.next + 1))
    case Grow(h, backing) => Goto(s, h, Grown(s.mem, s.sessions[h].pc.p, backing), s.sessions[h].pc)
    case BeginCopy(h) => Goto(s, h, s.mem, Filling(s.sessions[h].pc.p, 0))
    case CopyOne(h) =>
      var Filling(p, k) := s.sessions[h].pc;
      Goto(s, h, Written(s.mem, p, k, s.sessions[h].req.body[k]), Filling(p, k + 1))
    case Translate(h) =>
      var m := Extended(s.mem, s.sessions[h].pc.p, |s.sessions[h].req.body|);
      Goto(s, h, m, AfterTranslate(translators, s.sessions[h].req, m, s.sessions[h].pc.p))
    case Encode(h) =>
      var pc := s.sessions[h].pc;
      Goto(s, h, s.mem, Encoded(pc.p, pc.e.id, Marshal(pc.e, RawOf(s.mem, pc))))
    case PutBack(h) => Goto(s, h, Returned(s.mem, s.sessions[h].pc.p), AfterPut(s.sessions[h].pc))
    case Submit(h, accepted) =>
      var Submitting(id, data) := s.sessions[h].pc;
      if accepted then Goto(s, h, s.mem, Counting(id)).(submitted := s.submitted + [(h, data)])
      else Goto(s, h, s.mem, Done(TooManyRequests))
    case Count(h) => Goto(s, h, s.mem, Done(Accepted(s.sessions[h].pc.id)))
    case Evict(p) => s.(mem := Evicted(s.mem, p))
  }

  ghost predicate IsRun(translators: map<string, Inbound>, acts: seq<Action>)
    decreases |acts|, 0
  {
    acts != [] ==>
      && IsRun(translators, acts[..|acts| - 1])
      && Enabled(Exec(translators, acts[..|acts| - 1]), acts[|acts| - 1])
  }

  ghost function Exec(translators: map<string, Inbound>, acts: seq<Action>): State
    requires IsRun(translators, acts)
    decreases |acts|, 1
  {
    if acts == [] then Init()
    else Next(translators, Exec(translators, acts[..|acts| - 1]), acts[|acts| - 1])
  }

  // ---- The reference: a fresh buffer per request ----

  datatype Outcome = Answers(status: Status) | Submits(id: string, data: string)

  /** What the handler does with memory of its own: a function of the request alone. */
  function Fresh(translators: map<string, Inbound>, req: Request): Outcome {
    if req.body == "" then Answers(BadRequest)
    else
      match Prepare(translators, req.source, req.body, req.stamp)
      case Untranslatable => Answers(Unprocessable)
      case Unmarshalable => Answers(ServerError)
      case Ready(id, data) => Submits(id, data)
  }

  /** What a request comes to: refused when empty, when its translator refuses it, when the event cannot be encoded; or
      its event is submitted under the identifier that the answer carries. */
  lemma {:induction false} FreshOutcome(translators: map<string, Inbound>, req: Request) returns (body: Option<Json>)
    ensures req.body == "" ==> Fresh(translators, req) == Answers(BadRequest)
    ensures req.body != "" ==>
      match Made(translators, req.source, req.body, req.stamp)
      case None => Fresh(translators, req) == Answers(Unprocessable)
      case Some(e) =>
        && BodyIs(e.body, req.body, body)
        && match body
           case None => Fresh(translators, req) == Answers(ServerError)
           case Some(value) =>
             && Fresh(translators, req).Submits?
             && Fresh(translators, req).id == (if e.id == "" then req.stamp.id else e.id)
             && EncodesAs(Fresh(translators, req).data, Fresh(translators, req).id, e, value)
  {
    body := PrepareOutcome(translators, req.source, req.body, req.stamp);
  }

  /** The text is that of a canonical event with this identifier. */
  ghost predicate EncodesEvent(data: string, id: string) {
    exists e: Event, body: Json :: EncodesAs(data, id, e, body)
  }

  /** The data submitted is a canonical event under the identifier that the answer carries. */
  lemma {:induction false} SubmitsUnderItsIdentifier(translators: map<string, Inbound>, req: Request)
    requires Fresh(translators, req).Submits?
    ensures EncodesEvent(Fresh(translators, req).data, Fresh(translators, req).id)
  {
    var body := FreshOutcome(translators, req);
    var e := Made(translators, req.source, req.body, req.stamp).value;
    assert EncodesAs(Fresh(translators, req).data, Fresh(translators, req).id, e, body.value);
  }

  // ---- Invariant ----

  ghost predicate InUse(m: Memory) {
    && m.pool <= m.payloads.Keys
    && (forall a | a in m.arrays :: a < m.next)
    && (forall p | p in m.payloads :: p < m.next)
    && (forall p | p in m.payloads ::
          m.payloads[p].arr in m.arrays && m.payloads[p].len <= |m.arrays[m.payloads[p].arr]|)
  }

  ghost predicate Unshared(m: Memory) {
    forall p, q | p in m.payloads && q in m.payloads && p != q :: m.payloads[p].arr != m.payloads[q].arr
  }

  ghost predicate CleanPool(m: Memory) {
    forall p | p in m.pool :: p in m.payloads && m.payloads[p].source == "" && m.payloads[p].len == 0
  }

  /** Addresses are in use, no two objects share an array, and what is in the pool is clean. */
  ghost predicate MemoryOk(m: Memory) { InUse(m) && Unshared(m) && CleanPool(m) }

  /** Each buffer in a handler's hands is its own and is not in the pool. */
  ghost predicate Exclusive(m: Memory, sessions: map<nat, Session>) {
    && (forall h | h in sessions && HasBuffer(sessions[h].pc) ::
          sessions[h].pc.p in m.payloads && sessions[h].pc.p !in m.pool)
    && (forall h, k | h in sessions && k in sessions && h != k
                      && HasBuffer(sessions[h].pc) && HasBuffer(sessions[k].pc) ::
          sessions[h].pc.p != sessions[k].pc.p)
  }

  /** A handler's variables agree with the reference run at the same point. */
  ghost predicate Agrees(translators: map<string, Inbound>, m: Memory, x: Session) {
    var req := x.req;
    var translated := Select(translators, req.source)(req.source, req.body, req.stamp);
    match x.pc
    case Start => true
    case Holds(p) => req.body != "" && ObjectAt(m, p).len == 0
    case Filling(p, k) =>
      && req.body != "" && ObjectAt(m, p).len == 0 && k <= |req.body| && Fits(m, p, |req.body|)
      && ArrayAt(m, ObjectAt(m, p).arr)[..k] == req.body[..k]
    case Failed(_) => req.body != "" && translated.None?
    case Translated(p, arr, length, e) =>
      && req.body != "" && arr == ObjectAt(m, p).arr && length == ObjectAt(m, p).len && Bytes(m, p) == req.body
      && translated.Some? && e == Identified(translated.value, req.stamp)
    case Encoded(_, id, result) =>
      && req.body != "" && translated.Some?
      && id == Identified(translated.value, req.stamp).id
      && result == Marshal(Identified(translated.value, req.stamp), req.body)
    case Submitting(id, data) => Fresh(translators, req) == Submits(id, data)
    case Counting(id) => Fresh(translators, req).Submits? && Fresh(translators, req).id == id
    case Done(Accepted(id)) => Fresh(translators, req).Submits? && Fresh(translators, req).id == id
    case Done(TooManyRequests) => Fresh(translators, req).Submits?
    case Done(status) => Fresh(translators, req) == Answers(status)
  }

  ghost predicate AllAgree(translators: map<string, Inbound>, m: Memory, sessions: map<nat, Session>) {
    forall h | h in sessions :: Agrees(translators, m, sessions[h])
  }

  /** What went into the channel is what the reference would have put there for the same request. */
  ghost predicate SubmissionsAgree(translators: map<string, Inbound>, s: State) {
    forall i | 0 <= i < |s.submitted| :: SubmissionAgrees(translators, s, s.submitted[i].0, s.submitted[i].1)
  }

  /** The handler is past its call of Submit, or has answered without one. */
  predicate Finished(pc: Pc) { pc.Counting? || pc.Done? }

  ghost predicate SubmissionAgrees(translators: map<string, Inbound>, s: State, h: nat, data: string) {
    && h in s.sessions && Finished(s.sessions[h].pc)
    && Fresh(translators, s.sessions[h].req).Submits?
    && Fresh(translators, s.sessions[h].req).data == data
  }

  ghost predicate Inv(translators: map<string, Inbound>, s: State) {
    && MemoryOk(s.mem)
    && Exclusive(s.mem, s.sessions)
    && AllAgree(translators, s.mem, s.sessions)
    && SubmissionsAgree(translators, s)
  }

  /** Buffer p is the same in both memories, and not in the pool. */
  ghost predicate SameBuffer(m: Memory, m': Memory, p: nat) {
    && p in m'.payloads && p !in m'.pool
    && ObjectAt(m', p) == ObjectAt(m, p)
    && ArrayAt(m', ObjectAt(m, p).arr) == ArrayAt(m, ObjectAt(m, p).arr)
  }

  ghost predicate OthersKept(s: State, h: nat, m: Memory) {
    forall k | k in s.sessions && k != h && HasBuffer(s.sessions[k].pc) :: SameBuffer(s.mem, m, s.sessions[k].pc.p)
  }

  /** No other handler holds p. */
  ghost predicate Own(s: State, h: nat, p: nat) {
    forall k | k in s.sessions && k != h && HasBuffer(s.sessions[k].pc) :: s.sessions[k].pc.p != p
  }

  lemma AgreesFrame(translators: map<string, Inbound>, m: Memory, m': Memory, x: Session)
    requires (HasBuffer(x.pc) ==> SameBuffer(m, m', x.pc.p)) && Agrees(translators, m, x)
    ensures Agrees(translators, m', x)
  {
  }

  lemma SubmissionsKept(translators: map<string, Inbound>, s: State, h: nat, m: Memory, pc: Pc)
    requires SubmissionsAgree(translators, s) && h in s.sessions && (Finished(s.sessions[h].pc) ==> Finished(pc))
    ensures SubmissionsAgree(translators, Goto(s, h, m, pc))
  {
    var t := Goto(s, h, m, pc);
    forall i | 0 <= i < |t.submitted|
      ensures SubmissionAgrees(translators, t, t.submitted[i].0, t.submitted[i].1)
    {
      assert SubmissionAgrees(translators, s, s.submitted[i].0, s.submitted[i].1);
    }
  }

  lemma ExclusiveKept(s: State, h: nat, m: Memory, pc: Pc)
    requires Exclusive(s.mem, s.sessions) && h in s.sessions && OthersKept(s, h, m)
    requires HasBuffer(pc) ==> pc.p in m.payloads && pc.p !in m.pool && Own(s, h, pc.p)
    ensures Exclusive(m, Goto(s, h, m, pc).sessions)
  {
  }

  lemma AgreementKept(translators: map<string, Inbound>, s: State, h: nat, m: Memory, pc: Pc)
    requires AllAgree(translators, s.mem, s.sessions) && h in s.sessions && OthersKept(s, h, m)
    requires Agrees(translators, m, Session(s.sessions[h].req, pc))
    ensures AllAgree(translators, m, Goto(s, h, m, pc).sessions)
  {
    var t := Goto(s, h, m, pc);
    forall k | k in t.sessions
      ensures Agrees(translators, m, t.sessions[k])
    {
      if k != h {
        AgreesFrame(translators, s.mem, m, s.sessions[k]);
      }
    }
  }

  /** The part of every step that concerns the other handlers. */
  lemma GotoKeeps(translators: map<string, Inbound>, s: State, h: nat, m: Memory, pc: Pc)
    requires Inv(translators, s) && h in s.sessions && (Finished(s.sessions[h].pc) ==> Finished(pc))
    requires MemoryOk(m) && OthersKept(s, h, m)
    requires HasBuffer(pc) ==> pc.p in m.payloads && pc.p !in m.pool && Own(s, h, pc.p)
    requires Agrees(translators, m, Session(s.sessions[h].req, pc))
    ensures Inv(translators, Goto(s, h, m, pc))
  {
    SubmissionsKept(translators, s, h, m, pc);
    ExclusiveKept(s, h, m, pc);
    AgreementKept(translators, s, h, m, pc);
  }

  // ---- Each step keeps the invariant ----

  lemma ArriveStep(translators: map<string, Inbound>, s: State, h: nat, req: Request)
    requires Inv(translators, s) && Enabled(s, Arrive(h, req))
    ensures Inv(translators, Next(translators, s, Arrive(h, req)))
  {
    var t := Next(translators, s, Arrive(h, req));
    forall i | 0 <= i < |t.submitted|
      ensures SubmissionAgrees(translators, t, t.submitted[i].0, t.submitted[i].1)
    {
      assert SubmissionAgrees(translators, s, s.submitted[i].0, s.submitted[i].1);
    }
  }

  lemma RejectEmptyStep(translators: map<string, Inbound>, s: State, h: nat)
    requires Inv(translators, s) && Enabled(s, RejectEmpty(h))
    ensures Inv(translators, Next(translators, s, RejectEmpty(h)))
  {
    GotoKeeps(translators, s, h, s.mem, Done(BadRequest));
  }

  lemma GetPooledStep(translators: map<string, Inbound>, s: State, h: nat, p: nat)
    requires Inv(translators, s) && Enabled(s, GetPooled(h, p))
    ensures Inv(translators, Next(translators, s, GetPooled(h, p)))
  {
    GotoKeeps(translators, s, h, Taken(s.mem, p), Holds(p));
  }

  lemma AllocatedUnshared(m: Memory, backing: string)
    requires Unshared(m) && forall p | p in m.payloads :: m.payloads[p].arr != m.next
    ensures Unshared(Allocated(m, backing))
  {
  }

  lemma AllocatedCleanPool(m: Memory, backing: string)
    requires CleanPool(m) && m.next + 1 !in m.pool
    ensures CleanPool(Allocated(m, backing))
  {
  }

  lemma AllocatedInUse(m: Memory, backing: string)
    requires InUse(m)
    ensures InUse(Allocated(m, backing))
  {
  }

  lemma AllocatedOk(m: Memory, backing: string)
    requires MemoryOk(m)
    ensures MemoryOk(Allocated(m, backing))
  {
    AllocatedUnshared(m, backing);
    AllocatedCleanPool(m, backing);
    AllocatedInUse(m, backing);
  }

  lemma NextIsUnused(m: Memory)
    requires MemoryOk(m)
    ensures m.next + 1 !in m.pool && m.next + 1 !in m.payloads && m.next !in m.arrays
  {
  }

  lemma AllocatedIsClean(m: Memory, backing: string)
    requires m.next + 1 !in m.pool
    ensures
      var m' := Allocated(m, backing);
      m.next + 1 in m'.payloads && m.next + 1 !in m'.pool && ObjectAt(m', m.next + 1).len == 0
  {
  }

  lemma AllocationKeeps(m: Memory, backing: string, p: nat)
    requires m.next + 1 !in m.payloads && m.next !in m.arrays
    requires p in m.payloads && p !in m.pool && m.payloads[p].arr in m.arrays
    ensures SameBuffer(m, Allocated(m, backing), p) && p != m.next + 1
  {
  }

  lemma AllocationKeepsOthers(s: State, h: nat, backing: string)
    requires MemoryOk(s.mem) && Exclusive(s.mem, s.sessions)
    ensures OthersKept(s, h, Allocated(s.mem, backing)) && Own(s, h, s.mem.next + 1)
  {
    NextIsUnused(s.mem);
    forall k | k in s.sessions && k != h && HasBuffer(s.sessions[k].pc)
      ensures SameBuffer(s.mem, Allocated(s.mem, backing), s.sessions[k].pc.p)
      ensures s.sessions[k].pc.p != s.mem.next + 1
    {
      AllocationKeeps(s.mem, backing, s.sessions[k].pc.p);
    }
  }

  lemma GetNewStep(translators: map<string, Inbound>, s: State, h: nat, backing: string)
    requires Inv(translators, s) && Enabled(s, GetNew(h, backing))
    ensures Inv(translators, Next(translators, s, GetNew(h, backing)))
  {
    AllocatedOk(s.mem, backing);
    AllocationKeepsOthers(s, h, backing);
    NextIsUnused(s.mem);
    AllocatedIsClean(s.mem, backing);
    GotoKeeps(translators, s, h, Allocated(s.mem, backing), Holds(s.mem.next + 1));
  }

  lemma GrownOk(m: Memory, p: nat, backing: string)
    requires MemoryOk(m) && p in m.payloads && p !in m.pool && |Bytes(m, p)| <= |backing|
    ensures MemoryOk(Grown(m, p, backing))
    ensures ObjectAt(Grown(m, p, backing), p).len == ObjectAt(m, p).len
  {
  }

  lemma GrowStep(translators: map<string, Inbound>, s: State, h: nat, backing: string)
    requires Inv(translators, s) && Enabled(s, Grow(h, backing))
    ensures Inv(translators, Next(translators, s, Grow(h, backing)))
  {
    var pc := s.sessions[h].pc;
    GrownOk(s.mem, pc.p, backing);
    GotoKeeps(translators, s, h, Grown(s.mem, pc.p, backing), pc);
  }

  lemma BeginCopyStep(translators: map<string, Inbound>, s: State, h: nat)
    requires Inv(translators, s) && Enabled(s, BeginCopy(h))
    ensures Inv(translators, Next(translators, s, BeginCopy(h)))
  {
    GotoKeeps(translators, s, h, s.mem, Filling(s.sessions[h].pc.p, 0));
  }

  lemma CopyOneStep(translators: map<string, Inbound>, s: State, h: nat)
    requires Inv(translators, s) && Enabled(s, CopyOne(h))
    ensures Inv(translators, Next(translators, s, CopyOne(h)))
  {
    var Filling(p, k) := s.sessions[h].pc;
    var m, body := s.mem, s.sessions[h].req.body;
    var before, after := ArrayAt(m, ObjectAt(m, p).arr), Put1(ArrayAt(m, ObjectAt(m, p).arr), k, body[k]);
    assert after[..k + 1] == before[..k] + [body[k]] == body[..k + 1];
    assert MemoryOk(Written(m, p, k, body[k]));
    GotoKeeps(translators, s, h, Written(m, p, k, body[k]), Filling(p, k + 1));
  }

  lemma TranslateStep(translators: map<string, Inbound>, s: State, h: nat)
    requires Inv(translators, s) && Enabled(s, Translate(h))
    ensures Inv(translators, Next(translators, s, Translate(h)))
  {
    var p, req := s.sessions[h].pc.p, s.sessions[h].req;
    var m := Extended(s.mem, p, |req.body|);
    assert MemoryOk(m);
    assert Bytes(m, p) == req.body[..|req.body|] == req.body;
    GotoKeeps(translators, s, h, m, AfterTranslate(translators, req, m, p));
  }

  lemma EncodeStep(translators: map<string, Inbound>, s: State, h: nat)
    requires Inv(translators, s) && Enabled(s, Encode(h))
    ensures Inv(translators, Next(translators, s, Encode(h)))
  {
    var pc := s.sessions[h].pc;
    GotoKeeps(translators, s, h, s.mem, Encoded(pc.p, pc.e.id, Marshal(pc.e, s.sessions[h].req.body)));
  }

  lemma ReturnedOk(m: Memory, p: nat)
    requires MemoryOk(m) && p in m.payloads
    ensures MemoryOk(Returned(m, p))
  {
  }

  lemma AfterPutAgrees(translators: map<string, Inbound>, m: Memory, m': Memory, x: Session)
    requires Agrees(translators, m, x) && (x.pc.Failed? || x.pc.Encoded?)
    ensures Agrees(translators, m', Session(x.req, AfterPut(x.pc)))
  {
  }

  lemma ReturnKeepsOthers(s: State, h: nat)
    requires Exclusive(s.mem, s.sessions) && h in s.sessions && HasBuffer(s.sessions[h].pc)
    ensures OthersKept(s, h, Returned(s.mem, s.sessions[h].pc.p))
  {
  }

  lemma PutBackStep(translators: map<string, Inbound>, s: State, h: nat)
    requires Inv(translators, s) && Enabled(s, PutBack(h))
    ensures Inv(translators, Next(translators, s, PutBack(h)))
  {
    var x := s.sessions[h];
    var m := Returned(s.mem, x.pc.p);
    ReturnedOk(s.mem, x.pc.p);
    AfterPutAgrees(translators, s.mem, m, x);
    ReturnKeepsOthers(s, h);
    GotoKeeps(translators, s, h, m, AfterPut(x.pc));
  }

  lemma SubmissionLogged(translators: map<string, Inbound>, s: State, h: nat, data: string)
    requires Inv(translators, s) && SubmissionAgrees(translators, s, h, data)
    ensures Inv(translators, s.(submitted := s.submitted + [(h, data)]))
  {
    var t := s.(submitted := s.submitted + [(h, data)]);
    forall i | 0 <= i < |t.submitted|
      ensures SubmissionAgrees(translators, t, t.submitted[i].0, t.submitted[i].1)
    {
      if i < |s.submitted| {
        assert SubmissionAgrees(translators, s, s.submitted[i].0, s.submitted[i].1);
      }
    }
  }

  lemma SubmittedAgrees(translators: map<string, Inbound>, s: State, h: nat)
    requires Inv(translators, s) && h in s.sessions && s.sessions[h].pc.Submitting?
    ensures Fresh(translators, s.sessions[h].req) == Submits(s.sessions[h].pc.id, s.sessions[h].pc.data)
  {
    assert Agrees(translators, s.mem, s.sessions[h]);
  }

  lemma SubmitStep(translators: map<string, Inbound>, s: State, h: nat, accepted: bool)
    requires Inv(translators, s) && Enabled(s, Submit(h, accepted))
    ensures Inv(translators, Next(translators, s, Submit(h, accepted)))
  {
    var Submitting(id, data) := s.sessions[h].pc;
    SubmittedAgrees(translators, s, h);
    if accepted {
      AcceptedStep(translators, s, h, id, data);
    } else {
      GotoKeeps(translators, s, h, s.mem, Done(TooManyRequests));
    }
  }

  lemma AcceptedStep(translators: map<string, Inbound>, s: State, h: nat, id: string, data: string)
    requires Inv(translators, s) && h in s.sessions && s.sessions[h].pc == Submitting(id, data)
    requires Fresh(translators, s.sessions[h].req) == Submits(id, data)
    ensures Inv(translators, Goto(s, h, s.mem, Counting(id)).(submitted := s.submitted + [(h, data)]))
  {
    GotoKeeps(translators, s, h, s.mem, Counting(id));
    SubmissionLogged(translators, Goto(s, h, s.mem, Counting(id)), h, data);
  }

  lemma CountStep(translators: map<string, Inbound>, s: State, h: nat)
    requires Inv(translators, s) && Enabled(s, Count(h))
    ensures Inv(translators, Next(translators, s, Count(h)))
  {
    GotoKeeps(translators, s, h, s.mem, Done(Accepted(s.sessions[h].pc.id)));
  }

  lemma EvictStep(translators: map<string, Inbound>, s: State, p: nat)
    requires Inv(translators, s) && Enabled(s, Evict(p))
    ensures Inv(translators, Next(translators, s, Evict(p)))
  {
    var t := Next(translators, s, Evict(p));
    forall k | k in s.sessions
      ensures Agrees(translators, t.mem, s.sessions[k])
    {
      AgreesFrame(translators, s.mem, t.mem, s.sessions[k]);
    }
    forall i | 0 <= i < |t.submitted|
      ensures SubmissionAgrees(translators, t, t.submitted[i].0, t.submitted[i].1)
    {
      assert SubmissionAgrees(translators, s, s.submitted[i].0, s.submitted[i].1);
    }
  }

  lemma {:induction false} StepKeepsInv(translators: map<string, Inbound>, s: State, a: Action)
    requires Inv(translators, s) && Enabled(s, a)
    ensures Inv(translators, Next(translators, s, a))
  {
    match a
    case Arrive(h, req) => ArriveStep(translators, s, h, req);
    case RejectEmpty(h) => RejectEmptyStep(translators, s, h);
    case GetPooled(h, p) => GetPooledStep(translators, s, h, p);
    case GetNew(h, backing) => GetNewStep(translators, s, h, backing);
    case Grow(h, backing) => GrowStep(translators, s, h, backing);
    case BeginCopy(h) => BeginCopyStep(translators, s, h);
    case CopyOne(h) => CopyOneStep(translators, s, h);
    case Translate(h) => TranslateStep(translators, s, h);
    case Encode(h) => EncodeStep(translators, s, h);
    case PutBack(h) => PutBackStep(translators, s, h);
    case Submit(h, accepted) => SubmitStep(translators, s, h, accepted);
    case Count(h) => CountStep(translators, s, h);
    case Evict(p) => EvictStep(translators, s, p);
  }

  lemma {:induction false} InvOfRun(translators: map<string, Inbound>, acts: seq<Action>)
    requires IsRun(translators, acts)
    ensures Inv(translators, Exec(translators, acts))
  {
    if acts != [] {
      InvOfRun(translators, acts[..|acts| - 1]);
      StepKeepsInv(translators, Exec(translators, acts[..|acts| - 1]), acts[|acts| - 1]);
    }
  }

  // ---- Results ----

  /** Pooled, aliased execution refines fresh allocation: whatever the interleaving of handlers and whatever the
      pool hands out, every payload submitted and every status answered is that of a fresh-buffer run of the
      same request. */
  lemma {:induction false} PooledRefinesFresh(translators: map<string, Inbound>, acts: seq<Action>, h: nat)
    requires IsRun(translators, acts) && h in Exec(translators, acts).sessions
    ensures
      var s := Exec(translators, acts);
      var ref := Fresh(translators, s.sessions[h].req);
      match s.sessions[h].pc
      case Submitting(id, data) => ref == Submits(id, data)
      case Counting(id) => ref.Submits? && ref.id == id
      case Done(Accepted(id)) => ref.Submits? && ref.id == id
      case Done(TooManyRequests) => ref.Submits?
      case Done(status) => ref == Answers(status)
      case _ => true
    ensures
      var s := Exec(translators, acts);
      forall i | 0 <= i < |s.submitted| && s.submitted[i].0 == h ::
        Fresh(translators, s.sessions[h].req).Submits? &&
        Fresh(translators, s.sessions[h].req).data == s.submitted[i].1
  {
    InvOfRun(translators, acts);
    var s := Exec(translators, acts);
    assert Agrees(translators, s.mem, s.sessions[h]);
    forall i | 0 <= i < |s.submitted| && s.submitted[i].0 == h
      ensures SubmissionAgrees(translators, s, s.submitted[i].0, s.submitted[i].1)
    {
    }
  }

  /** While an event may still point into a buffer, that buffer is not in the pool, nobody else holds it or its array,
      and its bytes are the request's; and everything in the pool is empty. */
  lemma NoAliasInPool(translators: map<string, Inbound>, acts: seq<Action>)
    requires IsRun(translators, acts)
    ensures
      var s := Exec(translators, acts);
      && (forall p | p in s.mem.pool :: ObjectAt(s.mem, p).source == "" && ObjectAt(s.mem, p).len == 0)
      && (forall h | h in s.sessions && s.sessions[h].pc.Translated? ::
            && RawOf(s.mem, s.sessions[h].pc) == s.sessions[h].req.body
            && (forall p | p in s.mem.pool :: ObjectAt(s.mem, p).arr != s.sessions[h].pc.arr)
            && (forall k | k in s.sessions && k != h && HasBuffer(s.sessions[k].pc) ::
                  ObjectAt(s.mem, s.sessions[k].pc.p).arr != s.sessions[h].pc.arr))
  {
    InvOfRun(translators, acts);
    var s := Exec(translators, acts);
    forall h | h in s.sessions && s.sessions[h].pc.Translated?
      ensures RawOf(s.mem, s.sessions[h].pc) == s.sessions[h].req.body
      ensures s.sessions[h].pc.arr == ObjectAt(s.mem, s.sessions[h].pc.p).arr
    {
      assert Agrees(translators, s.mem, s.sessions[h]);
    }
  }

  /** How many times handler h put something into the channel. */
  function Sent(log: seq<(nat, string)>, h: nat): nat {
    if log == [] then 0
    else Sent(log[..|log| - 1], h) + (if log[|log| - 1].0 == h then 1 else 0)
  }

  ghost predicate SaysAccepted(s: State, h: nat) {
    h in s.sessions && match s.sessions[h].pc case Counting(_) => true case Done(Accepted(_)) => true case _ => false
  }

  ghost predicate LogExact(s: State) {
    forall h: nat :: Sent(s.submitted, h) == if SaysAccepted(s, h) then 1 else 0
  }

  lemma SentOneMore(log: seq<(nat, string)>, h: nat, k: nat, data: string)
    ensures Sent(log + [(h, data)], k) == Sent(log, k) + if h == k then 1 else 0
  {
    assert (log + [(h, data)])[..|log|] == log;
  }

  lemma SubmitKeepsLogExact(translators: map<string, Inbound>, s: State, h: nat, accepted: bool)
    requires LogExact(s) && Enabled(s, Submit(h, accepted))
    ensures LogExact(Next(translators, s, Submit(h, accepted)))
  {
    var t, data := Next(translators, s, Submit(h, accepted)), s.sessions[h].pc.data;
    assert t.submitted == if accepted then s.submitted + [(h, data)] else s.submitted;
    forall k: nat
      ensures Sent(t.submitted, k) == if SaysAccepted(t, k) then 1 else 0
    {
      assert Sent(s.submitted, k) == if SaysAccepted(s, k) then 1 else 0;
      SubmitSays(translators, s, h, accepted, k);
      SentOneMore(s.submitted, h, k, data);
    }
  }

  lemma SubmitSays(translators: map<string, Inbound>, s: State, h: nat, accepted: bool, k: nat)
    requires Enabled(s, Submit(h, accepted))
    ensures !SaysAccepted(s, h)
    ensures SaysAccepted(Next(translators, s, Submit(h, accepted)), k) <==> SaysAccepted(s, k) || (accepted && k == h)
  {
  }

  lemma StepKeepsLogExact(translators: map<string, Inbound>, s: State, a: Action)
    requires LogExact(s) && Enabled(s, a)
    ensures LogExact(Next(translators, s, a))
  {
    var t := Next(translators, s, a);
    if a.Submit? {
      SubmitKeepsLogExact(translators, s, a.h, a.accepted);
    } else {
      assert forall k :: SaysAccepted(t, k) <==> SaysAccepted(s, k);
    }
  }

  /** A handler that has answered "accepted", or is about to, has put one payload into the channel; any other none. */
  lemma {:induction false} AcceptedSubmitsOnce(translators: map<string, Inbound>, acts: seq<Action>)
    requires IsRun(translators, acts)
    ensures LogExact(Exec(translators, acts))
  {
    if acts != [] {
      AcceptedSubmitsOnce(translators, acts[..|acts| - 1]);
      StepKeepsLogExact(translators, Exec(translators, acts[..|acts| - 1]), acts[|acts| - 1]);
    }
  }
}
