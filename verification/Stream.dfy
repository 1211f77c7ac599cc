/** The stream ingestor: one reader per region over a consumer group, feeding the pipeline's channel.
    The consumer group is the environment: an append-only stream, a last-delivered cursor, the pending entries and the
    acknowledged ones. Only new messages are ever read, an acknowledgement may fail unnoticed, and a read may fail
    after the server has delivered. */
module Stream {
  import opened Outcomes
  import opened Translator
  import P = Pipeline

  // ---- Messages ----

  datatype Field = Text(s: string) | Raw(bytes: string) | Other

  type Message = map<string, Field>

  function ExtractBytes(msg: Message): Option<string> {
    if "data" !in msg then None
    else
      match msg["data"]
      case Text(s) => Some(s)
      case Raw(bytes) => Some(bytes)
      case Other => None
  }

  /** The payload data of a message, or None when it has no data, does not translate or does not encode. */
  function Usable(translators: map<string, Inbound>, region: string, msg: Message, stamp: Stamp): Option<string> {
    var raw :- ExtractBytes(msg);
    match Prepare(translators, region, raw, stamp)
    case Ready(_, data) => Some(data)
    case _ => None
  }

  // ---- One region ----

  /** Where the reader goroutine stands. Messages next, ..., end - 1 of the current batch are still to be handled. */
  datatype Pc =
    | Check
    | Reading
    | Batch(next: nat, end: nat)
    | Counting(next: nat, end: nat) // the message was accepted; it is not counted yet
    | Acking(next: nat, end: nat)
    | Stopped

  /** An accepted message: its position in the accepted sequence, and the stamp its event carried. */
  datatype Slot = Slot(index: nat, stamp: Stamp)

  datatype Region = Region(
    stream: seq<Message>,
    cursor: nat,
    pending: set<nat>,
    acked: set<nat>,
    pc: Pc,
    // histories
    attempts: seq<nat>,          // Submit calls
    refused: set<nat>,           // ... that returned false
    slots: map<nat, Slot>,       // ... that returned true
    skipped: map<nat, Stamp>,    // found unusable
    lost: set<nat>,              // delivered by a read whose reply never arrived
    acks: seq<nat>,              // acknowledgements sent
    unacked: set<nat>)           // ... that failed

  datatype Move =
    | CheckContext
    | Read(n: nat)
    | ReadFails(delivered: nat)
    | Handle(stamp: Stamp)
    | Count
    | Ack(ok: bool)
    | EndBatch

  datatype Config = Config(pipe: P.Config, translators: map<string, Inbound>, readBatch: nat)

  /** `owners` is a history: which region's which message each stream-fed slot of the accepted sequence holds. */
  datatype State = State(pipe: P.State, regions: map<string, Region>, cancelled: bool, owners: map<nat, (string, nat)>)

  datatype Action =
    | Pipe(a: P.Action)
    | Produce(r: string, msg: Message)
    | Cancel
    | Step(r: string, move: Move)

  function NewRegion(): Region { Region([], 0, {}, {}, Check, [], {}, map[], map[], {}, [], {}) }

  function Init(c: Config, start: real, regions: set<string>): State {
    State(P.Init(c.pipe, start), map r | r in regions :: NewRegion(), false, map[])
  }

  /** The indices lo, ..., hi - 1. */
  function Range(lo: nat, hi: nat): (r: set<nat>)
    ensures forall i: nat :: i in r <==> lo <= i < hi
  {
    if hi <= lo then {} else Range(lo, hi - 1) + {hi - 1}
  }

  function MessageAt(g: Region, i: nat): Message { if i < |g.stream| then g.stream[i] else map[] }

  function Delivered(g: Region, n: nat): Region {
    g.(cursor := g.cursor + n, pending := g.pending + Range(g.cursor, g.cursor + n))
  }

  predicate CanMove(c: Config, s: State, g: Region, m: Move) {
    match m
    case CheckContext => g.pc.Check?
    case Read(n) => g.pc.Reading? && n <= c.readBatch && g.cursor + n <= |g.stream|
    case ReadFails(n) => g.pc.Reading? && n <= c.readBatch && g.cursor + n <= |g.stream|
    case Handle(_) => g.pc.Batch? && g.pc.next < g.pc.end && !s.pipe.closed
    case Count => g.pc.Counting? && g.pc.next in g.slots && g.slots[g.pc.next].index in s.pipe.uncounted
    case Ack(_) => g.pc.Acking?
    case EndBatch => g.pc.Batch? && g.pc.next == g.pc.end
  }

  /** Shutdown closes the channel only after every reader has stopped, and readers count their own messages. */
  predicate Enabled(c: Config, s: State, a: Action) {
    match a
    case Pipe(p) =>
      && P.Enabled(c.pipe, s.pipe, p)
      && (p.Close? ==> forall r | r in s.regions :: s.regions[r].pc.Stopped?)
      && (p.CountIngested? ==> p.slot !in s.owners)
    case Produce(r, _) => r in s.regions
    case Cancel => true
    case Step(r, m) => r in s.regions && CanMove(c, s, s.regions[r], m)
  }

  /** One message: acknowledge what can never be used, submit the rest, leave it pending when the channel is full. */
  function Handled(c: Config, s: State, r: string, stamp: Stamp): State
    requires r in s.regions && CanMove(c, s, s.regions[r], Handle(stamp))
  {
    var g, next := s.regions[r], s.regions[r].pc.next;
    match Usable(c.translators, r, MessageAt(g, next), stamp)
    case None => s.(regions := s.regions[r := Skipped(g, stamp)])
    case Some(data) =>
      var pipe := P.Next(c.pipe, s.pipe, P.Submit(P.Payload(r, data)));
      if P.Accepts(c.pipe, s.pipe) then
        var slot := |s.pipe.accepted|;
        s.(regions := s.regions[r := Accepted(g, Slot(slot, stamp))], pipe := pipe,
           owners := s.owners[slot := (r, next)])
      else s.(regions := s.regions[r := Refused(g)], pipe := pipe)
  }

  function Skipped(g: Region, stamp: Stamp): Region
    requires g.pc.Batch?
  {
    g.(skipped := g.skipped[g.pc.next := stamp], pc := Acking(g.pc.next, g.pc.end))
  }

  function Accepted(g: Region, slot: Slot): Region
    requires g.pc.Batch?
  {
    g.(attempts := g.attempts + [g.pc.next], slots := g.slots[g.pc.next := slot], pc := Counting(g.pc.next, g.pc.end))
  }

  function Refused(g: Region): Region
    requires g.pc.Batch?
  {
    g.(attempts := g.attempts + [g.pc.next], refused := g.refused + {g.pc.next}, pc := Batch(g.pc.next + 1, g.pc.end))
  }

  /** What the moves that do not touch the channel do to the region. */
  function Quietly(s: State, g: Region, m: Move): Region
    requires !m.Handle?
  {
    match m
    case CheckContext => g.(pc := if s.cancelled then Stopped else Reading)
    case Read(n) => Delivered(g, n).(pc := Batch(g.cursor, g.cursor + n))
    case ReadFails(n) =>
      Delivered(g, n).(lost := g.lost + Range(g.cursor, g.cursor + n), pc := if s.cancelled then Stopped else Check)
    case Count => if g.pc.Counting? then g.(pc := Acking(g.pc.next, g.pc.end)) else g
    case Ack(ok) =>
      if g.pc.Acking? then
        var resumed := g.(pc := Batch(g.pc.next + 1, g.pc.end), acks := g.acks + [g.pc.next]);
        if ok then resumed.(pending := g.pending - {g.pc.next}, acked := g.acked + {g.pc.next})
        else resumed.(unacked := g.unacked + {g.pc.next})
      else g
    case EndBatch => g.(pc := Check)
  }

  function Next(c: Config, s: State, a: Action): State
    requires Enabled(c, s, a)
  {
    match a
    case Pipe(p) => s.(pipe := P.Next(c.pipe, s.pipe, p))
    case Produce(r, msg) => s.(regions := s.regions[r := s.regions[r].(stream := s.regions[r].stream + [msg])])
    case Cancel => s.(cancelled := true)
    case Step(r, m) =>
      if m.Handle? then Handled(c, s, r, m.stamp)
      else
        var g := s.regions[r];
        var pipe := if m.Count? then P.Next(c.pipe, s.pipe, P.CountIngested(g.slots[g.pc.next].index)) else s.pipe;
        s.(regions := s.regions[r := Quietly(s, g, m)], pipe := pipe)
  }

  ghost predicate IsRun(c: Config, s: State, acts: seq<Action>)
    decreases |acts|, 0
  {
    acts != [] ==>
      && IsRun(c, s, acts[..|acts| - 1])
      && Enabled(c, Exec(c, s, acts[..|acts| - 1]), acts[|acts| - 1])
  }

  ghost function Exec(c: Config, s: State, acts: seq<Action>): State
    requires IsRun(c, s, acts)
    decreases |acts|, 1
  {
    if acts == [] then s else Next(c, Exec(c, s, acts[..|acts| - 1]), acts[|acts| - 1])
  }
}
