/** The dispatcher, its worker pool and the sinks as a step system. Every channel operation and every
    lock-protected section is one step; a run is any list of enabled steps, so a theorem about all runs
    covers every schedule of submitters, workers, external flushes and shutdown. */
module Pipeline {
  import opened Outcomes
  import opened TokenBucket
  import opened RateLimiter
  import Batching

  /** The unit of work. The real batcher stores the data alone; the model keeps the source beside it. */
  datatype Payload = Payload(source: string, data: string)

  datatype Config = Config(workers: nat, bufferSize: nat, maxSize: nat, limit: Option<Limit>)

  /** The configurations that pass validation. */
  predicate ValidConfig(c: Config) { c.workers >= 1 && c.bufferSize >= 1 && c.maxSize >= 1 }

  /** Where a worker goroutine stands. */
  datatype Worker =
    | Idle                                   // blocked in the range over the channel
    | Checking(p: Payload)                   // holds p; handlers ahead of the limiter run
    | LookedUp(p: Payload)                   // between `bucketFor` and `allow`
    | Passed(p: Payload)                     // past the limiter; the remaining handlers run
    | Approved(p: Payload)                   // the chain returned nil; `Add` is due
    | Failed(p: Payload, verdict: Verdict)   // the chain returned an error or panicked; nothing is counted yet
    | Tallied(p: Payload, verdict: Verdict)  // the rejection or panic is counted
    | Rejected(p: Payload, verdict: Verdict) // the dead letter is counted too; its push is due
    | MustFlush                              // appended, saw a full buffer, has not drained it yet
    | Exited

  /** How the chain ended for a payload. */
  datatype Judgement = Judgement(p: Payload, verdict: Verdict)

  datatype Counters = Counters(ingested: nat, rejected: nat, panics: nat, enqueued: nat)

  /** `uncounted` holds the places in the accepted sequence whose submitters have not counted them as ingested yet. */
  datatype State = State(
    queue: seq<Payload>,
    closed: bool,
    workers: seq<Worker>,
    batcher: Batching.State<Payload>,
    deadLetters: seq<Payload>,
    clock: real,
    buckets: Buckets,
    counters: Counters,
    uncounted: set<nat>,
    // histories
    accepted: seq<Payload>,
    dequeued: seq<Payload>,
    judged: seq<Judgement>,
    denied: seq<Payload>,
    limiterLog: seq<Event>)

  datatype Move =
    | Receive
    | Fail(verdict: Verdict)
    | LookUp
    | Ask
    | Pass
    | Append
    | Tally
    | Enqueue
    | Push
    | Flush
    | Exit

  datatype Action =
    | Submit(p: Payload)
    | CountIngested(slot: nat)
    | Close
    | Tick(to: real)
    | ExternalFlush
    | Work(w: nat, move: Move)

  function Init(c: Config, start: real): State {
    State([], false, seq(c.workers, _ => Idle), Batching.Empty(), [], start, map[], Counters(0, 0, 0, 0), {},
          [], [], [], [], [])
  }

  predicate Accepts(c: Config, s: State) { |s.queue| < c.bufferSize }

  predicate PastLimiter(c: Config, worker: Worker) { worker.Passed? || (worker.Checking? && c.limit.None?) }

  predicate CanMove(c: Config, s: State, w: nat, m: Move)
    requires w < |s.workers|
  {
    var me := s.workers[w];
    match m
    case Receive => me.Idle? && s.queue != []
    case Exit => me.Idle? && s.queue == [] && s.closed
    case Fail(v) => (me.Checking? || me.Passed?) && v != Ok
    case LookUp => me.Checking? && c.limit.Some?
    case Ask => me.LookedUp? && c.limit.Some?
    case Pass => PastLimiter(c, me)
    case Append => me.Approved?
    case Tally => me.Failed?
    case Enqueue => me.Tallied?
    case Push => me.Rejected?
    case Flush => me.MustFlush?
  }

  /** `Submit` never blocks; nobody submits or closes again once the channel is closed. */
  predicate Enabled(c: Config, s: State, a: Action) {
    match a
    case Submit(_) => !s.closed
    case CountIngested(slot) => slot in s.uncounted
    case Close => !s.closed
    case Tick(t) => s.clock <= t
    case ExternalFlush => true
    case Work(w, m) => w < |s.workers| && CanMove(c, s, w, m)
  }

  /** The first counter bumped for a payload that failed. */
  function Count(k: Counters, v: Verdict): Counters {
    match v
    case Ok => k
    case Err => k.(rejected := k.rejected + 1)
    case Panic => k.(panics := k.panics + 1)
  }

  function Moved(c: Config, s: State, w: nat, m: Move): State
    requires w < |s.workers| && CanMove(c, s, w, m)
  {
    var me := s.workers[w];
    match m
    case Receive =>
      s.(queue := s.queue[1..], dequeued := s.dequeued + [s.queue[0]], workers := s.workers[w := Checking(s.queue[0])])
    case Exit => s.(workers := s.workers[w := Exited])
    case Fail(v) => s.(judged := s.judged + [Judgement(me.p, v)], workers := s.workers[w := Failed(me.p, v)])
    case LookUp =>
      var e := Lookup(me.p.source, s.clock);
      s.(buckets := Step(c.limit.value, s.buckets, e), limiterLog := s.limiterLog + [e],
         workers := s.workers[w := LookedUp(me.p)])
    case Ask =>
      var e := Allow(me.p.source, s.clock);
      var ok := me.p.source in s.buckets && Admits(c.limit.value, s.buckets[me.p.source], s.clock);
      s.(buckets := Step(c.limit.value, s.buckets, e), limiterLog := s.limiterLog + [e],
         judged := if ok then s.judged else s.judged + [Judgement(me.p, Err)],
         denied := if ok then s.denied else s.denied + [me.p],
         workers := s.workers[w := if ok then Passed(me.p) else Failed(me.p, Err)])
    case Pass => s.(judged := s.judged + [Judgement(me.p, Ok)], workers := s.workers[w := Approved(me.p)])
    case Append =>
      var b := Batching.Append(s.batcher, me.p);
      s.(batcher := b, workers := s.workers[w := if Batching.IsFull(c.maxSize, b) then MustFlush else Idle])
    case Tally =>
      s.(counters := Count(s.counters, me.verdict), workers := s.workers[w := Tallied(me.p, me.verdict)])
    case Enqueue =>
      s.(counters := s.counters.(enqueued := s.counters.enqueued + 1),
         workers := s.workers[w := Rejected(me.p, me.verdict)])
    case Push => s.(deadLetters := s.deadLetters + [me.p], workers := s.workers[w := Idle])
    case Flush => s.(batcher := Batching.Drain(s.batcher), workers := s.workers[w := Idle])
  }

  function Next(c: Config, s: State, a: Action): State
    requires Enabled(c, s, a)
  {
    match a
    case Submit(p) =>
      if Accepts(c, s) then
        s.(queue := s.queue + [p], accepted := s.accepted + [p], uncounted := s.uncounted + {|s.accepted|})
      else s
    case CountIngested(slot) =>
      s.(uncounted := s.uncounted - {slot}, counters := s.counters.(ingested := s.counters.ingested + 1))
    case Close => s.(closed := true)
    case Tick(t) => s.(clock := t)
    case ExternalFlush => s.(batcher := Batching.Drain(s.batcher))
    case Work(w, m) => Moved(c, s, w, m)
  }

  // ---- Runs ----

  ghost predicate IsRun(c: Config, s: State, acts: seq<Action>)
    decreases |acts|, 0
  {
    acts != [] ==>
      && IsRun(c, s, acts[..|acts| - 1])
      && Enabled(c, Exec(c, s, acts[..|acts| - 1]), acts[|acts| - 1])
  }

  ghost function Exec(c: Config, s: State, acts: seq<Action>): State
    requires IsRun(c, s, acts)
    decreases |acts|, 1
  {
    if acts == [] then s else Next(c, Exec(c, s, acts[..|acts| - 1]), acts[|acts| - 1])
  }

  lemma {:induction false} RunsCompose(c: Config, s: State, a: seq<Action>, b: seq<Action>)
    requires IsRun(c, s, a) && IsRun(c, Exec(c, s, a), b)
    ensures IsRun(c, s, a + b) && Exec(c, s, a + b) == Exec(c, Exec(c, s, a), b)
  {
    if b == [] {
      assert a + b == a;
    } else {
      var front := b[..|b| - 1];
      RunsCompose(c, s, a, front);
      assert (a + b)[..|a + b| - 1] == a + front;
    }
  }

  lemma OneStep(c: Config, s: State, a: Action)
    requires Enabled(c, s, a)
    ensures IsRun(c, s, [a]) && Exec(c, s, [a]) == Next(c, s, a)
  {
    assert [a][..0] == [];
    assert IsRun(c, s, []);
  }

  lemma Extend(c: Config, s: State, acts: seq<Action>, a: Action)
    requires IsRun(c, s, acts) && Enabled(c, Exec(c, s, acts), a)
    ensures IsRun(c, s, acts + [a]) && Exec(c, s, acts + [a]) == Next(c, Exec(c, s, acts), a)
  {
    assert (acts + [a])[..|acts|] == acts;
  }

  // ---- Sums over the workers ----

  function Sum(ws: seq<Worker>, f: Worker -> nat): nat {
    if ws == [] then 0 else Sum(ws[..|ws| - 1], f) + f(ws[|ws| - 1])
  }

  lemma {:induction false} SumUpdate(ws: seq<Worker>, i: nat, x: Worker, f: Worker -> nat)
    requires i < |ws|
    ensures Sum(ws[i := x], f) + f(ws[i]) == Sum(ws, f) + f(x)
  {
    var n := |ws| - 1;
    if i == n {
      assert ws[i := x][..n] == ws[..n];
    } else {
      SumUpdate(ws[..n], i, x, f);
      assert ws[i := x][..n] == ws[..n][i := x];
    }
  }

  lemma {:induction false} SumBound(ws: seq<Worker>, f: Worker -> nat, each: nat)
    requires forall w | w in ws :: f(w) <= each
    ensures Sum(ws, f) <= each * |ws|
  {
    if ws != [] {
      SumBound(ws[..|ws| - 1], f, each);
    }
  }

  lemma {:induction false} SumZero(ws: seq<Worker>, f: Worker -> nat)
    requires forall w | w in ws :: f(w) == 0
    ensures Sum(ws, f) == 0
  {
    if ws != [] {
      SumZero(ws[..|ws| - 1], f);
    }
  }

  /** What a worker holds: a payload whose chain has not ended, has returned nil, or has failed. */
  datatype Hand = Nothing | Open(p: Payload) | Good(p: Payload) | Bad(p: Payload)

  function InHand(worker: Worker): Hand {
    match worker
    case Checking(p) => Open(p)
    case LookedUp(p) => Open(p)
    case Passed(p) => Open(p)
    case Approved(p) => Good(p)
    case Failed(p, _) => Bad(p)
    case Tallied(p, _) => Bad(p)
    case Rejected(p, _) => Bad(p)
    case _ => Nothing
  }

  function Approving(worker: Worker): multiset<Payload> {
    match InHand(worker) case Good(p) => multiset{p} case _ => multiset{}
  }

  function Failing(worker: Worker): multiset<Payload> {
    match InHand(worker) case Bad(p) => multiset{p} case _ => multiset{}
  }

  /** The payload that a worker holds. */
  function Holding(worker: Worker): multiset<Payload> {
    if InHand(worker).Nothing? then multiset{} else multiset{InHand(worker).p}
  }

  function Gather(ws: seq<Worker>, f: Worker -> multiset<Payload>): multiset<Payload> {
    if ws == [] then multiset{} else Gather(ws[..|ws| - 1], f) + f(ws[|ws| - 1])
  }

  function Held(ws: seq<Worker>): multiset<Payload> { Gather(ws, Holding) }

  lemma {:induction false} GatherNone(ws: seq<Worker>, f: Worker -> multiset<Payload>)
    requires forall w | w in ws :: f(w) == multiset{}
    ensures Gather(ws, f) == multiset{}
  {
    if ws != [] {
      GatherNone(ws[..|ws| - 1], f);
    }
  }

  lemma {:induction false} GatherCount(ws: seq<Worker>, f: Worker -> multiset<Payload>, g: Worker -> nat, x: Payload)
    requires forall w | w in ws :: f(w)[x] == g(w)
    ensures Gather(ws, f)[x] == Sum(ws, g)
  {
    if ws != [] {
      GatherCount(ws[..|ws| - 1], f, g, x);
    }
  }
}
