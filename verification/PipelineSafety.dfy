/** What every run of the pipeline keeps: order and capacity of the channel, one judgement per payload and the way
    from there into one of the sinks, the counters, and the size of batches. */
module PipelineSafety {
  import opened Outcomes
  import opened Pipeline
  import Batching

  // ---- Channel ----

  /** The channel is a bounded FIFO, a worker leaves only when it is closed and empty,
      and only a configured limiter is ever consulted. */
  ghost predicate ChannelInv(c: Config, s: State) {
    && |s.workers| == c.workers
    && |s.queue| <= c.bufferSize
    && s.accepted == s.dequeued + s.queue
    && (forall i | 0 <= i < |s.workers| && s.workers[i].Exited? :: s.closed && s.queue == [])
    && (forall i | 0 <= i < |s.workers| && s.workers[i].LookedUp? :: c.limit.Some?)
  }

  lemma ChannelMove(c: Config, s: State, w: nat, m: Move)
    requires ChannelInv(c, s) && w < |s.workers| && CanMove(c, s, w, m)
    ensures ChannelInv(c, Moved(c, s, w, m))
  {
    var t := Moved(c, s, w, m);
    assert t.workers == s.workers[w := t.workers[w]];
    if m.Receive? {
      assert [s.queue[0]] + s.queue[1..] == s.queue;
      assert t.accepted == t.dequeued + t.queue;
    }
  }

  lemma ChannelStep(c: Config, s: State, a: Action)
    requires ChannelInv(c, s) && Enabled(c, s, a)
    ensures ChannelInv(c, Next(c, s, a))
  {
    match a
    case Work(w, m) => ChannelMove(c, s, w, m);
    case _ =>
  }

  // ---- What one worker step does to the payloads ----

  ghost predicate Same(s: State, t: State) {
    s.dequeued == t.dequeued && s.judged == t.judged && s.deadLetters == t.deadLetters && s.batcher == t.batcher
  }

  /** Worker w has taken p from the channel. */
  ghost predicate Received(s: State, t: State, w: nat, p: Payload) {
    && w < |s.workers| && s.workers[w].Idle? && t.workers == s.workers[w := Checking(p)]
    && t.dequeued == s.dequeued + [p] && Same(s.(dequeued := t.dequeued), t)
  }

  /** The chain has ended with judgement j in worker w. */
  ghost predicate Ended(s: State, t: State, w: nat, j: Judgement) {
    && w < |s.workers| && (s.workers[w].Checking? || s.workers[w].LookedUp? || s.workers[w].Passed?)
    && s.workers[w].p == j.p
    && t.workers == s.workers[w := if j.verdict == Ok then Approved(j.p) else Failed(j.p, j.verdict)]
    && t.judged == s.judged + [j] && Same(s.(judged := t.judged), t)
  }

  /** Worker w has put p into the batcher's buffer. */
  ghost predicate Appended(s: State, t: State, w: nat, p: Payload) {
    && w < |s.workers| && s.workers[w] == Approved(p)
    && |t.workers| == |s.workers| && t.workers == s.workers[w := t.workers[w]]
    && (t.workers[w].Idle? || t.workers[w].MustFlush?)
    && t.batcher == Batching.Append(s.batcher, p) && Same(s.(batcher := t.batcher), t)
  }

  /** Worker w has put p into the dead letters. */
  ghost predicate Buried(s: State, t: State, w: nat, p: Payload) {
    && w < |s.workers| && s.workers[w].Rejected? && s.workers[w].p == p && t.workers == s.workers[w := Idle]
    && t.deadLetters == s.deadLetters + [p] && Same(s.(deadLetters := t.deadLetters), t)
  }

  /** Worker w holds what it held, and no payload has moved, except inside the batcher. */
  ghost predicate Stayed(s: State, t: State, w: nat) {
    && w < |s.workers| == |t.workers| && t.workers == s.workers[w := t.workers[w]]
    && InHand(t.workers[w]) == InHand(s.workers[w])
    && (t.batcher == s.batcher || t.batcher == Batching.Drain(s.batcher)) && Same(s.(batcher := t.batcher), t)
  }

  lemma ChainMoves(c: Config, s: State, w: nat, m: Move)
    requires w < |s.workers| && CanMove(c, s, w, m) && (m.Fail? || m.Ask? || m.Pass?)
    ensures
      var t, p := Moved(c, s, w, m), s.workers[w].p;
      match m
      case Fail(v) => Ended(s, t, w, Judgement(p, v)) && v != Ok
      case Pass => Ended(s, t, w, Judgement(p, Ok))
      case _ => if t.judged == s.judged then Stayed(s, t, w) else Ended(s, t, w, Judgement(p, Err))
  {
  }

  lemma ChannelMoves(c: Config, s: State, w: nat, m: Move)
    requires w < |s.workers| && CanMove(c, s, w, m) && (m.Receive? || m.Append? || m.Push?)
    ensures
      var t := Moved(c, s, w, m);
      if m.Receive? then Received(s, t, w, s.queue[0])
      else if m.Append? then Appended(s, t, w, s.workers[w].p)
      else Buried(s, t, w, s.workers[w].p)
  {
  }

  lemma OtherMoves(c: Config, s: State, w: nat, m: Move)
    requires w < |s.workers| && CanMove(c, s, w, m)
    requires m.LookUp? || m.Tally? || m.Enqueue? || m.Flush? || m.Exit?
    ensures Stayed(s, Moved(c, s, w, m), w)
  {
  }

  // ---- From the channel through the chain ----

  /** The payloads for which the chain returned nil (or, good = false, those for which it did not). */
  function Chosen(js: seq<Judgement>, good: bool): seq<Payload> {
    if js == [] then []
    else
      var j := js[|js| - 1];
      Chosen(js[..|js| - 1], good) + if (j.verdict == Ok) == good then [j.p] else []
  }

  lemma ChosenSnoc(js: seq<Judgement>, j: Judgement, good: bool)
    ensures Chosen(js + [j], good) == Chosen(js, good) + if (j.verdict == Ok) == good then [j.p] else []
  {
    assert (js + [j])[..|js|] == js;
  }

  /** How often x occurs in xs. */
  function Copies<T(==)>(xs: seq<T>, x: T): nat {
    if xs == [] then 0 else Copies(xs[..|xs| - 1], x) + if xs[|xs| - 1] == x then 1 else 0
  }

  // How many workers hold x, by how far they are with it.

  function IsOpen(x: Payload): Worker -> nat { (worker: Worker) => if InHand(worker) == Open(x) then 1 else 0 }

  function IsGood(x: Payload): Worker -> nat { (worker: Worker) => if InHand(worker) == Good(x) then 1 else 0 }

  function IsBad(x: Payload): Worker -> nat { (worker: Worker) => if InHand(worker) == Bad(x) then 1 else 0 }

  /** However often x was taken from the channel, so often was it judged or is it still being checked. */
  ghost predicate JudgedInv(s: State, x: Payload) {
    Copies(s.dequeued, x) ==
    Copies(Chosen(s.judged, true), x) + Copies(Chosen(s.judged, false), x) + Sum(s.workers, IsOpen(x))
  }

  /** What the chain let through is with the batcher or on its way there. */
  ghost predicate BatchedInv(s: State, x: Payload) {
    Copies(Chosen(s.judged, true), x) == Copies(Batching.History(s.batcher), x) + Sum(s.workers, IsGood(x))
  }

  /** What the chain stopped is in the dead letters or on its way there. */
  ghost predicate BuriedInv(s: State, x: Payload) {
    Copies(Chosen(s.judged, false), x) == Copies(s.deadLetters, x) + Sum(s.workers, IsBad(x))
  }

  ghost predicate FlowInv(s: State, x: Payload) { JudgedInv(s, x) && BatchedInv(s, x) && BuriedInv(s, x) }

  /** The three sums after worker w has become something else. */
  lemma HandsUpdate(ws: seq<Worker>, w: nat, becomes: Worker, x: Payload)
    requires w < |ws|
    ensures
      var ws' := ws[w := becomes];
      && Sum(ws', IsOpen(x)) == Sum(ws, IsOpen(x)) + IsOpen(x)(becomes) - IsOpen(x)(ws[w])
      && Sum(ws', IsGood(x)) == Sum(ws, IsGood(x)) + IsGood(x)(becomes) - IsGood(x)(ws[w])
      && Sum(ws', IsBad(x)) == Sum(ws, IsBad(x)) + IsBad(x)(becomes) - IsBad(x)(ws[w])
  {
    SumUpdate(ws, w, becomes, IsOpen(x));
    SumUpdate(ws, w, becomes, IsGood(x));
    SumUpdate(ws, w, becomes, IsBad(x));
  }

  lemma CountSnoc<T>(ys: seq<T>, y: T, x: T)
    ensures Copies(ys + [y], x) == Copies(ys, x) + if x == y then 1 else 0
  {
    assert (ys + [y])[..|ys|] == ys;
  }

  lemma FlowReceived(s: State, t: State, w: nat, p: Payload, x: Payload)
    requires FlowInv(s, x) && Received(s, t, w, p)
    ensures FlowInv(t, x)
  {
    HandsUpdate(s.workers, w, Checking(p), x);
    CountSnoc(s.dequeued, p, x);
  }

  lemma ChosenCount(js: seq<Judgement>, j: Judgement, good: bool, x: Payload)
    ensures Copies(Chosen(js + [j], good), x) ==
            Copies(Chosen(js, good), x) + if (j.verdict == Ok) == good && x == j.p then 1 else 0
  {
    ChosenSnoc(js, j, good);
    if (j.verdict == Ok) == good {
      CountSnoc(Chosen(js, good), j.p, x);
    } else {
      assert Chosen(js + [j], good) == Chosen(js, good);
    }
  }

  lemma EndedHands(s: State, t: State, w: nat, j: Judgement, x: Payload)
    requires Ended(s, t, w, j)
    ensures
      var one, good := if x == j.p then 1 else 0, j.verdict == Ok;
      && Sum(t.workers, IsOpen(x)) + one == Sum(s.workers, IsOpen(x))
      && Sum(t.workers, IsGood(x)) == Sum(s.workers, IsGood(x)) + (if good then one else 0)
      && Sum(t.workers, IsBad(x)) == Sum(s.workers, IsBad(x)) + if good then 0 else one
  {
    HandsUpdate(s.workers, w, t.workers[w], x);
  }

  lemma FlowEnded(s: State, t: State, w: nat, j: Judgement, x: Payload)
    requires FlowInv(s, x) && Ended(s, t, w, j)
    ensures FlowInv(t, x)
  {
    EndedHands(s, t, w, j, x);
    ChosenCount(s.judged, j, true, x);
    ChosenCount(s.judged, j, false, x);
  }

  lemma FlowAppended(s: State, t: State, w: nat, p: Payload, x: Payload)
    requires FlowInv(s, x) && Appended(s, t, w, p)
    ensures FlowInv(t, x)
  {
    HandsUpdate(s.workers, w, t.workers[w], x);
    HistorySnoc(s.batcher, p, x);
  }

  lemma HistorySnoc(b: Batching.State<Payload>, p: Payload, x: Payload)
    ensures Copies(Batching.History(Batching.Append(b, p)), x) ==
            Copies(Batching.History(b), x) + if x == p then 1 else 0
  {
    Batching.AppendExtendsHistory(b, p);
    CountSnoc(Batching.History(b), p, x);
  }

  lemma FlowBuried(s: State, t: State, w: nat, p: Payload, x: Payload)
    requires FlowInv(s, x) && Buried(s, t, w, p)
    ensures FlowInv(t, x)
  {
    HandsUpdate(s.workers, w, Idle, x);
    CountSnoc(s.deadLetters, p, x);
  }

  lemma FlowStayed(s: State, t: State, w: nat, x: Payload)
    requires FlowInv(s, x) && Stayed(s, t, w)
    ensures FlowInv(t, x)
  {
    HandsUpdate(s.workers, w, t.workers[w], x);
    Batching.DrainKeepsHistory(s.batcher);
  }

  lemma FlowMove(c: Config, s: State, w: nat, m: Move, x: Payload)
    requires FlowInv(s, x) && w < |s.workers| && CanMove(c, s, w, m)
    ensures FlowInv(Moved(c, s, w, m), x)
  {
    var t, me := Moved(c, s, w, m), s.workers[w];
    if m.Fail? || m.Ask? || m.Pass? {
      ChainMoves(c, s, w, m);
      if t.judged == s.judged {
        FlowStayed(s, t, w, x);
      } else {
        FlowEnded(s, t, w, Judgement(me.p, if m.Fail? then m.verdict else if m.Pass? then Ok else Err), x);
      }
    } else if m.Receive? || m.Append? || m.Push? {
      ChannelMoves(c, s, w, m);
      match m
      case Receive => FlowReceived(s, t, w, s.queue[0], x);
      case Append => FlowAppended(s, t, w, me.p, x);
      case Push => FlowBuried(s, t, w, me.p, x);
    } else {
      OtherMoves(c, s, w, m);
      FlowStayed(s, t, w, x);
    }
  }

  lemma FlowStep(c: Config, s: State, a: Action, x: Payload)
    requires FlowInv(s, x) && Enabled(c, s, a)
    ensures FlowInv(Next(c, s, a), x)
  {
    match a
    case Work(w, m) => FlowMove(c, s, w, m, x);
    case ExternalFlush => Batching.DrainKeepsHistory(s.batcher);
    case _ =>
  }

  // ---- Counters ----

  function Untallied(verdict: Verdict): Worker -> nat {
    (worker: Worker) => if worker.Failed? && worker.verdict == verdict then 1 else 0
  }

  function Uncounted(worker: Worker): nat { if worker.Tallied? then 1 else 0 }

  function Waiting(worker: Worker): nat { if worker.Rejected? then 1 else 0 }

  function Verdicts(js: seq<Judgement>, verdict: Verdict): nat {
    if js == [] then 0
    else Verdicts(js[..|js| - 1], verdict) + if js[|js| - 1].verdict == verdict then 1 else 0
  }

  /** Each counter lags behind the event that it counts by the workers caught in between. */
  ghost predicate CountersInv(s: State) {
    && s.counters.rejected + Sum(s.workers, Untallied(Err)) == Verdicts(s.judged, Err)
    && s.counters.panics + Sum(s.workers, Untallied(Panic)) == Verdicts(s.judged, Panic)
    && s.counters.enqueued + Sum(s.workers, Uncounted) == s.counters.rejected + s.counters.panics
    && s.counters.enqueued == |s.deadLetters| + Sum(s.workers, Waiting)
    && forall i | 0 <= i < |s.workers| && s.workers[i].Failed? :: s.workers[i].verdict != Ok
  }

  lemma VerdictsSnoc(js: seq<Judgement>, j: Judgement, verdict: Verdict)
    ensures Verdicts(js + [j], verdict) == Verdicts(js, verdict) + if j.verdict == verdict then 1 else 0
  {
    assert (js + [j])[..|js|] == js;
  }

  lemma JudgedTally(s: State, t: State, w: nat, j: Judgement, verdict: Verdict)
    requires Ended(s, t, w, j) && verdict != Ok
    ensures Sum(t.workers, Untallied(verdict)) + Verdicts(s.judged, verdict) ==
            Sum(s.workers, Untallied(verdict)) + Verdicts(t.judged, verdict)
  {
    SumUpdate(s.workers, w, t.workers[w], Untallied(verdict));
    VerdictsSnoc(s.judged, j, verdict);
  }

  lemma TalliesMove(c: Config, s: State, w: nat, m: Move, verdict: Verdict)
    requires w < |s.workers| && CanMove(c, s, w, m) && verdict != Ok
    ensures
      var t := Moved(c, s, w, m);
      var tallied := if m.Tally? && s.workers[w].verdict == verdict then 1 else 0;
      Sum(t.workers, Untallied(verdict)) + Verdicts(s.judged, verdict) + tallied
      == Sum(s.workers, Untallied(verdict)) + Verdicts(t.judged, verdict)
  {
    var t, me := Moved(c, s, w, m), s.workers[w];
    if t.judged != s.judged {
      ChainMoves(c, s, w, m);
      JudgedTally(s, t, w, Judgement(me.p, if m.Fail? then m.verdict else if m.Pass? then Ok else Err), verdict);
    } else {
      assert t.workers == s.workers[w := t.workers[w]];
      SumUpdate(s.workers, w, t.workers[w], Untallied(verdict));
    }
  }

  lemma EnqueuedMove(c: Config, s: State, w: nat, m: Move)
    requires w < |s.workers| && CanMove(c, s, w, m)
    ensures
      var t := Moved(c, s, w, m);
      var tallied, enqueued, pushed := if m.Tally? then 1 else 0, if m.Enqueue? then 1 else 0, if m.Push? then 1 else 0;
      && Sum(t.workers, Uncounted) + enqueued == Sum(s.workers, Uncounted) + tallied
      && Sum(t.workers, Waiting) + pushed == Sum(s.workers, Waiting) + enqueued
  {
    var t := Moved(c, s, w, m);
    assert t.workers == s.workers[w := t.workers[w]];
    SumUpdate(s.workers, w, t.workers[w], Uncounted);
    SumUpdate(s.workers, w, t.workers[w], Waiting);
  }

  lemma CountersMove(c: Config, s: State, w: nat, m: Move)
    requires CountersInv(s) && w < |s.workers| && CanMove(c, s, w, m)
    ensures CountersInv(Moved(c, s, w, m))
  {
    TalliesMove(c, s, w, m, Err);
    TalliesMove(c, s, w, m, Panic);
    EnqueuedMove(c, s, w, m);
  }

  lemma CountersStep(c: Config, s: State, a: Action)
    requires CountersInv(s) && Enabled(c, s, a)
    ensures CountersInv(Next(c, s, a))
  {
    if a.Work? {
      CountersMove(c, s, a.w, a.move);
    }
  }

  /** Every accepted payload is counted as ingested once: it has been, or its submitter still has to. */
  ghost predicate IngestedInv(s: State) {
    && s.counters.ingested + |s.uncounted| == |s.accepted|
    && forall k | k in s.uncounted :: k < |s.accepted|
  }

  lemma IngestedStep(c: Config, s: State, a: Action)
    requires IngestedInv(s) && Enabled(c, s, a)
    ensures IngestedInv(Next(c, s, a))
  {
    match a
    case Submit(_) =>
      if Accepts(c, s) {
        OneMoreIn(s.uncounted, |s.accepted|);
      }
    case CountIngested(slot) => OneFewerIn(s.uncounted, slot);
    case Work(w, m) => MoveIngestsNothing(c, s, w, m);
    case _ =>
  }

  lemma OneMoreIn(xs: set<nat>, x: nat)
    requires x !in xs
    ensures |xs + {x}| == |xs| + 1
  {
  }

  lemma OneFewerIn(xs: set<nat>, x: nat)
    requires x in xs
    ensures |xs - {x}| == |xs| - 1
  {
  }

  lemma MoveIngestsNothing(c: Config, s: State, w: nat, m: Move)
    requires w < |s.workers| && CanMove(c, s, w, m)
    ensures
      var t := Moved(c, s, w, m);
      && t.counters.ingested == s.counters.ingested && t.uncounted == s.uncounted && t.accepted == s.accepted
  {
  }

  // ---- Batch size ----

  function Pending(worker: Worker): nat { if worker.MustFlush? then 1 else 0 }

  /** The buffer exceeds maxSize - 1 by at most one item per adder that saw it full and has not drained it. */
  ghost predicate BatchInv(c: Config, s: State) {
    && |s.batcher.buf| <= c.maxSize - 1 + Sum(s.workers, Pending)
    && (forall b | b in s.batcher.batches :: 1 <= |b| <= c.maxSize - 1 + c.workers)
  }

  lemma BatchStep(c: Config, s: State, a: Action)
    requires ValidConfig(c) && |s.workers| == c.workers && BatchInv(c, s) && Enabled(c, s, a)
    ensures BatchInv(c, Next(c, s, a))
  {
    SumBound(s.workers, Pending, 1);
    match a
    case Work(w, m) =>
      var t := Moved(c, s, w, m);
      SumUpdate(s.workers, w, t.workers[w], Pending);
    case _ =>
  }

  // ---- All runs ----

  ghost predicate Inv(c: Config, s: State) {
    ChannelInv(c, s) && (forall x :: FlowInv(s, x)) && CountersInv(s) && IngestedInv(s) && BatchInv(c, s)
  }

  /** Workers without a payload or an unfinished flush add nothing to any sum. */
  lemma RestingWorkers(ws: seq<Worker>)
    requires forall w | w in ws :: w.Idle? || w.Exited?
    ensures Sum(ws, Untallied(Err)) == Sum(ws, Untallied(Panic)) == 0
    ensures Sum(ws, Uncounted) == Sum(ws, Waiting) == Sum(ws, Pending) == 0
  {
    SumZero(ws, Untallied(Err));
    SumZero(ws, Untallied(Panic));
    SumZero(ws, Uncounted);
    SumZero(ws, Waiting);
    SumZero(ws, Pending);
  }

  lemma RestingHands(ws: seq<Worker>, x: Payload)
    requires forall w | w in ws :: w.Idle? || w.Exited?
    ensures Sum(ws, IsOpen(x)) == Sum(ws, IsGood(x)) == Sum(ws, IsBad(x)) == 0
  {
    SumZero(ws, IsOpen(x));
    SumZero(ws, IsGood(x));
    SumZero(ws, IsBad(x));
  }

  lemma InvInit(c: Config, start: real)
    requires ValidConfig(c)
    ensures Inv(c, Init(c, start))
  {
    var s := Init(c, start);
    RestingWorkers(s.workers);
    forall x
      ensures FlowInv(s, x)
    {
      RestingHands(s.workers, x);
    }
  }

  lemma {:induction false} InvRun(c: Config, s: State, acts: seq<Action>)
    requires ValidConfig(c) && Inv(c, s) && IsRun(c, s, acts)
    ensures Inv(c, Exec(c, s, acts))
  {
    if acts != [] {
      var front, a := acts[..|acts| - 1], acts[|acts| - 1];
      InvRun(c, s, front);
      var mid := Exec(c, s, front);
      InvStep(c, mid, a);
    }
  }

  lemma InvStep(c: Config, s: State, a: Action)
    requires ValidConfig(c) && Inv(c, s) && Enabled(c, s, a)
    ensures Inv(c, Next(c, s, a))
  {
    ChannelStep(c, s, a);
    forall x
      ensures FlowInv(Next(c, s, a), x)
    {
      FlowStep(c, s, a, x);
    }
    CountersStep(c, s, a);
    IngestedStep(c, s, a);
    BatchStep(c, s, a);
  }

  lemma {:induction false} Reachable(c: Config, start: real, acts: seq<Action>)
    requires ValidConfig(c) && IsRun(c, Init(c, start), acts)
    ensures Inv(c, Exec(c, Init(c, start), acts))
  {
    InvInit(c, start);
    InvRun(c, Init(c, start), acts);
  }
}
