/** The results about whole runs of the pipeline: nothing is lost, batches are bounded, shutdown drains. */
module PipelineTheorems {
  import opened Outcomes
  import opened Pipeline
  import opened PipelineSafety
  import Batching

  /** What the batcher ever received, in order. */
  function Delivered(s: State): seq<Payload> { Batching.History(s.batcher) }

  // ---- Conservation ----

  lemma {:induction false} CopiesInMultiset<T>(xs: seq<T>, x: T)
    ensures multiset(xs)[x] == Copies(xs, x)
  {
    if xs != [] {
      CopiesInMultiset(xs[..|xs| - 1], x);
      assert xs == xs[..|xs| - 1] + [xs[|xs| - 1]];
    }
  }

  lemma {:induction false} CopiesJoin<T>(xs: seq<T>, ys: seq<T>, x: T)
    ensures Copies(xs + ys, x) == Copies(xs, x) + Copies(ys, x)
  {
    if ys == [] {
      assert xs + ys == xs;
    } else {
      assert (xs + ys)[..|xs + ys| - 1] == xs + ys[..|ys| - 1];
      CopiesJoin(xs, ys[..|ys| - 1], x);
    }
  }

  lemma {:induction false} HeldCount(ws: seq<Worker>, x: Payload)
    ensures Held(ws)[x] == Sum(ws, IsOpen(x)) + Sum(ws, IsGood(x)) + Sum(ws, IsBad(x))
  {
    if ws != [] {
      HeldCount(ws[..|ws| - 1], x);
    }
  }

  /** The count of one payload, in all the places where it can be. */
  lemma CountOne(c: Config, s: State, x: Payload)
    requires ChannelInv(c, s) && FlowInv(s, x)
    ensures Copies(s.accepted, x) ==
            Copies(s.queue, x) + Held(s.workers)[x] + Copies(s.batcher.buf, x)
            + Copies(Batching.Flatten(s.batcher.batches), x) + Copies(s.deadLetters, x)
  {
    CopiesJoin(s.dequeued, s.queue, x);
    CopiesJoin(Batching.Flatten(s.batcher.batches), s.batcher.buf, x);
    HeldCount(s.workers, x);
  }

  lemma SameCounts<T>(all: seq<T>, q: seq<T>, h: multiset<T>, f: seq<T>, b: seq<T>, d: seq<T>)
    requires forall x :: Copies(all, x) == Copies(q, x) + h[x] + Copies(f, x) + Copies(b, x) + Copies(d, x)
    ensures multiset(all) == multiset(q) + h + multiset(f) + multiset(b) + multiset(d)
  {
    forall x
      ensures multiset(all)[x] == (multiset(q) + h + multiset(f) + multiset(b) + multiset(d))[x]
    {
      assert Copies(all, x) == Copies(q, x) + h[x] + Copies(f, x) + Copies(b, x) + Copies(d, x);
      CopiesInMultiset(all, x);
      CopiesInMultiset(q, x);
      CopiesInMultiset(f, x);
      CopiesInMultiset(b, x);
      CopiesInMultiset(d, x);
    }
  }

  lemma TwoPlaces<T>(all: seq<T>, a: seq<T>, h: multiset<T>)
    requires forall x :: Copies(all, x) == Copies(a, x) + h[x]
    ensures multiset(all) == multiset(a) + h
  {
    forall x
      ensures multiset(all)[x] == (multiset(a) + h)[x]
    {
      assert Copies(all, x) == Copies(a, x) + h[x];
      CopiesInMultiset(all, x);
      CopiesInMultiset(a, x);
    }
  }

  /** What the chain let through reached the batcher, what it stopped the dead letters, up to the payloads in hand. */
  lemma SinksAgree(s: State)
    requires forall x :: FlowInv(s, x)
    ensures multiset(Chosen(s.judged, true)) == multiset(Delivered(s)) + Gather(s.workers, Approving)
    ensures multiset(Chosen(s.judged, false)) == multiset(s.deadLetters) + Gather(s.workers, Failing)
  {
    forall x
      ensures Copies(Chosen(s.judged, true), x) == Copies(Delivered(s), x) + Gather(s.workers, Approving)[x]
      ensures Copies(Chosen(s.judged, false), x) == Copies(s.deadLetters, x) + Gather(s.workers, Failing)[x]
    {
      assert FlowInv(s, x);
      GatherCount(s.workers, Approving, IsGood(x), x);
      GatherCount(s.workers, Failing, IsBad(x), x);
    }
    TwoPlaces(Chosen(s.judged, true), Delivered(s), Gather(s.workers, Approving));
    TwoPlaces(Chosen(s.judged, false), s.deadLetters, Gather(s.workers, Failing));
  }

  lemma Conserved(c: Config, s: State)
    requires ChannelInv(c, s) && forall x :: FlowInv(s, x)
    ensures multiset(s.accepted) ==
            multiset(s.queue) + Held(s.workers) + multiset(s.batcher.buf)
            + multiset(Batching.Flatten(s.batcher.batches)) + multiset(s.deadLetters)
  {
    forall x
      ensures Copies(s.accepted, x) ==
              Copies(s.queue, x) + Held(s.workers)[x] + Copies(s.batcher.buf, x)
              + Copies(Batching.Flatten(s.batcher.batches), x) + Copies(s.deadLetters, x)
    {
      assert FlowInv(s, x);
      CountOne(c, s, x);
    }
    SameCounts(s.accepted, s.queue, Held(s.workers), s.batcher.buf, Batching.Flatten(s.batcher.batches), s.deadLetters);
  }

  /** Under every schedule, the accepted payloads are the disjoint union of the channel, the workers' hands,
      the batcher's buffer, the drained batches and the dead letters. The payloads that the chain let through are
      those with the batcher or about to be added, and those it stopped are the dead letters or about to be pushed. */
  lemma {:induction false} Conservation(c: Config, start: real, acts: seq<Action>)
    requires ValidConfig(c) && IsRun(c, Init(c, start), acts)
    ensures
      var s := Exec(c, Init(c, start), acts);
      && multiset(s.accepted) ==
         multiset(s.queue) + Held(s.workers) + multiset(s.batcher.buf)
         + multiset(Batching.Flatten(s.batcher.batches)) + multiset(s.deadLetters)
      && multiset(Chosen(s.judged, true)) == multiset(Delivered(s)) + Gather(s.workers, Approving)
      && multiset(Chosen(s.judged, false)) == multiset(s.deadLetters) + Gather(s.workers, Failing)
  {
    var s := Exec(c, Init(c, start), acts);
    Reachable(c, start, acts);
    Conserved(c, s);
    SinksAgree(s);
  }

  /** First in, first out, and never more than the buffer size waiting. */
  lemma {:induction false} BoundedFifo(c: Config, start: real, acts: seq<Action>)
    requires ValidConfig(c) && IsRun(c, Init(c, start), acts)
    ensures
      var s := Exec(c, Init(c, start), acts);
      s.accepted == s.dequeued + s.queue && |s.queue| <= c.bufferSize
  {
    Reachable(c, start, acts);
  }

  // ---- Counters ----

  /** No worker is between receiving a payload and being done with it. */
  ghost predicate AtRest(ws: seq<Worker>) { forall w | w in ws :: w.Idle? || w.Exited? }

  lemma EmptyHands(ws: seq<Worker>)
    requires AtRest(ws)
    ensures Held(ws) == Gather(ws, Approving) == Gather(ws, Failing) == multiset{}
  {
    GatherNone(ws, Holding);
    GatherNone(ws, Approving);
    GatherNone(ws, Failing);
  }

  lemma Settled<T>(all: multiset<T>, q: multiset<T>, b: multiset<T>, f: multiset<T>, d: multiset<T>, bf: multiset<T>)
    requires all == q + multiset{} + b + f + d && bf == f + b
    ensures all == q + bf + d
  {
  }

  /** With the workers at rest, accepted = in the channel, delivered, or dead. */
  lemma AtRestSplit(c: Config, s: State)
    requires ChannelInv(c, s) && (forall x :: FlowInv(s, x)) && AtRest(s.workers)
    ensures multiset(s.accepted) == multiset(s.queue) + multiset(Delivered(s)) + multiset(s.deadLetters)
  {
    Conserved(c, s);
    EmptyHands(s.workers);
    MultisetJoin(Batching.Flatten(s.batcher.batches), s.batcher.buf);
    Settled(multiset(s.accepted), multiset(s.queue), multiset(s.batcher.buf),
            multiset(Batching.Flatten(s.batcher.batches)), multiset(s.deadLetters), multiset(Delivered(s)));
  }

  lemma MultisetJoin<T>(xs: seq<T>, ys: seq<T>)
    ensures multiset(xs + ys) == multiset(xs) + multiset(ys)
  {
  }

  lemma Sizes<T>(all: seq<T>, q: seq<T>, b: seq<T>, d: seq<T>)
    requires multiset(all) == multiset(q) + multiset(b) + multiset(d)
    ensures |all| == |q| + |b| + |d|
  {
    assert |multiset(all)| == |multiset(q)| + |multiset(b)| + |multiset(d)|;
  }

  /** In every state, a counter is short of what it counts by the goroutines caught between the event and the count;
      so once submitters have counted and workers are at rest, all of them agree with the payloads. */
  lemma {:induction false} CounterReconciliation(c: Config, start: real, acts: seq<Action>)
    requires ValidConfig(c) && IsRun(c, Init(c, start), acts)
    ensures
      var s := Exec(c, Init(c, start), acts);
      var k := s.counters;
      && k.ingested + |s.uncounted| == |s.accepted|
      && k.rejected <= Verdicts(s.judged, Err) && k.panics <= Verdicts(s.judged, Panic)
      && Verdicts(s.judged, Err) + Verdicts(s.judged, Panic) <= k.rejected + k.panics + c.workers
      && |s.deadLetters| <= k.enqueued <= k.rejected + k.panics <= |s.deadLetters| + c.workers
      && (AtRest(s.workers) ==>
            && k.enqueued == |s.deadLetters| == k.rejected + k.panics
            && k.rejected == Verdicts(s.judged, Err) && k.panics == Verdicts(s.judged, Panic)
            && k.ingested + |s.uncounted| == |Delivered(s)| + |s.deadLetters| + |s.queue|)
  {
    var s := Exec(c, Init(c, start), acts);
    Reachable(c, start, acts);
    CaughtAtMost(s.workers);
    if AtRest(s.workers) {
      RestingWorkers(s.workers);
      AtRestSplit(c, s);
      Sizes(s.accepted, s.queue, Delivered(s), s.deadLetters);
    }
  }

  /** A worker is caught between at most one event and its count. */
  lemma {:induction false} CaughtAtMost(ws: seq<Worker>)
    ensures Sum(ws, Untallied(Err)) + Sum(ws, Untallied(Panic)) + Sum(ws, Uncounted) + Sum(ws, Waiting) <= |ws|
  {
    if ws != [] {
      CaughtAtMost(ws[..|ws| - 1]);
    }
  }

  // ---- Batches ----

  /** The buffer holds at most maxSize - 1 items plus one per adder caught between seeing it full and draining it;
      so no batch is empty or larger than maxSize - 1 + workers, and with none caught the buffer is below maxSize. */
  lemma {:induction false} OvershootBound(c: Config, start: real, acts: seq<Action>)
    requires ValidConfig(c) && IsRun(c, Init(c, start), acts)
    ensures
      var s := Exec(c, Init(c, start), acts);
      && |s.batcher.buf| <= c.maxSize - 1 + Sum(s.workers, Pending)
      && (forall b | b in s.batcher.batches :: 1 <= |b| <= c.maxSize - 1 + c.workers)
      && ((forall w | w in s.workers :: !w.MustFlush?) ==> |s.batcher.buf| < c.maxSize)
  {
    var s := Exec(c, Init(c, start), acts);
    Reachable(c, start, acts);
    if forall w | w in s.workers :: !w.MustFlush? {
      SumZero(s.workers, Pending);
    }
  }

  /** A flush from outside leaves nothing in the buffer and loses nothing. */
  lemma FlushEmpties(c: Config, start: real, acts: seq<Action>)
    requires IsRun(c, Init(c, start), acts + [ExternalFlush]) && IsRun(c, Init(c, start), acts)
    ensures
      var s, t := Exec(c, Init(c, start), acts), Exec(c, Init(c, start), acts + [ExternalFlush]);
      && t.batcher.buf == [] && Delivered(t) == Delivered(s)
      && t.batcher.batches == s.batcher.batches + if s.batcher.buf == [] then [] else [s.batcher.buf]
  {
    assert (acts + [ExternalFlush])[..|acts|] == acts;
    Batching.DrainKeepsHistory(Exec(c, Init(c, start), acts).batcher);
  }

  // ---- Progress ----

  /** Steps left in a worker's current round, and one more to leave. */
  function Rank(worker: Worker): nat {
    match worker
    case Exited => 0
    case Idle => 1
    case MustFlush => 2
    case Rejected(_, _) => 2
    case Tallied(_, _) => 3
    case Failed(_, _) => 4
    case Approved(_) => 3
    case Passed(_) => 5
    case LookedUp(_) => 6
    case Checking(_) => 7
  }

  /** An upper bound on the worker steps still to come when no more payloads arrive. */
  function Remaining(s: State): nat { 7 * |s.queue| + Sum(s.workers, Rank) }

  lemma MoveDecreases(c: Config, s: State, w: nat, m: Move)
    requires w < |s.workers| && CanMove(c, s, w, m)
    ensures Remaining(Moved(c, s, w, m)) < Remaining(s)
  {
    var t := Moved(c, s, w, m);
    SumUpdate(s.workers, w, t.workers[w], Rank);
    assert t.workers == s.workers[w := t.workers[w]];
  }

  /** An upper bound on the worker steps until the k-th accepted payload has been taken, however many come after it. */
  function Wait(s: State, k: nat): int { 7 * (k + 1 - |s.dequeued|) + Sum(s.workers, Rank) }

  lemma MoveShortensWait(c: Config, s: State, w: nat, m: Move, k: nat)
    requires w < |s.workers| && CanMove(c, s, w, m)
    ensures Wait(Moved(c, s, w, m), k) < Wait(s, k)
    ensures s.dequeued <= Moved(c, s, w, m).dequeued
  {
    var t := Moved(c, s, w, m);
    SumUpdate(s.workers, w, t.workers[w], Rank);
    assert t.workers == s.workers[w := t.workers[w]];
  }

  lemma {:induction false} WaitShortens(c: Config, s: State, acts: seq<Action>, k: nat)
    requires IsRun(c, s, acts)
    ensures WorkSteps(acts) + Wait(Exec(c, s, acts), k) <= Wait(s, k)
    ensures s.accepted <= Exec(c, s, acts).accepted
  {
    if acts != [] {
      var front, a := acts[..|acts| - 1], acts[|acts| - 1];
      WaitShortens(c, s, front, k);
      if a.Work? {
        MoveShortensWait(c, Exec(c, s, front), a.w, a.move, k);
      }
    }
  }

  /** Bounded waiting: however the run goes on, and whoever else submits, an accepted payload has been taken by a worker
      once the workers have made 7 steps for each place in the channel and each worker. */
  lemma {:induction false} TakenInTime(c: Config, start: real, before: seq<Action>, after: seq<Action>, k: nat)
    requires ValidConfig(c) && IsRun(c, Init(c, start), before)
    requires IsRun(c, Exec(c, Init(c, start), before), after)
    requires k < |Exec(c, Init(c, start), before).accepted|
    requires WorkSteps(after) >= 7 * (c.bufferSize + c.workers)
    ensures
      var s := Exec(c, Init(c, start), before);
      var t := Exec(c, s, after);
      k < |t.dequeued| && t.dequeued[k] == s.accepted[k]
  {
    var s := Exec(c, Init(c, start), before);
    var t := Exec(c, s, after);
    Reachable(c, start, before);
    InvRun(c, s, after);
    WaitShortens(c, s, after, k);
    assert t.accepted[k] == s.accepted[k];
    if k >= |t.dequeued| {
      SumBound(s.workers, Rank, 7);
      assert false;
    }
  }

  function WorkSteps(acts: seq<Action>): nat {
    if acts == [] then 0 else WorkSteps(acts[..|acts| - 1]) + if acts[|acts| - 1].Work? then 1 else 0
  }

  // ---- Shutdown ----

  /** Once the channel is closed, every run takes at most Remaining worker steps, whatever else happens between them. */
  lemma {:induction false} ShutdownTerminates(c: Config, s: State, acts: seq<Action>)
    requires s.closed && IsRun(c, s, acts)
    ensures Exec(c, s, acts).closed
    ensures WorkSteps(acts) + Remaining(Exec(c, s, acts)) <= Remaining(s)
  {
    if acts != [] {
      var front, a := acts[..|acts| - 1], acts[|acts| - 1];
      ShutdownTerminates(c, s, front);
      if a.Work? {
        MoveDecreases(c, Exec(c, s, front), a.w, a.move);
      }
    }
  }

  /** After close no worker is ever stuck: until it has exited, it has a step. Before, none is stuck that has something
      in hand or something to take. */
  lemma LiveWorkerMoves(c: Config, s: State, w: nat) returns (m: Move)
    requires w < |s.workers| && !s.workers[w].Exited? && (s.closed || s.queue != [] || !s.workers[w].Idle?)
    requires s.workers[w].LookedUp? ==> c.limit.Some?
    ensures CanMove(c, s, w, m)
  {
    match s.workers[w]
    case Idle => m := if s.queue == [] then Exit else Receive;
    case Checking(_) => m := if c.limit.None? then Pass else LookUp;
    case LookedUp(_) => m := Ask;
    case Passed(_) => m := Pass;
    case Approved(_) => m := Append;
    case Failed(_, _) => m := Tally;
    case Tallied(_, _) => m := Enqueue;
    case Rejected(_, _) => m := Push;
    case MustFlush => m := Flush;
  }

  /** `wg.Wait` returns when every worker has exited. */
  ghost predicate WaitReturns(s: State) { forall i | 0 <= i < |s.workers| :: s.workers[i].Exited? }

  lemma DrainedWhenExited(c: Config, s: State)
    requires ValidConfig(c) && Inv(c, s) && WaitReturns(s)
    ensures s.closed && s.queue == [] && Held(s.workers) == multiset{}
    ensures multiset(s.accepted) == multiset(Delivered(s)) + multiset(s.deadLetters)
    ensures multiset(Delivered(s)) == multiset(Chosen(s.judged, true))
    ensures multiset(s.deadLetters) == multiset(Chosen(s.judged, false))
    ensures |s.batcher.buf| < c.maxSize && s.counters.enqueued == |s.deadLetters|
  {
    assert s.workers[0].Exited?;
    assert AtRest(s.workers);
    RestingWorkers(s.workers);
    EmptyHands(s.workers);
    AtRestSplit(c, s);
    SinksAgree(s);
  }

  /** When Shutdown returns, the channel is empty, no worker holds anything, and every accepted payload is with the
      batcher if its chain returned nil and in the dead letters otherwise, however many handlers failed or panicked. */
  lemma ShutdownDrains(c: Config, start: real, acts: seq<Action>)
    requires ValidConfig(c) && IsRun(c, Init(c, start), acts)
    requires WaitReturns(Exec(c, Init(c, start), acts))
    ensures
      var s := Exec(c, Init(c, start), acts);
      && s.closed && s.queue == [] && Held(s.workers) == multiset{}
      && multiset(s.accepted) == multiset(Delivered(s)) + multiset(s.deadLetters)
      && multiset(Delivered(s)) == multiset(Chosen(s.judged, true))
      && multiset(s.deadLetters) == multiset(Chosen(s.judged, false))
      && |s.batcher.buf| < c.maxSize
      && s.counters.enqueued == |s.deadLetters|
  {
    Reachable(c, start, acts);
    DrainedWhenExited(c, Exec(c, Init(c, start), acts));
  }

  /** From any reachable closed state, a run in which no worker can move any more has shut down completely. */
  lemma NothingEnabledMeansDone(c: Config, start: real, acts: seq<Action>)
    requires ValidConfig(c) && IsRun(c, Init(c, start), acts)
    ensures
      var s := Exec(c, Init(c, start), acts);
      s.closed ==> (WaitReturns(s) <==> forall w: nat, m: Move | w < |s.workers| :: !CanMove(c, s, w, m))
  {
    var s := Exec(c, Init(c, start), acts);
    Reachable(c, start, acts);
    if s.closed && !WaitReturns(s) {
      var i :| 0 <= i < |s.workers| && !s.workers[i].Exited?;
      var m := LiveWorkerMoves(c, s, i);
    }
  }

  /** From every closed state that keeps the invariant, the workers can finish on their own. */
  lemma {:induction false} WorkersFinish(c: Config, s: State) returns (acts: seq<Action>)
    requires ValidConfig(c) && Inv(c, s) && s.closed
    ensures IsRun(c, s, acts) && WaitReturns(Exec(c, s, acts))
    ensures forall a | a in acts :: a.Work?
    decreases Remaining(s)
  {
    if WaitReturns(s) {
      acts := [];
    } else {
      var i :| 0 <= i < |s.workers| && !s.workers[i].Exited?;
      var m := LiveWorkerMoves(c, s, i);
      var a := Work(i, m);
      OneStep(c, s, a);
      MoveDecreases(c, s, i, m);
      InvStep(c, s, a);
      var rest := WorkersFinish(c, Next(c, s, a));
      RunsCompose(c, s, [a], rest);
      acts := [a] + rest;
    }
  }

  // ---- One worker ----

  function OpenHand(worker: Worker): seq<Payload> { if InHand(worker).Open? then [InHand(worker).p] else [] }

  function GoodHand(worker: Worker): seq<Payload> { if InHand(worker).Good? then [InHand(worker).p] else [] }

  function BadHand(worker: Worker): seq<Payload> { if InHand(worker).Bad? then [InHand(worker).p] else [] }

  function JudgedPayloads(js: seq<Judgement>): seq<Payload> {
    seq(|js|, i requires 0 <= i < |js| => js[i].p)
  }

  ghost predicate LoneInv(s: State) {
    && |s.workers| == 1
    && s.dequeued == JudgedPayloads(s.judged) + OpenHand(s.workers[0])
    && Chosen(s.judged, true) == Delivered(s) + GoodHand(s.workers[0])
    && Chosen(s.judged, false) == s.deadLetters + BadHand(s.workers[0])
  }

  lemma LoneEnded(s: State, t: State, j: Judgement)
    requires LoneInv(s) && Ended(s, t, 0, j)
    ensures LoneInv(t)
  {
    ChosenSnoc(s.judged, j, true);
    ChosenSnoc(s.judged, j, false);
    assert JudgedPayloads(t.judged) == JudgedPayloads(s.judged) + [j.p];
  }

  lemma LoneMove(c: Config, s: State, m: Move)
    requires LoneInv(s) && CanMove(c, s, 0, m)
    ensures LoneInv(Moved(c, s, 0, m))
  {
    var t, me := Moved(c, s, 0, m), s.workers[0];
    if m.Fail? || m.Ask? || m.Pass? {
      ChainMoves(c, s, 0, m);
      if t.judged != s.judged {
        LoneEnded(s, t, Judgement(me.p, if m.Fail? then m.verdict else if m.Pass? then Ok else Err));
      }
    } else if m.Receive? || m.Append? || m.Push? {
      ChannelMoves(c, s, 0, m);
      if m.Append? {
        Batching.AppendExtendsHistory(s.batcher, me.p);
      }
    } else {
      OtherMoves(c, s, 0, m);
      Batching.DrainKeepsHistory(s.batcher);
    }
  }

  lemma LoneStep(c: Config, s: State, a: Action)
    requires LoneInv(s) && Enabled(c, s, a)
    ensures LoneInv(Next(c, s, a))
  {
    match a
    case Work(w, m) => LoneMove(c, s, m);
    case ExternalFlush => Batching.DrainKeepsHistory(s.batcher);
    case _ =>
  }

  lemma {:induction false} LoneRun(c: Config, start: real, acts: seq<Action>)
    requires c.workers == 1 && IsRun(c, Init(c, start), acts)
    ensures LoneInv(Exec(c, Init(c, start), acts))
  {
    if acts != [] {
      LoneRun(c, start, acts[..|acts| - 1]);
      LoneStep(c, Exec(c, Init(c, start), acts[..|acts| - 1]), acts[|acts| - 1]);
    } else {
      assert JudgedPayloads([]) == [];
    }
  }

  /** With one worker, payloads are judged in the order in which they were accepted, and what the batcher got and what
      the dead letters got are the two complementary selections from that order, up to the one payload in hand. */
  lemma {:induction false} LoneWorkerOrder(c: Config, start: real, acts: seq<Action>)
    requires ValidConfig(c) && c.workers == 1 && IsRun(c, Init(c, start), acts)
    ensures
      var s := Exec(c, Init(c, start), acts);
      && |s.workers| == 1
      && s.accepted == JudgedPayloads(s.judged) + OpenHand(s.workers[0]) + s.queue
      && Chosen(s.judged, true) == Delivered(s) + GoodHand(s.workers[0])
      && Chosen(s.judged, false) == s.deadLetters + BadHand(s.workers[0])
  {
    Reachable(c, start, acts);
    LoneRun(c, start, acts);
  }

  // ---- One worker and nobody else flushing ----

  /** The batcher once the worker is through with its flush. */
  function Flushed(s: State): Batching.State<Payload>
    requires |s.workers| == 1
  {
    if s.workers[0].MustFlush? then Batching.Drain(s.batcher) else s.batcher
  }

  ghost predicate ChunkInv(c: Config, s: State) {
    |s.workers| == 1 && Flushed(s) == Batching.AddAll(c.maxSize, Batching.Empty(), Delivered(s))
  }

  lemma ChunkMove(c: Config, s: State, m: Move)
    requires ChunkInv(c, s) && CanMove(c, s, 0, m)
    ensures ChunkInv(c, Moved(c, s, 0, m))
  {
    if m.Append? {
      var p := s.workers[0].p;
      Batching.AppendExtendsHistory(s.batcher, p);
      Batching.AddAllSnoc(c.maxSize, Batching.Empty(), Delivered(s), p);
    } else if m.Flush? {
      Batching.DrainKeepsHistory(s.batcher);
    }
  }

  lemma ChunkStep(c: Config, s: State, a: Action)
    requires ChunkInv(c, s) && Enabled(c, s, a) && !a.ExternalFlush?
    ensures ChunkInv(c, Next(c, s, a))
  {
    if a.Work? {
      ChunkMove(c, s, a.move);
    } else {
      assert Next(c, s, a).workers == s.workers && Next(c, s, a).batcher == s.batcher;
    }
  }

  lemma {:induction false} ChunkRun(c: Config, start: real, acts: seq<Action>)
    requires c.workers == 1 && IsRun(c, Init(c, start), acts) && ExternalFlush !in acts
    ensures ChunkInv(c, Exec(c, Init(c, start), acts))
  {
    if acts != [] {
      var front, a := acts[..|acts| - 1], acts[|acts| - 1];
      assert ExternalFlush !in front && a != ExternalFlush;
      ChunkRun(c, start, front);
      ChunkStep(c, Exec(c, Init(c, start), front), a);
    }
  }

  lemma ChunksOf(c: Config, s: State)
    requires ValidConfig(c) && ChunkInv(c, s) && LoneInv(s) && s.workers[0].Exited?
    ensures Delivered(s) == Chosen(s.judged, true)
    ensures s.batcher == Batching.AddAll(c.maxSize, Batching.Empty(), Delivered(s))
    ensures |s.batcher.buf| == |Delivered(s)| % c.maxSize
  {
    Batching.SequentialIsChunking(c.maxSize, Delivered(s));
  }

  /** One worker and no flush from outside: when Shutdown returns, the batches are the full chunks of what passed, in
      order, and the remainder is still in the buffer. So nothing is left behind if and only if the batch size divides
      the number of payloads that passed. */
  lemma {:induction false} LeftBehind(c: Config, start: real, acts: seq<Action>)
    requires ValidConfig(c) && c.workers == 1 && IsRun(c, Init(c, start), acts) && ExternalFlush !in acts
    requires WaitReturns(Exec(c, Init(c, start), acts))
    ensures
      var s := Exec(c, Init(c, start), acts);
      var passed := Chosen(s.judged, true);
      && s.batcher == Batching.AddAll(c.maxSize, Batching.Empty(), passed)
      && |s.batcher.buf| == |passed| % c.maxSize
      && (s.batcher.buf == [] <==> |passed| % c.maxSize == 0)
  {
    var s := Exec(c, Init(c, start), acts);
    ChunkRun(c, start, acts);
    LoneRun(c, start, acts);
    ChunksOf(c, s);
  }
}
