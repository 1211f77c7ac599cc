/** The dispatcher object: the bounded channel, and the code of one worker as it stands in the source.
    With a single worker draining is deterministic, and its outcome is one that the step system reaches. */
module Dispatching {
  import opened Outcomes
  import opened HandlerChain
  import opened Pipeline
  import Batching
  import DeadLetter
  import Utf8

  /** The chain's answer to p after it has worked through `before`. */
  function VerdictAfter<S>(hs: seq<Handler<S>>, st: S, before: seq<Payload>, p: Payload): Verdict {
    RunHandlers(hs, ChainState(hs, st, before), p.source, p.data).0
  }

  /** What the handlers keep after the chain has worked through ps. */
  function ChainState<S>(hs: seq<Handler<S>>, st: S, ps: seq<Payload>): S {
    if ps == [] then st
    else
      var p := ps[|ps| - 1];
      RunHandlers(hs, ChainState(hs, st, ps[..|ps| - 1]), p.source, p.data).1
  }

  /** The payloads for which the chain returns nil (or, good = false, those for which it does not), in order. */
  function Sorted<S>(hs: seq<Handler<S>>, st: S, ps: seq<Payload>, good: bool): seq<Payload> {
    if ps == [] then []
    else
      var before, p := ps[..|ps| - 1], ps[|ps| - 1];
      Sorted(hs, st, before, good) + if (VerdictAfter(hs, st, before, p) == Ok) == good then [p] else []
  }

  /** The counters after a payload with this verdict. */
  function Counted(k: Counters, v: Verdict): Counters {
    if v == Ok then k else Count(k, v).(enqueued := k.enqueued + 1)
  }

  function AllCounted<S>(hs: seq<Handler<S>>, st: S, ps: seq<Payload>, k: Counters): Counters {
    if ps == [] then k
    else
      var before, p := ps[..|ps| - 1], ps[|ps| - 1];
      Counted(AllCounted(hs, st, before, k), VerdictAfter(hs, st, before, p))
  }

  /** What the environment adds to a dead letter: the error text, the time, and how much of the line gets written. */
  datatype Note = Note(reason: string, now: string, wrote: nat)

  /** An entry keeps the source and the raw bytes of its payload. */
  ghost predicate RecordOf(e: DeadLetter.Entry, p: Payload) {
    e.source == p.source && e.raw == Some(Utf8.EncodeText(p.data))
  }

  /** The queue has grown by one entry for each of the payloads, in order. */
  ghost predicate Recorded(before: seq<DeadLetter.Entry>, after: seq<DeadLetter.Entry>, ps: seq<Payload>) {
    && |after| == |before| + |ps|
    && after[..|before|] == before
    && forall i | 0 <= i < |ps| :: RecordOf(after[|before| + i], ps[i])
  }

  class Dispatcher<S> {
    const cfg: Config
    const chain: Chain<S>
    const bat: Batching.Batcher<Payload>
    const sink: DeadLetter.Queue
    var buf: seq<Payload>
    var closed: bool
    var counters: Counters // of the metrics registry

    constructor (cfg: Config, chain: Chain<S>, bat: Batching.Batcher<Payload>, sink: DeadLetter.Queue)
      ensures this.cfg == cfg && this.chain == chain && this.bat == bat && this.sink == sink
      ensures buf == [] && !closed && counters == Counters(0, 0, 0, 0)
    {
      this.cfg := cfg;
      this.chain := chain;
      this.bat := bat;
      this.sink := sink;
      buf := [];
      closed := false;
      counters := Counters(0, 0, 0, 0);
    }

    /** Never blocks: a full channel refuses the payload and stays as it is. */
    method Submit(p: Payload) returns (ok: bool)
      requires !closed
      modifies this`buf
      ensures ok <==> |old(buf)| < cfg.bufferSize
      ensures buf == if ok then old(buf) + [p] else old(buf)
    {
      if |buf| < cfg.bufferSize {
        buf := buf + [p];
        return true;
      }
      return false;
    }

    /** Called by the submitters, once `Submit` has returned true. */
    method CountIngested()
      modifies this`counters
      ensures counters == old(counters).(ingested := old(counters).ingested + 1)
    {
      counters := counters.(ingested := counters.ingested + 1);
    }

    /** One payload: nil goes to the batcher; an error or a recovered panic is counted and goes to the dead letters. */
    method ProcessOne(p: Payload, note: Note)
      modifies this`counters, chain, bat, sink
      ensures
        var (v, st) := RunHandlers(chain.handlers, old(chain.state), p.source, p.data);
        && chain.state == st && counters == Counted(old(counters), v)
        && if v == Ok then
             && bat.View() == Batching.AddOne(bat.maxSize, old(bat.View()), p)
             && sink.View() == old(sink.View()) && sink.pushed == old(sink.pushed)
           else
             && bat.View() == old(bat.View())
             && var e := DeadLetter.Entry(note.now, p.source, note.reason, Some(Utf8.EncodeText(p.data)));
                && sink.View() == DeadLetter.Pushes(old(sink.View()), e, note.wrote)
                && sink.pushed == old(sink.pushed) + [e]
    {
      var v := chain.Run(p.source, p.data);
      if v != Ok {
        if v == Panic {
          counters := counters.(panics := counters.panics + 1);
        } else {
          counters := counters.(rejected := counters.rejected + 1);
        }
        counters := counters.(enqueued := counters.enqueued + 1);
        sink.Push(p.source, note.reason, Some(Utf8.EncodeText(p.data)), note.now, note.wrote);
        return;
      }
      bat.Add(p);
    }

    /** The range loop of the only worker after the channel was closed. */
    method Process(notes: seq<Note>)
      requires closed && |notes| == |buf|
      modifies this`buf, this`counters, chain, bat, sink
      ensures buf == [] && chain.state == ChainState(chain.handlers, old(chain.state), old(buf))
      ensures
        var hs, st := chain.handlers, old(chain.state);
        && bat.View() == Batching.AddAll(bat.maxSize, old(bat.View()), Sorted(hs, st, old(buf), true))
        && Recorded(old(sink.pushed), sink.pushed, Sorted(hs, st, old(buf), false))
        && counters == AllCounted(hs, st, old(buf), old(counters))
    {
      ghost var all, before, batches, k := buf, sink.pushed, bat.View(), counters;
      ghost var hs, st := chain.handlers, chain.state;
      var i := 0;
      while buf != []
        invariant i + |buf| == |all| && all[i..] == buf
        invariant chain.state == ChainState(hs, st, all[..i]) && counters == AllCounted(hs, st, all[..i], k)
        invariant bat.View() == Batching.AddAll(bat.maxSize, batches, Sorted(hs, st, all[..i], true))
        invariant Recorded(before, sink.pushed, Sorted(hs, st, all[..i], false))
        decreases |buf|
      {
        var p := buf[0];
        buf := buf[1..];
        ghost var done, pushed := all[..i], sink.pushed;
        assert all[..i + 1] == done + [p];
        ProcessOne(p, notes[i]);
        StateFollows(hs, st, done, p, k);
        BatchesFollow(hs, st, bat.maxSize, batches, done, p);
        RecordsFollow(hs, st, before, pushed, sink.pushed, done, p);
        i := i + 1;
      }
      assert all[..i] == all;
    }

    /** Close, then wait for the worker. */
    method Shutdown(notes: seq<Note>)
      requires !closed && |notes| == |buf|
      modifies this, chain, bat, sink
      ensures buf == [] && closed && chain.state == ChainState(chain.handlers, old(chain.state), old(buf))
      ensures
        var hs, st := chain.handlers, old(chain.state);
        && bat.View() == Batching.AddAll(bat.maxSize, old(bat.View()), Sorted(hs, st, old(buf), true))
        && Recorded(old(sink.pushed), sink.pushed, Sorted(hs, st, old(buf), false))
        && counters == AllCounted(hs, st, old(buf), old(counters))
    {
      closed := true;
      Process(notes);
    }
  }

  /** Nothing of a rejected payload is lost in the file: reading an entry's line back gives its source and its data. */
  lemma RejectedPayloadRecovered(e: DeadLetter.Entry, p: Payload)
    requires RecordOf(e, p)
    ensures
      var read := DeadLetter.ReadEntry(DeadLetter.EntryText(e));
      && read.Some? && read.value.source == p.source && read.value.raw.Some?
      && Utf8.DecodeText(read.value.raw.value) == Some(p.data)
  {
    DeadLetter.EntryRoundTrip(e);
    Utf8.TextRoundTrip(p.data);
  }

  lemma StateFollows<S>(hs: seq<Handler<S>>, st: S, done: seq<Payload>, p: Payload, k: Counters)
    ensures
      var (v, after) := RunHandlers(hs, ChainState(hs, st, done), p.source, p.data);
      && VerdictAfter(hs, st, done, p) == v
      && ChainState(hs, st, done + [p]) == after
      && AllCounted(hs, st, done + [p], k) == Counted(AllCounted(hs, st, done, k), v)
  {
    assert (done + [p])[..|done|] == done;
  }

  lemma SortedSnoc<S>(hs: seq<Handler<S>>, st: S, ps: seq<Payload>, p: Payload, good: bool)
    ensures Sorted(hs, st, ps + [p], good) ==
            Sorted(hs, st, ps, good) + if (VerdictAfter(hs, st, ps, p) == Ok) == good then [p] else []
  {
    assert (ps + [p])[..|ps|] == ps;
  }

  lemma BatchesFollow<S>(hs: seq<Handler<S>>, st: S, maxSize: int, b: Batching.State<Payload>,
                         done: seq<Payload>, p: Payload)
    ensures
      var before := Batching.AddAll(maxSize, b, Sorted(hs, st, done, true));
      Batching.AddAll(maxSize, b, Sorted(hs, st, done + [p], true)) ==
      if VerdictAfter(hs, st, done, p) == Ok then Batching.AddOne(maxSize, before, p) else before
  {
    SortedSnoc(hs, st, done, p, true);
    AddAllMaybe(maxSize, b, Sorted(hs, st, done, true), p, VerdictAfter(hs, st, done, p) == Ok);
  }

  lemma AddAllMaybe(maxSize: int, b: Batching.State<Payload>, xs: seq<Payload>, x: Payload, more: bool)
    ensures
      var before := Batching.AddAll(maxSize, b, xs);
      Batching.AddAll(maxSize, b, xs + if more then [x] else []) ==
      if more then Batching.AddOne(maxSize, before, x) else before
  {
    Batching.AddAllSnoc(maxSize, b, xs, x);
    assert xs + [] == xs;
  }

  lemma RecordsFollow<S>(hs: seq<Handler<S>>, st: S, before: seq<DeadLetter.Entry>, mid: seq<DeadLetter.Entry>,
                         after: seq<DeadLetter.Entry>, done: seq<Payload>, p: Payload)
    requires Recorded(before, mid, Sorted(hs, st, done, false))
    requires
      if VerdictAfter(hs, st, done, p) == Ok then after == mid
      else |after| == |mid| + 1 && after[..|mid|] == mid && RecordOf(after[|mid|], p)
    ensures Recorded(before, after, Sorted(hs, st, done + [p], false))
  {
    SortedSnoc(hs, st, done, p, false);
  }

  // ---- The loop's outcome is one of the step system's ----

  /** What the steps of one payload change. */
  ghost predicate Handled(c: Config, s: State, t: State, v: Verdict, p: Payload) {
    && t.workers == [Idle] && t.closed == s.closed && t.queue == s.queue
    && t.counters == Counted(s.counters, v)
    && t.batcher == (if v == Ok then Batching.AddOne(c.maxSize, s.batcher, p) else s.batcher)
    && t.deadLetters == s.deadLetters + if v == Ok then [] else [p]
  }

  lemma GoodPayload(c: Config, s: State, p: Payload) returns (acts: seq<Action>)
    requires c.limit.None? && s.workers == [Checking(p)]
    ensures IsRun(c, s, acts) && Handled(c, s, Exec(c, s, acts), Ok, p)
  {
    OneStep(c, s, Work(0, Pass));
    Extend(c, s, [Work(0, Pass)], Work(0, Append));
    acts := [Work(0, Pass)] + [Work(0, Append)];
    if Batching.IsFull(c.maxSize, Batching.Append(s.batcher, p)) {
      Extend(c, s, acts, Work(0, Flush));
      acts := acts + [Work(0, Flush)];
    }
  }

  lemma BadPayload(c: Config, s: State, p: Payload, v: Verdict) returns (acts: seq<Action>)
    requires s.workers == [Checking(p)] && v != Ok
    ensures IsRun(c, s, acts) && Handled(c, s, Exec(c, s, acts), v, p)
  {
    OneStep(c, s, Work(0, Fail(v)));
    Extend(c, s, [Work(0, Fail(v))], Work(0, Tally));
    acts := [Work(0, Fail(v))] + [Work(0, Tally)];
    Extend(c, s, acts, Work(0, Enqueue));
    acts := acts + [Work(0, Enqueue)];
    Extend(c, s, acts, Work(0, Push));
    acts := acts + [Work(0, Push)];
  }

  /** One payload through the chain of a lone worker, from receipt to rest, with any verdict. */
  lemma OnePayload(c: Config, s: State, v: Verdict) returns (acts: seq<Action>)
    requires c.limit.None? && s.workers == [Idle] && s.queue != []
    ensures IsRun(c, s, acts) && Handled(c, s.(queue := s.queue[1..]), Exec(c, s, acts), v, s.queue[0])
  {
    OneStep(c, s, Work(0, Receive));
    var p, held := s.queue[0], Next(c, s, Work(0, Receive));
    var rest;
    if v == Ok {
      rest := GoodPayload(c, held, p);
    } else {
      rest := BadPayload(c, held, p, v);
    }
    RunsCompose(c, s, [Work(0, Receive)], rest);
    acts := [Work(0, Receive)] + rest;
  }

  /** The state once the lone worker is through with the first n payloads. */
  ghost predicate Through<S>(c: Config, s: State, hs: seq<Handler<S>>, st: S, n: nat, t: State)
    requires n <= |s.queue|
  {
    var done := s.queue[..n];
    && t.workers == [Idle] && t.closed == s.closed && t.queue == s.queue[n..]
    && t.counters == AllCounted(hs, st, done, s.counters)
    && t.batcher == Batching.AddAll(c.maxSize, s.batcher, Sorted(hs, st, done, true))
    && t.deadLetters == s.deadLetters + Sorted(hs, st, done, false)
  }

  lemma ThroughNext<S>(c: Config, s: State, hs: seq<Handler<S>>, st: S, n: nat, mid: State, t: State)
    requires n < |s.queue| && Through(c, s, hs, st, n, mid)
    requires
      Handled(c, mid.(queue := mid.queue[1..]), t, VerdictAfter(hs, st, s.queue[..n], s.queue[n]), s.queue[n])
    ensures Through(c, s, hs, st, n + 1, t)
  {
    var done, p := s.queue[..n], s.queue[n];
    assert s.queue[..n + 1] == done + [p];
    StateFollows(hs, st, done, p, s.counters);
    BatchesFollow(hs, st, c.maxSize, s.batcher, done, p);
    SortedSnoc(hs, st, done, p, false);
  }

  lemma {:induction false} FirstPayloads<S>(c: Config, s: State, hs: seq<Handler<S>>, st: S, n: nat)
    returns (acts: seq<Action>)
    requires c.limit.None? && s.workers == [Idle] && n <= |s.queue|
    ensures IsRun(c, s, acts) && Through(c, s, hs, st, n, Exec(c, s, acts))
  {
    if n == 0 {
      acts := [];
    } else {
      var first := FirstPayloads(c, s, hs, st, n - 1);
      var mid := Exec(c, s, first);
      var next := OnePayload(c, mid, VerdictAfter(hs, st, s.queue[..n - 1], s.queue[n - 1]));
      RunsCompose(c, s, first, next);
      ThroughNext(c, s, hs, st, n - 1, mid, Exec(c, mid, next));
      acts := first + next;
    }
  }

  /** What `Process` computes, the step system reaches with its one worker exited, whatever the handlers keep and
      answer: the system without a limiter of its own lets a chain give any verdict. */
  lemma {:induction false} ProcessIsARun<S>(c: Config, s: State, hs: seq<Handler<S>>, st: S) returns (acts: seq<Action>)
    requires c.limit.None? && s.workers == [Idle] && s.closed
    ensures IsRun(c, s, acts)
    ensures
      var t := Exec(c, s, acts);
      && t.workers == [Exited] && t.queue == []
      && t.counters == AllCounted(hs, st, s.queue, s.counters)
      && t.batcher == Batching.AddAll(c.maxSize, s.batcher, Sorted(hs, st, s.queue, true))
      && t.deadLetters == s.deadLetters + Sorted(hs, st, s.queue, false)
  {
    acts := FirstPayloads(c, s, hs, st, |s.queue|);
    assert s.queue[..|s.queue|] == s.queue;
    Extend(c, s, acts, Work(0, Exit));
    acts := acts + [Work(0, Exit)];
  }
}
