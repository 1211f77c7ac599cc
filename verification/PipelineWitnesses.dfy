/** Runs that attain the bounds: for every valid configuration some run drains a batch of maxSize - 1 + workers items,
    and for every k below maxSize some shutdown leaves k items in the buffer. */
module PipelineWitnesses {
  import opened TokenBucket
  import opened RateLimiter
  import opened Pipeline
  import PipelineTheorems
  import Batching

  /** Nothing is queued, and every bucket is in a state that one second of waiting makes usable. */
  ghost predicate Quiet(s: State) {
    && s.queue == [] && !s.closed
    && forall src | src in s.buckets :: s.buckets[src].tokens >= 0.0 && s.buckets[src].lastFill <= s.clock
  }

  lemma AfterASecond(l: Limit, b: Fill, now: real)
    requires b.tokens >= 0.0 && b.lastFill <= now
    ensures Admits(l, b, now + 1.0) && Take(l, b, now + 1.0).tokens >= 0.0
  {
    GainAdds(l, b.lastFill, now, now + 1.0);
    GainGrows(l, b.lastFill, now);
    assert Gain(l, now, now + 1.0) == Rate(l) * 1.0;
  }

  /** The state after worker w has carried p from submission to the batcher and nothing else has moved. */
  ghost predicate Carried(c: Config, s: State, t: State, w: nat, p: Payload)
    requires w < |s.workers|
  {
    var b := Batching.Append(s.batcher, p);
    && Quiet(t)
    && t.batcher == b
    && t.workers == s.workers[w := if Batching.IsFull(c.maxSize, b) then MustFlush else Idle]
  }

  /** Submission, a second's pause, receipt: worker w holds p and its source's bucket has a token to spare. */
  lemma Hand(c: Config, s: State, w: nat, p: Payload) returns (acts: seq<Action>)
    requires ValidConfig(c) && Quiet(s) && w < |s.workers| && s.workers[w].Idle?
    ensures IsRun(c, s, acts)
    ensures
      var t := Exec(c, s, acts);
      && t.queue == [] && !t.closed && t.clock == s.clock + 1.0
      && t.workers == s.workers[w := Checking(p)] && t.batcher == s.batcher && t.buckets == s.buckets
  {
    OneStep(c, s, Submit(p));
    Extend(c, s, [Submit(p)], Tick(s.clock + 1.0));
    acts := [Submit(p)] + [Tick(s.clock + 1.0)];
    Extend(c, s, acts, Work(w, Receive));
    acts := acts + [Work(w, Receive)];
  }

  /** A second after a quiet state, the limiter admits a request of any source and the buckets stay usable. */
  lemma LimiterAdmits(l: Limit, s: State, src: string)
    requires Quiet(s)
    ensures
      var now := s.clock + 1.0;
      var looked := Step(l, s.buckets, Lookup(src, now));
      && src in looked && Admits(l, looked[src], now)
      && var asked := Step(l, looked, Allow(src, now));
         forall q | q in asked :: asked[q].tokens >= 0.0 && asked[q].lastFill <= now
  {
    if src in s.buckets {
      AfterASecond(l, s.buckets[src], s.clock);
    } else {
      GainGrows(l, s.clock + 1.0, s.clock + 1.0);
    }
  }

  lemma Consult(c: Config, s: State, w: nat, p: Payload, acts: seq<Action>) returns (more: seq<Action>)
    requires ValidConfig(c) && c.limit.Some? && Quiet(s) && w < |s.workers| && IsRun(c, s, acts)
    requires
      var t := Exec(c, s, acts);
      && t.queue == [] && !t.closed && t.clock == s.clock + 1.0
      && t.workers == s.workers[w := Checking(p)] && t.batcher == s.batcher && t.buckets == s.buckets
    ensures IsRun(c, s, more)
    ensures
      var t := Exec(c, s, more);
      && Quiet(t) && t.workers == s.workers[w := Passed(p)] && t.batcher == s.batcher
  {
    LimiterAdmits(c.limit.value, s, p.source);
    Extend(c, s, acts, Work(w, LookUp));
    more := acts + [Work(w, LookUp)];
    assert Exec(c, s, more).workers == s.workers[w := LookedUp(p)];
    Extend(c, s, more, Work(w, Ask));
    more := more + [Work(w, Ask)];
    assert Exec(c, s, more).workers == s.workers[w := Passed(p)];
  }

  lemma Carry(c: Config, s: State, w: nat, p: Payload) returns (acts: seq<Action>)
    requires ValidConfig(c) && Quiet(s) && w < |s.workers| && s.workers[w].Idle?
    ensures IsRun(c, s, acts) && Carried(c, s, Exec(c, s, acts), w, p)
  {
    acts := Hand(c, s, w, p);
    if c.limit.Some? {
      acts := Consult(c, s, w, p, acts);
    }
    assert PastLimiter(c, Exec(c, s, acts).workers[w]);
    Extend(c, s, acts, Work(w, Pass));
    acts := acts + [Work(w, Pass)];
    assert Exec(c, s, acts).workers == s.workers[w := Approved(p)];
    Extend(c, s, acts, Work(w, Append));
    acts := acts + [Work(w, Append)];
    var u := Exec(c, s, acts);
    assert u.workers == s.workers[w := u.workers[w]];
  }

  /** Worker 0 fills the buffer up to k items, below the limit. */
  lemma {:induction false} FillUp(c: Config, s: State, p: Payload, k: nat) returns (acts: seq<Action>)
    requires ValidConfig(c) && Quiet(s) && |s.workers| == c.workers
    requires (forall i | 0 <= i < |s.workers| :: s.workers[i].Idle?) && |s.batcher.buf| <= k < c.maxSize
    ensures IsRun(c, s, acts)
    ensures
      var t := Exec(c, s, acts);
      && Quiet(t) && t.workers == s.workers && |t.batcher.buf| == k
    decreases k - |s.batcher.buf|
  {
    if |s.batcher.buf| == k {
      acts := [];
    } else {
      var first := Carry(c, s, 0, p);
      var t := Exec(c, s, first);
      assert t.workers == s.workers;
      var rest := FillUp(c, t, p, k);
      RunsCompose(c, s, first, rest);
      acts := first + rest;
    }
  }

  /** Workers j, j + 1, ... each append one item, see the buffer full, and pause before draining it. */
  lemma {:induction false} Pile(c: Config, s: State, p: Payload, j: nat) returns (acts: seq<Action>)
    requires ValidConfig(c) && Quiet(s) && |s.workers| == c.workers && j <= c.workers
    requires forall i | 0 <= i < |s.workers| :: if i < j then s.workers[i].MustFlush? else s.workers[i].Idle?
    requires |s.batcher.buf| == c.maxSize - 1 + j
    ensures IsRun(c, s, acts)
    ensures
      var t := Exec(c, s, acts);
      && |t.workers| == c.workers && |t.batcher.buf| == c.maxSize - 1 + c.workers
      && (forall i | 0 <= i < |t.workers| :: t.workers[i].MustFlush?)
    decreases c.workers - j
  {
    if j == c.workers {
      acts := [];
    } else {
      var first := Carry(c, s, j, p);
      var rest := Pile(c, Exec(c, s, first), p, j + 1);
      RunsCompose(c, s, first, rest);
      acts := first + rest;
    }
  }

  /** For every valid configuration, whatever its limiter, there is a run that drains
      a batch of exactly maxSize - 1 + workers items. */
  lemma OvershootAttained(c: Config, start: real, p: Payload) returns (acts: seq<Action>)
    requires ValidConfig(c)
    ensures IsRun(c, Init(c, start), acts)
    ensures exists b :: b in Exec(c, Init(c, start), acts).batcher.batches && |b| == c.maxSize - 1 + c.workers
  {
    var s := Init(c, start);
    var fill := FillUp(c, s, p, c.maxSize - 1);
    var t := Exec(c, s, fill);
    var pile := Pile(c, t, p, 0);
    RunsCompose(c, s, fill, pile);
    var u := Exec(c, s, fill + pile);
    Extend(c, s, fill + pile, Work(0, Flush));
    acts := fill + pile + [Work(0, Flush)];
    var batches := Exec(c, s, acts).batcher.batches;
    assert batches[|batches| - 1] == u.batcher.buf;
  }

  /** Workers j, j + 1, ... leave, one after the other. */
  lemma {:induction false} Leave(c: Config, s: State, j: nat) returns (acts: seq<Action>)
    requires s.closed && s.queue == [] && j <= |s.workers|
    requires forall i | 0 <= i < |s.workers| :: if i < j then s.workers[i].Exited? else s.workers[i].Idle?
    ensures IsRun(c, s, acts)
    ensures PipelineTheorems.WaitReturns(Exec(c, s, acts)) && Exec(c, s, acts).batcher == s.batcher
    decreases |s.workers| - j
  {
    if j == |s.workers| {
      acts := [];
    } else {
      OneStep(c, s, Work(j, Exit));
      var rest := Leave(c, Next(c, s, Work(j, Exit)), j + 1);
      RunsCompose(c, s, [Work(j, Exit)], rest);
      acts := [Work(j, Exit)] + rest;
    }
  }

  /** Nothing flushes the buffer at the end: for every valid configuration and every k below maxSize, there is a run in
      which Shutdown has returned and k accepted payloads are still in the buffer. */
  lemma RemainderAttained(c: Config, start: real, p: Payload, k: nat) returns (acts: seq<Action>)
    requires ValidConfig(c) && k < c.maxSize
    ensures IsRun(c, Init(c, start), acts)
    ensures PipelineTheorems.WaitReturns(Exec(c, Init(c, start), acts))
    ensures |Exec(c, Init(c, start), acts).batcher.buf| == k
  {
    var s := Init(c, start);
    var fill := FillUp(c, s, p, k);
    Extend(c, s, fill, Close);
    var closed := fill + [Close];
    var leave := Leave(c, Exec(c, s, closed), 0);
    RunsCompose(c, s, closed, leave);
    acts := closed + leave;
  }
}
