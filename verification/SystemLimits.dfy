/** The limits of the pipeline, in the systems around it. */
module SystemLimits {
  import opened TokenBucket
  import opened RateLimiter
  import opened Projection
  import P = Pipeline
  import S = Stream
  import Batching
  import PipelineLimits
  import PipelineSafety
  import PipelineTheorems
  import Service

  /** The limiter answers each source as a bucket of its own would, and the batcher gets no more than that allows. */
  ghost predicate Throttled(l: Limit, s: P.State, src: string) {
    var times, answers := Requests(s.limiterLog, src), Answers(l, s.limiterLog, src);
    var passed := PipelineLimits.CountSource(PipelineTheorems.Delivered(s), src);
    && |answers| == |times|
    && (times != [] ==> answers == Decisions(l, times[0], times))
    && RespectsWindows(l, times, answers)
    && PipelineLimits.WithinAllowance(l, times, passed, s.clock)
  }

  /** No batch is empty or overshoots by more than the workers, and no more is buffered. */
  ghost predicate Bounded(c: P.Config, s: P.State) {
    && |s.batcher.buf| <= c.maxSize - 1 + P.Sum(s.workers, PipelineSafety.Pending)
    && (forall b | b in s.batcher.batches :: 1 <= |b| <= c.maxSize - 1 + c.workers)
  }

  /** The buffer holds the remainder of what passed, and the batches its full chunks. */
  ghost predicate RemainderLeft(c: P.Config, s: P.State) {
    var passed := PipelineSafety.Chosen(s.judged, true);
    && c.maxSize >= 1
    && s.batcher == Batching.AddAll(c.maxSize, Batching.Empty(), passed)
    && |s.batcher.buf| == |passed| % c.maxSize
  }

  lemma {:induction false} PipeIsThrottled(c: P.Config, l: Limit, start: real, steps: seq<P.Action>, src: string)
    requires c.limit.Some? && c.limit.value == l && P.IsRun(c, P.Init(c, start), steps)
    ensures Throttled(l, P.Exec(c, P.Init(c, start), steps), src)
  {
    PipelineLimits.SharedLimiterIsPerSource(c, l, start, steps, src);
    PipelineLimits.ThroughputBound(c, l, start, steps, src);
  }

  lemma {:induction false} PipeIsLimited(c: P.Config, start: real, steps: seq<P.Action>, src: string)
    requires P.ValidConfig(c) && P.IsRun(c, P.Init(c, start), steps)
    ensures
      var s := P.Exec(c, P.Init(c, start), steps);
      && Bounded(c, s)
      && (c.limit.Some? ==> Throttled(c.limit.value, s, src))
      && (c.workers == 1 && P.ExternalFlush !in steps && PipelineTheorems.WaitReturns(s) ==> RemainderLeft(c, s))
  {
    PipelineTheorems.OvershootBound(c, start, steps);
    if c.limit.Some? {
      PipeIsThrottled(c, c.limit.value, start, steps, src);
    }
    if c.workers == 1 && P.ExternalFlush !in steps && PipelineTheorems.WaitReturns(P.Exec(c, P.Init(c, start), steps)) {
      PipelineTheorems.LeftBehind(c, start, steps);
    }
  }

  /** With stream readers around it, the pipeline keeps the limiter's, the batches' and the remainder's bounds. */
  lemma {:induction false} StreamIsLimited(c: S.Config, start: real, regions: set<string>, acts: seq<S.Action>,
                                           src: string)
    requires P.ValidConfig(c.pipe) && S.IsRun(c, S.Init(c, start, regions), acts)
    ensures
      var s := S.Exec(c, S.Init(c, start, regions), acts).pipe;
      && Bounded(c.pipe, s)
      && (c.pipe.limit.Some? ==> Throttled(c.pipe.limit.value, s, src))
      && (c.pipe.workers == 1 && S.Pipe(P.ExternalFlush) !in acts && PipelineTheorems.WaitReturns(s) ==>
            RemainderLeft(c.pipe, s))
  {
    StreamProjects(c, S.Init(c, start, regions), acts);
    PipeIsLimited(c.pipe, start, PipeSteps(c, S.Init(c, start, regions), acts), src);
    if S.Pipe(P.ExternalFlush) !in acts {
      StreamFlushes(c, S.Init(c, start, regions), acts);
    }
  }

  /** And so it does with HTTP handlers and stream readers around it. */
  lemma {:induction false} ServiceIsLimited(c: S.Config, start: real, regions: set<string>, acts: seq<Service.Action>,
                                            src: string)
    requires P.ValidConfig(c.pipe) && Service.IsRun(c, Service.Init(c, start, regions), acts)
    ensures
      var s := Service.Exec(c, Service.Init(c, start, regions), acts).stream.pipe;
      && Bounded(c.pipe, s)
      && (c.pipe.limit.Some? ==> Throttled(c.pipe.limit.value, s, src))
      && (c.pipe.workers == 1 && Service.Other(S.Pipe(P.ExternalFlush)) !in acts && PipelineTheorems.WaitReturns(s) ==>
            RemainderLeft(c.pipe, s))
  {
    ServiceRunsPipeline(c, start, regions, acts);
    PipeIsLimited(c.pipe, start, ServicePipeSteps(c, start, regions, acts), src);
  }
}
