/** The chain as it is deployed: the limiter, if there is one, and then the two validators. What reaches the batcher
    is exactly what they accept, in the pipeline and in the whole service. */
module DeployedChain {
  import opened Outcomes
  import opened JsonText
  import opened Translator
  import opened Validation
  import opened TokenBucket
  import opened RateLimiter
  import opened HandlerChain
  import opened ChainLimits
  import opened Dispatching
  import opened PipelineLimits
  import opened PipelineSafety
  import opened PipelineTheorems
  import H = PooledIngest
  import P = Pipeline
  import S = Stream
  import Projection
  import Service

  // ---- The pipeline with this chain ----

  /** Behind the limiter, a payload passes or fails as the validators say, and nothing ahead of it fails a payload. */
  ghost predicate ByValidators(c: P.Config, s: P.State, a: P.Action) {
    a.Work? && a.w < |s.workers| && (a.move.Fail? || a.move.Pass?) && P.CanMove(c, s, a.w, a.move) ==>
      && P.PastLimiter(c, s.workers[a.w])
      && Validated(s.workers[a.w].p.data) == if a.move.Fail? then a.move.verdict else Ok
  }

  ghost predicate Deployed(c: P.Config, s: P.State, acts: seq<P.Action>)
    requires P.IsRun(c, s, acts)
  {
    acts != [] ==>
      && Deployed(c, s, acts[..|acts| - 1])
      && ByValidators(c, P.Exec(c, s, acts[..|acts| - 1]), acts[|acts| - 1])
  }

  /** Of a canonical text, only the limiter's denials failed; no other text passed. */
  ghost predicate SoundFor(s: P.State, x: P.Payload) {
    if Canonical(x.data) then Copies(Chosen(s.judged, false), x) == Copies(s.denied, x)
    else Copies(Chosen(s.judged, true), x) == 0
  }

  lemma ValidatedCanonical(data: string)
    ensures Validated(data) == if Canonical(data) then Ok else Err
  {
    ValidatorsAcceptCanonical((), "", data);
  }

  /** A judgement by the validators. */
  lemma SoundAfterVerdict(s: P.State, t: P.State, j: P.Judgement, x: P.Payload)
    requires SoundFor(s, x) && t.judged == s.judged + [j] && t.denied == s.denied && Validated(j.p.data) == j.verdict
    ensures SoundFor(t, x)
  {
    ValidatedCanonical(j.p.data);
    ChosenCount(s.judged, j, true, x);
    ChosenCount(s.judged, j, false, x);
  }

  /** A denial by the limiter. */
  lemma SoundAfterDenial(s: P.State, t: P.State, j: P.Judgement, x: P.Payload)
    requires SoundFor(s, x) && t.judged == s.judged + [j] && j.verdict == Err && t.denied == s.denied + [j.p]
    ensures SoundFor(t, x)
  {
    ChosenCount(s.judged, j, true, x);
    ChosenCount(s.judged, j, false, x);
    CountSnoc(s.denied, j.p, x);
  }

  lemma MoveJudges(c: P.Config, s: P.State, w: nat, m: P.Move)
    requires w < |s.workers| && P.CanMove(c, s, w, m)
    ensures
      var t := P.Moved(c, s, w, m);
      match m
      case Fail(v) => t.judged == s.judged + [P.Judgement(s.workers[w].p, v)] && t.denied == s.denied
      case Pass => t.judged == s.judged + [P.Judgement(s.workers[w].p, Ok)] && t.denied == s.denied
      case Ask =>
        || (t.judged == s.judged && t.denied == s.denied)
        || (t.judged == s.judged + [P.Judgement(s.workers[w].p, Err)] && t.denied == s.denied + [s.workers[w].p])
      case _ => t.judged == s.judged && t.denied == s.denied
  {
  }

  lemma SoundMove(c: P.Config, s: P.State, w: nat, m: P.Move, x: P.Payload)
    requires SoundFor(s, x) && w < |s.workers| && P.CanMove(c, s, w, m) && ByValidators(c, s, P.Work(w, m))
    ensures SoundFor(P.Moved(c, s, w, m), x)
  {
    var t := P.Moved(c, s, w, m);
    MoveJudges(c, s, w, m);
    match m
    case Fail(v) => SoundAfterVerdict(s, t, P.Judgement(s.workers[w].p, v), x);
    case Pass => SoundAfterVerdict(s, t, P.Judgement(s.workers[w].p, Ok), x);
    case Ask =>
      if t.judged != s.judged {
        SoundAfterDenial(s, t, P.Judgement(s.workers[w].p, Err), x);
      }
    case _ =>
  }

  lemma {:induction false} SoundRun(c: P.Config, start: real, acts: seq<P.Action>, x: P.Payload)
    requires P.IsRun(c, P.Init(c, start), acts) && Deployed(c, P.Init(c, start), acts)
    ensures SoundFor(P.Exec(c, P.Init(c, start), acts), x)
  {
    if acts != [] {
      var front, a := acts[..|acts| - 1], acts[|acts| - 1];
      SoundRun(c, start, front, x);
      if a.Work? {
        SoundMove(c, P.Exec(c, P.Init(c, start), front), a.w, a.move, x);
      }
    }
  }

  /** Without a limiter nothing is denied. */
  lemma {:induction false} NoLimiterNoDenials(c: P.Config, start: real, acts: seq<P.Action>)
    requires c.limit.None? && P.IsRun(c, P.Init(c, start), acts)
    ensures P.Exec(c, P.Init(c, start), acts).denied == []
  {
    if acts != [] {
      var front, a := acts[..|acts| - 1], acts[|acts| - 1];
      NoLimiterNoDenials(c, start, front);
      if a.Work? {
        MoveJudges(c, P.Exec(c, P.Init(c, start), front), a.w, a.move);
      }
    }
  }

  /** In every reachable state, everything that the batcher ever received is canonical. */
  lemma {:induction false} BatcherGetsCanonical(c: P.Config, start: real, acts: seq<P.Action>, p: P.Payload)
    requires P.ValidConfig(c) && P.IsRun(c, P.Init(c, start), acts) && Deployed(c, P.Init(c, start), acts)
    requires p in Delivered(P.Exec(c, P.Init(c, start), acts))
    ensures Canonical(p.data)
  {
    var s := P.Exec(c, P.Init(c, start), acts);
    Reachable(c, start, acts);
    SoundRun(c, start, acts, p);
    assert FlowInv(s, p);
    CopiesInMultiset(Delivered(s), p);
    assert p in multiset(Delivered(s));
  }

  // Every payload is put to the limiter, which comes first.

  /** 1 for a worker that still has to put a payload of `src` to the limiter. */
  function Unasked(src: string): P.Worker -> nat {
    (worker: P.Worker) => if (worker.Checking? || worker.LookedUp?) && worker.p.source == src then 1 else 0
  }

  ghost predicate AllAsked(s: P.State, src: string) {
    CountSource(s.dequeued, src) == |Requests(s.limiterLog, src)| + P.Sum(s.workers, Unasked(src))
  }

  lemma AskedMove(c: P.Config, s: P.State, w: nat, m: P.Move, src: string)
    requires c.limit.Some? && AllAsked(s, src) && w < |s.workers| && P.CanMove(c, s, w, m)
    requires ByValidators(c, s, P.Work(w, m))
    ensures AllAsked(P.Moved(c, s, w, m), src)
  {
    var t := P.Moved(c, s, w, m);
    UnaskedMove(c, s, w, m, src);
    if m.LookUp? || m.Ask? {
      LoggedMove(c, s, w, m, src);
    } else {
      QuietMove(c, s, w, m, src);
    }
  }

  /** How a move changes the number of those that still have to ask. */
  lemma UnaskedMove(c: P.Config, s: P.State, w: nat, m: P.Move, src: string)
    requires c.limit.Some? && w < |s.workers| && P.CanMove(c, s, w, m) && ByValidators(c, s, P.Work(w, m))
    ensures
      var t := P.Moved(c, s, w, m);
      P.Sum(t.workers, Unasked(src)) == P.Sum(s.workers, Unasked(src))
        + (if m.Receive? && s.queue[0].source == src then 1 else 0)
        - (if m.Ask? && s.workers[w].p.source == src then 1 else 0)
  {
    var t := P.Moved(c, s, w, m);
    assert t.workers == s.workers[w := t.workers[w]];
    P.SumUpdate(s.workers, w, t.workers[w], Unasked(src));
  }

  lemma QuietMove(c: P.Config, s: P.State, w: nat, m: P.Move, src: string)
    requires w < |s.workers| && P.CanMove(c, s, w, m) && !m.LookUp? && !m.Ask?
    ensures
      var t := P.Moved(c, s, w, m);
      && t.limiterLog == s.limiterLog
      && CountSource(t.dequeued, src) == CountSource(s.dequeued, src)
                                         + if m.Receive? && s.queue[0].source == src then 1 else 0
  {
    if m.Receive? {
      SourceSnoc(s.dequeued, s.queue[0], src);
    }
  }

  lemma LoggedMove(c: P.Config, s: P.State, w: nat, m: P.Move, src: string)
    requires c.limit.Some? && w < |s.workers| && P.CanMove(c, s, w, m) && (m.LookUp? || m.Ask?)
    ensures
      var t, asks := P.Moved(c, s, w, m), m.Ask? && s.workers[w].p.source == src;
      && t.dequeued == s.dequeued
      && |Requests(t.limiterLog, src)| == |Requests(s.limiterLog, src)| + if asks then 1 else 0
  {
    var p := s.workers[w].p;
    RequestsGrow(s.limiterLog, if m.Ask? then Allow(p.source, s.clock) else Lookup(p.source, s.clock), src);
  }

  lemma {:induction false} EveryoneAsked(c: P.Config, start: real, acts: seq<P.Action>, src: string)
    requires c.limit.Some? && P.IsRun(c, P.Init(c, start), acts) && Deployed(c, P.Init(c, start), acts)
    ensures AllAsked(P.Exec(c, P.Init(c, start), acts), src)
  {
    if acts == [] {
      P.SumZero(P.Init(c, start).workers, Unasked(src));
    } else {
      var front, a := acts[..|acts| - 1], acts[|acts| - 1];
      EveryoneAsked(c, start, front, src);
      if a.Work? {
        AskedMove(c, P.Exec(c, P.Init(c, start), front), a.w, a.move, src);
      }
    }
  }

  /** Each accepted payload of the source has been put to the limiter once, and the denied ones are as many as the
      requests that a full bucket of the source's own refuses at these times. */
  ghost predicate DenialsDecided(l: Limit, s: P.State, asked: seq<(real, bool)>, src: string) {
    && |asked| == CountSource(s.accepted, src)
    && (asked != [] ==> WentOn(asked) == Decisions(l, asked[0].0, Times(asked)))
    && CountSource(s.denied, src) == |asked| - Admitted(WentOn(asked), 0, |asked|)
  }

  /** After shutdown, each accepted payload of a source has been put to the limiter once, and the limiter has stopped as
      many of them as a full bucket of the source's own refuses at the times when they were put to it. */
  lemma {:induction false} DenialsAreDecisions(c: P.Config, start: real, acts: seq<P.Action>, src: string)
    requires P.ValidConfig(c) && P.IsRun(c, P.Init(c, start), acts) && Deployed(c, P.Init(c, start), acts)
    requires c.limit.Some? && WaitReturns(P.Exec(c, P.Init(c, start), acts))
    ensures DenialsDecided(c.limit.value, P.Exec(c, P.Init(c, start), acts), Asked(c, start, acts, src), src)
  {
    var s := P.Exec(c, P.Init(c, start), acts);
    ShutdownDrains(c, start, acts);
    BoundedFifo(c, start, acts);
    assert s.dequeued + s.queue == s.dequeued;
    EveryoneAsked(c, start, acts, src);
    P.SumZero(s.workers, Unasked(src));
    AskedRun(c, c.limit.value, start, acts, src);
    WorkersObeyTheLimiter(c, c.limit.value, start, acts, src);
  }

  /** After shutdown, the batcher got every accepted copy of a canonical payload that the limiter did not deny, and no
      copy of any other payload; the dead letters got the rest. The limiter's denials are the decisions of a bucket. */
  lemma {:induction false} ExactlyCanonicalDelivered(c: P.Config, start: real, acts: seq<P.Action>, p: P.Payload)
    requires P.ValidConfig(c) && P.IsRun(c, P.Init(c, start), acts) && Deployed(c, P.Init(c, start), acts)
    requires WaitReturns(P.Exec(c, P.Init(c, start), acts))
    ensures
      var s := P.Exec(c, P.Init(c, start), acts);
      && multiset(s.accepted)[p] == multiset(Delivered(s))[p] + multiset(s.deadLetters)[p]
      && multiset(s.deadLetters)[p] ==
         (if Canonical(p.data) then multiset(s.denied)[p] else multiset(s.accepted)[p])
      && (if c.limit.None? then s.denied == []
          else DenialsDecided(c.limit.value, s, Asked(c, start, acts, p.source), p.source))
  {
    var s := P.Exec(c, P.Init(c, start), acts);
    ShutdownDrains(c, start, acts);
    SoundRun(c, start, acts, p);
    CopiesInMultiset(Chosen(s.judged, true), p);
    CopiesInMultiset(Chosen(s.judged, false), p);
    CopiesInMultiset(s.denied, p);
    if c.limit.None? {
      NoLimiterNoDenials(c, start, acts);
    } else {
      DenialsAreDecisions(c, start, acts, p.source);
    }
  }

  // ---- The chain object of a single worker ----

  /** The deployed chain as handlers. */
  function Chain(l: Limit): seq<Handler<Limiting>> { Limited(l, [], [SchemaHandler(), TypeHandler()]) }

  /** It says ok if and only if the limiter does and the text is canonical. */
  lemma ChainAnswers(l: Limit, s: Limiting, source: string, data: string)
    ensures
      var (v, t) := LimiterHandler(l)(s, source, data);
      RunHandlers(Chain(l), s, source, data) == (if v == Ok && !Canonical(data) then Err else v, t)
  {
    var hs, t := Chain(l), LimiterHandler(l)(s, source, data).1;
    assert hs[0] == LimiterHandler(l) && hs[1..] == [SchemaHandler(), TypeHandler()];
    ValidatorsAcceptCanonical(t, source, data);
  }

  /** Draining a channel through it, only canonical payloads pass, of each source no more than burst + rate * time. */
  lemma {:induction false} DeployedDrain(l: Limit, readings: seq<real>, ps: seq<P.Payload>, src: string)
    requires Timely(Limiting(map[], readings, []), |ps|)
    ensures
      var s := Limiting(map[], readings, []);
      var passed, times := Sorted(Chain(l), s, ps, true), Requests(ChainState(Chain(l), s, ps).log, src);
      && (forall p | p in passed :: Canonical(p.data))
      && if times == [] then CountSource(passed, src) == 0
         else CountSource(passed, src) as real <= Burst(l) + Gain(l, times[0], times[|times| - 1])
  {
    DrainIsLimited(l, [], [SchemaHandler(), TypeHandler()], readings, ps, src);
    PassedIsCanonical(l, Limiting(map[], readings, []), ps);
  }

  lemma {:induction false} PassedIsCanonical(l: Limit, s: Limiting, ps: seq<P.Payload>)
    ensures forall p | p in Sorted(Chain(l), s, ps, true) :: Canonical(p.data)
  {
    if ps != [] {
      var before, p := ps[..|ps| - 1], ps[|ps| - 1];
      PassedIsCanonical(l, s, before);
      ChainAnswers(l, ChainState(Chain(l), s, before), p.source, p.data);
    }
  }

  // ---- The service ----

  /** The service's workers run the deployed chain. */
  ghost predicate DeployedService(c: S.Config, start: real, regions: set<string>, acts: seq<Service.Action>)
    requires Service.IsRun(c, Service.Init(c, start, regions), acts)
  {
    var steps := Projection.ServicePipeSteps(c, start, regions, acts);
    P.IsRun(c.pipe, P.Init(c.pipe, start), steps) && Deployed(c.pipe, P.Init(c.pipe, start), steps)
  }

  /** The condition under which the default translator's event meets the validators. */
  predicate Meets(req: H.Request)
    requires Passthrough(req.source, req.body, req.stamp).Some? && BodyValue(req.body).Some?
  {
    && req.source != "" && Passthrough(req.source, req.body, req.stamp).value.eventType != ""
    && NumbersFit(BodyValue(req.body).value) && Depth(BodyValue(req.body).value) < MAX_DEPTH
  }

  lemma DefaultSubmission(translators: map<string, Inbound>, req: H.Request)
    requires H.Fresh(translators, req).Submits? && req.source !in translators
    requires req.stamp.id != "" && IsInt64(req.stamp.nowMs) && req.stamp.nowMs != 0
    ensures Passthrough(req.source, req.body, req.stamp).Some? && BodyValue(req.body).Some?
    ensures Canonical(H.Fresh(translators, req).data) <==> Meets(req)
  {
    PassthroughMeetsValidation(req.source, req.body, req.stamp);
    ValidatedCanonical(H.Fresh(translators, req).data);
  }

  /** End to end: after shutdown, the payload behind a "202 Accepted" that went through the default translator is with
      the batcher if and only if the request meets the validators and the limiter let a copy of it through; so without
      a limiter, if and only if it meets them. */
  lemma {:induction false} AnsweredIsDeliveredIff(c: S.Config, start: real, regions: set<string>,
                                                  acts: seq<Service.Action>, h: nat)
    requires P.ValidConfig(c.pipe) && Service.IsRun(c, Service.Init(c, start, regions), acts)
    requires DeployedService(c, start, regions, acts)
    requires WaitReturns(Service.Exec(c, Service.Init(c, start, regions), acts).stream.pipe)
    requires
      var http := Service.Exec(c, Service.Init(c, start, regions), acts).http;
      && h in http.sessions && http.sessions[h].pc.Done? && http.sessions[h].pc.status.Accepted?
      && var req := http.sessions[h].req;
         && req.source !in c.translators
         && req.stamp.id != "" && IsInt64(req.stamp.nowMs) && req.stamp.nowMs != 0
    ensures
      var s := Service.Exec(c, Service.Init(c, start, regions), acts);
      var req, pipe := s.http.sessions[h].req, s.stream.pipe;
      var ref := H.Fresh(c.translators, req);
      && ref.Submits? && Passthrough(req.source, req.body, req.stamp).Some? && BodyValue(req.body).Some?
      && var p := P.Payload(req.source, ref.data);
         && (p in Delivered(pipe) <==> Meets(req) && multiset(pipe.denied)[p] < multiset(pipe.accepted)[p])
         && (c.pipe.limit.None? ==> (p in Delivered(pipe) <==> Meets(req)))
  {
    var s := Service.Exec(c, Service.Init(c, start, regions), acts);
    var req, pipe := s.http.sessions[h].req, s.stream.pipe;
    Service.Reachable(c, start, regions, acts);
    Service.AnsweredPlaced(c, s, h);
    DefaultSubmission(c.translators, req);
    Projection.ServiceRunsPipeline(c, start, regions, acts);
    var p := P.Payload(req.source, H.Fresh(c.translators, req).data);
    ExactlyCanonicalDelivered(c.pipe, start, Projection.ServicePipeSteps(c, start, regions, acts), p);
    assert pipe.accepted[s.slots[h]] in multiset(pipe.accepted);
    assert p in Delivered(pipe) <==> multiset(Delivered(pipe))[p] > 0;
  }
}
