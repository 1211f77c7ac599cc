/** The limiter as one handler of a chain that a single worker uses: over any sequence of payloads, with a clock that
    does not run backwards, each source gets the decisions of a bucket of its own. */
module ChainLimits {
  import opened Outcomes
  import opened TokenBucket
  import opened RateLimiter
  import opened HandlerChain
  import opened Dispatching
  import opened PipelineLimits
  import P = Pipeline

  /** A chain with the limiter somewhere among handlers that keep nothing. */
  function Limited(l: Limit, ahead: seq<Handler<Limiting>>, behind: seq<Handler<Limiting>>): seq<Handler<Limiting>> {
    ahead + ([LimiterHandler(l)] + behind)
  }

  /** How a source's admissions compare before and after a payload with this verdict. */
  ghost predicate Charged(l: Limit, s: Limiting, t: Limiting, source: string, v: Verdict) {
    forall src ::
      Admissions(l, s.log, src) + (if v == Ok && src == source then 1 else 0) <= Admissions(l, t.log, src)
  }

  lemma HandlerCharges(l: Limit, s: Limiting, source: string, data: string, n: nat)
    requires Replayed(l, s) && Timely(s, n + 1)
    ensures
      var (v, t) := LimiterHandler(l)(s, source, data);
      Replayed(l, t) && Timely(t, n) && Charged(l, s, t, source, v) && Charged(l, s, t, source, Err)
  {
    var (v, t) := LimiterHandler(l)(s, source, data);
    LimiterHandlerReplays(l, s, source, data, n);
    AdmittedSnoc(Answers(l, s.log, source), v == Ok);
  }

  /** One payload through the chain: passing takes an admission of its source, stopping takes at most one. */
  lemma OneThrough(l: Limit, ahead: seq<Handler<Limiting>>, behind: seq<Handler<Limiting>>,
                   s: Limiting, source: string, data: string, n: nat)
    requires Stateless(ahead) && Stateless(behind) && Replayed(l, s) && Timely(s, n + 1)
    ensures
      var (v, t) := RunHandlers(Limited(l, ahead, behind), s, source, data);
      Replayed(l, t) && Timely(t, n) && Charged(l, s, t, source, v)
  {
    RunsInTurn(ahead, [LimiterHandler(l)] + behind, s, source, data);
    StatelessKeeps(ahead, s, source, data);
    HandlerCharges(l, s, source, data, n);
    var t := LimiterHandler(l)(s, source, data).1;
    StatelessKeeps(behind, t, source, data);
    assert ([LimiterHandler(l)] + behind)[0] == LimiterHandler(l) && ([LimiterHandler(l)] + behind)[1..] == behind;
  }

  /** Any number of payloads: the buckets stay the replay of a feasible log, and what passes is paid for in it. */
  lemma {:induction false} AllThrough(l: Limit, ahead: seq<Handler<Limiting>>, behind: seq<Handler<Limiting>>,
                                      s: Limiting, ps: seq<P.Payload>, left: nat, src: string)
    requires Stateless(ahead) && Stateless(behind) && Replayed(l, s) && Timely(s, |ps| + left)
    ensures
      var hs := Limited(l, ahead, behind);
      var t := ChainState(hs, s, ps);
      && Replayed(l, t) && Timely(t, left)
      && Admissions(l, s.log, src) + CountSource(Sorted(hs, s, ps, true), src) <= Admissions(l, t.log, src)
  {
    if ps != [] {
      var hs, front, p := Limited(l, ahead, behind), ps[..|ps| - 1], ps[|ps| - 1];
      AllThrough(l, ahead, behind, s, front, left + 1, src);
      OneThrough(l, ahead, behind, ChainState(hs, s, front), p.source, p.data, left);
      SourceSnoc(Sorted(hs, s, front, true), p, src);
      assert Sorted(hs, s, front, true) + [] == Sorted(hs, s, front, true);
    }
  }

  lemma SourceSnoc(ps: seq<P.Payload>, p: P.Payload, src: string)
    ensures CountSource(ps + [p], src) == CountSource(ps, src) + if p.source == src then 1 else 0
  {
    assert (ps + [p])[..|ps|] == ps;
  }

  /** Draining a channel through a chain with the limiter in it, starting afresh: the answers to each source are the
      decisions of a full bucket of its own on its own requests, they respect all its windows, and the source gets no
      more than burst + rate * time into the batcher. */
  lemma {:induction false} DrainIsLimited(l: Limit, ahead: seq<Handler<Limiting>>, behind: seq<Handler<Limiting>>,
                                          readings: seq<real>, ps: seq<P.Payload>, src: string)
    requires Stateless(ahead) && Stateless(behind) && Timely(Limiting(map[], readings, []), |ps|)
    ensures
      var hs, s := Limited(l, ahead, behind), Limiting(map[], readings, []);
      var log := ChainState(hs, s, ps).log;
      var times, answers, passed := Requests(log, src), Answers(l, log, src), CountSource(Sorted(hs, s, ps, true), src);
      && |answers| == |times|
      && (times != [] ==> answers == Decisions(l, times[0], times))
      && RespectsWindows(l, times, answers)
      && if times == [] then passed == 0 else passed as real <= Burst(l) + Gain(l, times[0], times[|times| - 1])
  {
    var hs, s := Limited(l, ahead, behind), Limiting(map[], readings, []);
    AllThrough(l, ahead, behind, s, ps, 0, src);
    var log := ChainState(hs, s, ps).log;
    RequestsOrdered(l, log, src);
    AdmissionBound(l, log, src);
    var times := Requests(log, src);
    if times != [] {
      PerSourceRefinement(l, log, src, times[0]);
      WindowBound(l, times[0], times);
    }
  }
}
