/** The handler chain: handlers run in order until one of them does not answer nil. */
module HandlerChain {
  import opened Outcomes
  import opened TokenBucket
  import opened RateLimiter

  /** A handler sees source and data and may keep state between calls; S is what all handlers of a chain keep. */
  type Handler<!S> = (S, string, string) -> (Verdict, S)

  class Chain<S> {
    const handlers: seq<Handler<S>>
    var state: S

    constructor (handlers: seq<Handler<S>>, state: S)
      ensures this.handlers == handlers && this.state == state
    {
      this.handlers := handlers;
      this.state := state;
    }

    /** Handlers run in order, each on the state that the earlier ones left; the first that does not answer nil ends
        the run, and those behind it are not called. */
    method Run(source: string, data: string) returns (v: Verdict)
      modifies this
      ensures (v, state) == RunHandlers(handlers, old(state), source, data)
      ensures v == Ok ==> state == StateBefore(handlers, old(state), source, data, |handlers|)
      ensures v == Ok <==> FirstToFail(handlers, old(state), source, data, |handlers|)
      ensures v != Ok ==> exists i ::
        && 0 <= i < |handlers| && FirstToFail(handlers, old(state), source, data, i)
        && (v, state) == handlers[i](StateBefore(handlers, old(state), source, data, i), source, data)
    {
      ghost var start := state;
      for i := 0 to |handlers|
        invariant state == StateBefore(handlers, start, source, data, i)
        invariant forall j: nat | j < i :: Answer(handlers, start, source, data, j) == Ok
        invariant RunHandlers(handlers, start, source, data) == RunHandlers(handlers[i..], state, source, data)
      {
        var (answer, after) := handlers[i](state, source, data);
        assert handlers[i..][1..] == handlers[i + 1..];
        state := after;
        assert Answer(handlers, start, source, data, i) == answer;
        if answer != Ok {
          return answer;
        }
      }
      v := Ok;
    }
  }

  function Answer<S>(handlers: seq<Handler<S>>, s: S, source: string, data: string, i: nat): Verdict
    requires i < |handlers|
  {
    handlers[i](StateBefore(handlers, s, source, data, i), source, data).0
  }

  /** The state after the first i handlers, if all of them run. */
  function StateBefore<S>(handlers: seq<Handler<S>>, s: S, source: string, data: string, i: nat): S
    requires i <= |handlers|
  {
    if i == 0 then s else handlers[i - 1](StateBefore(handlers, s, source, data, i - 1), source, data).1
  }

  /** No handler before the i-th stops the run, and the i-th does, if there is one. */
  ghost predicate FirstToFail<S>(handlers: seq<Handler<S>>, s: S, source: string, data: string, i: nat)
    requires i <= |handlers|
  {
    && (forall j: nat | j < i :: Answer(handlers, s, source, data, j) == Ok)
    && (i < |handlers| ==> Answer(handlers, s, source, data, i) != Ok)
  }

  function RunHandlers<S>(handlers: seq<Handler<S>>, s: S, source: string, data: string): (Verdict, S) {
    if handlers == [] then (Ok, s)
    else
      var (v, t) := handlers[0](s, source, data);
      if v != Ok then (v, t) else RunHandlers(handlers[1..], t, source, data)
  }

  /** One chain after another is their concatenation. */
  lemma {:induction false} RunsInTurn<S>(first: seq<Handler<S>>, second: seq<Handler<S>>, s: S, source: string,
                                         data: string)
    ensures
      var (v, t) := RunHandlers(first, s, source, data);
      RunHandlers(first + second, s, source, data) == if v != Ok then (v, t) else RunHandlers(second, t, source, data)
  {
    if first == [] {
      assert first + second == second;
    } else {
      var t := first[0](s, source, data).1;
      assert (first + second)[0] == first[0] && (first + second)[1..] == first[1..] + second;
      RunsInTurn(first[1..], second, t, source, data);
    }
  }

  /** Handlers that keep nothing between calls. */
  ghost predicate Stateless<S(!new)>(hs: seq<Handler<S>>) {
    forall h, s, source, data | h in hs :: h(s, source, data).1 == s
  }

  lemma {:induction false} StatelessKeeps<S(!new)>(hs: seq<Handler<S>>, s: S, source: string, data: string)
    requires Stateless(hs)
    ensures RunHandlers(hs, s, source, data).1 == s
  {
    if hs != [] {
      assert hs[0] in hs;
      StatelessKeeps(hs[1..], s, source, data);
    }
  }

  // ---- The limiter as a handler ----

  /** What the limiter's handler keeps: its buckets, and the clock readings still to come. The log is a history. */
  datatype Limiting = Limiting(buckets: Buckets, readings: seq<real>, log: seq<Event>)

  function Reading(readings: seq<real>, i: nat): real { if i < |readings| then readings[i] else 0.0 }

  /** Looks the source up, reading the clock for a new bucket, then reads the clock again and asks the bucket. */
  function LimiterHandler(l: Limit): Handler<Limiting> {
    (s: Limiting, source: string, data: string) =>
      var created, now := Reading(s.readings, 0), Reading(s.readings, 1);
      var looked := Step(l, s.buckets, Lookup(source, created));
      var ok := source in looked && Admits(l, looked[source], now);
      (if ok then Ok else Err,
       Limiting(Step(l, looked, Allow(source, now)), if |s.readings| < 2 then [] else s.readings[2..],
                s.log + [Lookup(source, created)] + [Allow(source, now)]))
  }

  /** The clock has readings for n more calls, they never run backwards, and no bucket has seen a later one. */
  ghost predicate Timely(s: Limiting, n: nat) {
    && |s.readings| >= 2 * n
    && (forall i, j | 0 <= i <= j < |s.readings| :: s.readings[i] <= s.readings[j])
    && (forall src, i | src in s.buckets && 0 <= i < |s.readings| :: s.buckets[src].lastFill <= s.readings[i])
  }

  /** The buckets are the replay of a feasible log, so what is proved of the shared limiter holds of them. */
  ghost predicate Replayed(l: Limit, s: Limiting) { Feasible(l, s.log) && s.buckets == Replay(l, s.log) }

  /** One call with the clock running forwards keeps the buckets the replay of a feasible log, logs one answer for the
      source, the one given, and leaves the other sources alone. */
  lemma {:induction false} LimiterHandlerReplays(l: Limit, s: Limiting, source: string, data: string, n: nat)
    requires Replayed(l, s) && Timely(s, n + 1)
    ensures
      var (v, t) := LimiterHandler(l)(s, source, data);
      && Replayed(l, t) && Timely(t, n) && (v == Ok || v == Err)
      && Answers(l, t.log, source) == Answers(l, s.log, source) + [v == Ok]
      && Requests(t.log, source) == Requests(s.log, source) + [s.readings[1]]
      && forall other | other != source ::
           Answers(l, t.log, other) == Answers(l, s.log, other) && Requests(t.log, other) == Requests(s.log, other)
  {
    var created, now := s.readings[0], s.readings[1];
    var mid := s.log + [Lookup(source, created)];
    assert mid[..|s.log|] == s.log;
    assert (mid + [Allow(source, now)])[..|mid|] == mid;
    forall any
      ensures Answers(l, mid, any) == Answers(l, s.log, any) && Requests(mid, any) == Requests(s.log, any)
    {
      assert Answers(l, s.log, any) + [] == Answers(l, s.log, any);
      assert Requests(s.log, any) + [] == Requests(s.log, any);
    }
    forall other | other != source
      ensures Answers(l, mid + [Allow(source, now)], other) == Answers(l, s.log, other)
      ensures Requests(mid + [Allow(source, now)], other) == Requests(s.log, other)
    {
      assert Answers(l, mid, other) + [] == Answers(l, mid, other);
      assert Requests(mid, other) + [] == Requests(mid, other);
    }
  }
}
