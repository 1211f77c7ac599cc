/** The limiter shared by all sources: buckets are created on first lookup and updated under their own locks.
    A log lists the lock-protected sections in the order in which they happened, whichever goroutines ran them. */
module RateLimiter {
  import opened TokenBucket

  /** One critical section: `bucketFor` under the map lock, or `allow` under the lock of one bucket. */
  datatype Event = Lookup(source: string, at: real) | Allow(source: string, at: real)

  type Buckets = map<string, Fill>

  function Step(l: Limit, buckets: Buckets, e: Event): Buckets {
    match e
    case Lookup(s, t) => if s in buckets then buckets else buckets[s := Full(l, t)]
    case Allow(s, t) => if s in buckets then buckets[s := Take(l, buckets[s], t)] else buckets
  }

  function Replay(l: Limit, log: seq<Event>): Buckets {
    if log == [] then map[] else Step(l, Replay(l, log[..|log| - 1]), log[|log| - 1])
  }

  /** A handler calls `allow` on a bucket it looked up before, and the clock read under a bucket's lock
      never runs behind what that bucket has seen. Nothing relates the clocks of different buckets. */
  ghost predicate Feasible(l: Limit, log: seq<Event>) {
    log != [] ==>
      var before, e := log[..|log| - 1], log[|log| - 1];
      && Feasible(l, before)
      && (e.Allow? ==> e.source in Replay(l, before) && Replay(l, before)[e.source].lastFill <= e.at)
  }

  /** The times of the `allow` calls of one source. */
  function Requests(log: seq<Event>, s: string): seq<real> {
    if log == [] then []
    else
      var e := log[|log| - 1];
      Requests(log[..|log| - 1], s) + if e.Allow? && e.source == s then [e.at] else []
  }

  /** The answers of the shared limiter to the requests of one source. */
  function Answers(l: Limit, log: seq<Event>, s: string): seq<bool> {
    if log == [] then []
    else
      var before, e := log[..|log| - 1], log[|log| - 1];
      var buckets := Replay(l, before);
      Answers(l, before, s) +
      if e.Allow? && e.source == s && s in buckets then [Admits(l, buckets[s], e.at)] else []
  }

  /** What the shared limiter knows about one source is what a bucket of its own would know. */
  ghost predicate Isolated(l: Limit, log: seq<Event>, s: string, created: real) {
    if s in Replay(l, log) then
      && Ordered(created, Requests(log, s))
      && Replay(l, log)[s] == After(l, created, Requests(log, s))
      && Answers(l, log, s) == Decisions(l, created, Requests(log, s))
    else
      Requests(log, s) == [] && Answers(l, log, s) == []
  }

  lemma IsolationAtLookup(l: Limit, log: seq<Event>, s: string, created: real)
    requires Feasible(l, log) && log != [] && log[|log| - 1] == Lookup(s, log[|log| - 1].at)
    requires Isolated(l, log[..|log| - 1], s, created)
    ensures Isolated(l, log, s, if s in Replay(l, log[..|log| - 1]) then created else log[|log| - 1].at)
  {
    assert Requests(log, s) == Requests(log[..|log| - 1], s);
    assert Answers(l, log, s) == Answers(l, log[..|log| - 1], s);
  }

  /** What one `allow` on a bucket that exists adds to the record of its source. */
  lemma AllowRecorded(l: Limit, log: seq<Event>, s: string, t: real)
    requires s in Replay(l, log)
    ensures Replay(l, log + [Allow(s, t)]) == Replay(l, log)[s := Take(l, Replay(l, log)[s], t)]
    ensures Requests(log + [Allow(s, t)], s) == Requests(log, s) + [t]
    ensures Answers(l, log + [Allow(s, t)], s) == Answers(l, log, s) + [Admits(l, Replay(l, log)[s], t)]
  {
    assert (log + [Allow(s, t)])[..|log|] == log;
  }

  lemma IsolationAtAllow(l: Limit, log: seq<Event>, s: string, created: real)
    requires Feasible(l, log) && log != [] && log[|log| - 1] == Allow(s, log[|log| - 1].at)
    requires Isolated(l, log[..|log| - 1], s, created)
    ensures Isolated(l, log, s, created)
  {
    var before, t := log[..|log| - 1], log[|log| - 1].at;
    assert log == before + [Allow(s, t)];
    AllowRecorded(l, before, s, t);
    OneMoreRequest(l, created, Requests(before, s), t);
  }

  lemma IsolationAtOther(l: Limit, log: seq<Event>, s: string, created: real)
    requires log != [] && log[|log| - 1].source != s
    requires Isolated(l, log[..|log| - 1], s, created)
    ensures Isolated(l, log, s, created)
  {
    assert Requests(log, s) == Requests(log[..|log| - 1], s);
    assert Answers(l, log, s) == Answers(l, log[..|log| - 1], s);
  }

  lemma {:induction false} Isolation(l: Limit, log: seq<Event>, s: string) returns (created: real)
    requires Feasible(l, log)
    ensures Isolated(l, log, s, created)
  {
    created := 0.0;
    if log != [] {
      var before, e := log[..|log| - 1], log[|log| - 1];
      created := Isolation(l, before, s);
      if e.source != s {
        IsolationAtOther(l, log, s, created);
      } else if e.Allow? {
        IsolationAtAllow(l, log, s, created);
      } else {
        IsolationAtLookup(l, log, s, created);
        created := if s in Replay(l, before) then created else e.at;
      }
    }
  }

  /** However the sections of different sources interleave, source s is treated as by one full bucket,
      created at any time before its first request and run on its requests alone. */
  lemma PerSourceRefinement(l: Limit, log: seq<Event>, s: string, eager: real)
    requires Feasible(l, log) && Ordered(eager, Requests(log, s))
    ensures Answers(l, log, s) == Decisions(l, eager, Requests(log, s))
  {
    var created := Isolation(l, log, s);
    if s in Replay(l, log) {
      CreationTimeIrrelevant(l, eager, created, Requests(log, s));
    }
  }

  /** The requests of a source come in clock order, so every result about one bucket applies to it. */
  lemma RequestsOrdered(l: Limit, log: seq<Event>, s: string)
    requires Feasible(l, log)
    ensures Requests(log, s) != [] ==> Ordered(Requests(log, s)[0], Requests(log, s))
    ensures |Answers(l, log, s)| == |Requests(log, s)|
  {
    var created := Isolation(l, log, s);
  }

  /** Number of admissions of source s in a log. */
  function Admissions(l: Limit, log: seq<Event>, s: string): nat {
    Admitted(Answers(l, log, s), 0, |Answers(l, log, s)|)
  }

  /** The whole-run bound of one source in the shared limiter, from its first to its last request. */
  lemma AdmissionBound(l: Limit, log: seq<Event>, s: string)
    requires Feasible(l, log)
    ensures
      var times := Requests(log, s);
      if times == [] then Admissions(l, log, s) == 0
      else Admissions(l, log, s) as real <= Burst(l) + Gain(l, times[0], times[|times| - 1])
  {
    var times := Requests(log, s);
    RequestsOrdered(l, log, s);
    if times != [] {
      PerSourceRefinement(l, log, s, times[0]);
      WindowBoundInGain(l, times[0], times, 0, |times| - 1);
    }
  }

  /** One bucket object; its lock makes `Allow` atomic. */
  class Bucket {
    var tokens: real
    const limit: Limit
    var lastFill: real

    constructor (cfg: Limit, now: real)
      ensures limit == cfg && Value() == Full(cfg, now)
    {
      tokens := Burst(cfg);
      limit := cfg;
      lastFill := now;
    }

    ghost function Value(): Fill
      reads this
    {
      Fill(tokens, lastFill)
    }

    method Allow(now: real) returns (ok: bool)
      modifies this
      ensures ok == Admits(limit, old(Value()), now)
      ensures Value() == Take(limit, old(Value()), now)
    {
      var elapsed := now - lastFill;
      assert Rate(limit) * elapsed == Gain(limit, lastFill, now);
      lastFill := now;
      tokens := tokens + Rate(limit) * elapsed;
      assert tokens == old(tokens) + Gain(limit, old(lastFill), now);
      if tokens > limit.burstSize as real {
        tokens := limit.burstSize as real;
      }
      assert tokens == Refilled(limit, old(Value()), now);
      if tokens < 1.0 {
        return false;
      }
      tokens := tokens - 1.0;
      return true;
    }
  }

  class Limiter {
    const cfg: Limit
    var buckets: map<string, Bucket>

    /** Every source has a bucket object of its own. */
    ghost predicate Valid()
      reads this, buckets.Values
    {
      && (forall s | s in buckets :: buckets[s].limit == cfg)
      && (forall s, s' | s in buckets && s' in buckets && s != s' :: buckets[s] != buckets[s'])
    }

    ghost function View(): Buckets
      reads this, buckets.Values
    {
      map s | s in buckets :: buckets[s].Value()
    }

    constructor (cfg: Limit)
      ensures Valid() && this.cfg == cfg && View() == Replay(cfg, [])
    {
      this.cfg := cfg;
      buckets := map[];
    }

    method BucketFor(source: string, now: real) returns (b: Bucket)
      requires Valid()
      modifies this
      ensures Valid() && source in buckets && b == buckets[source]
      ensures View() == Step(cfg, old(View()), Lookup(source, now))
      ensures fresh(buckets.Values - old(buckets.Values))
    {
      if source in buckets {
        return buckets[source];
      }
      b := new Bucket(cfg, now);
      buckets := buckets[source := b];
    }

    /** The handler: look the bucket up, then ask it. `created` and `now` are the two clock readings. */
    method Handle(source: string, created: real, now: real) returns (ok: bool)
      requires Valid()
      modifies this, buckets.Values
      ensures Valid()
      ensures
        var looked := Step(cfg, old(View()), Lookup(source, created));
        && source in looked
        && ok == Admits(cfg, looked[source], now)
        && View() == Step(cfg, looked, Allow(source, now))
    {
      var b := BucketFor(source, created);
      ghost var looked := View();
      assert b.Value() == looked[source];
      ok := b.Allow(now);
    }
  }
}
