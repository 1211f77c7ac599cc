/** The limiter at work inside the pipeline: its state is the replay of its log, and it bounds
    what each source ever gets into the batcher, whatever the number of workers and their schedule. */
module PipelineLimits {
  import opened Outcomes
  import opened TokenBucket
  import opened RateLimiter
  import opened Pipeline
  import opened PipelineTheorems
  import Batching

  /** Buckets mirror the log, and no bucket has seen a time later than the clock. */
  ghost predicate LimiterInv(l: Limit, s: State) {
    && Feasible(l, s.limiterLog)
    && s.buckets == Replay(l, s.limiterLog)
    && (forall src | src in s.buckets :: s.buckets[src].lastFill <= s.clock)
    && (forall i | 0 <= i < |s.workers| && s.workers[i].LookedUp? :: s.workers[i].p.source in s.buckets)
  }

  lemma LogGrows(l: Limit, log: seq<Event>, e: Event)
    requires Feasible(l, log)
    requires e.Allow? ==> e.source in Replay(l, log) && Replay(l, log)[e.source].lastFill <= e.at
    ensures Feasible(l, log + [e]) && Replay(l, log + [e]) == Step(l, Replay(l, log), e)
  {
    assert (log + [e])[..|log|] == log;
  }

  lemma LimiterMove(c: Config, l: Limit, s: State, w: nat, m: Move)
    requires c.limit == Some(l) && LimiterInv(l, s) && w < |s.workers| && CanMove(c, s, w, m)
    ensures LimiterInv(l, Moved(c, s, w, m))
  {
    var t := Moved(c, s, w, m);
    var me := s.workers[w];
    assert t.workers == s.workers[w := t.workers[w]];
    if m.LookUp? {
      LogGrows(l, s.limiterLog, Lookup(me.p.source, s.clock));
    } else if m.Ask? {
      LogGrows(l, s.limiterLog, Allow(me.p.source, s.clock));
    }
  }

  function CountSource(ps: seq<Payload>, src: string): nat {
    if ps == [] then 0 else CountSource(ps[..|ps| - 1], src) + if ps[|ps| - 1].source == src then 1 else 0
  }

  /** 1 for a worker that carries an admitted payload of `src` towards the batcher. */
  function Carries(src: string): Worker -> nat {
    (worker: Worker) => if (worker.Passed? || worker.Approved?) && worker.p.source == src then 1 else 0
  }

  /** Every payload of `src` in the batcher, or admitted and on its way, used up one admission. */
  ghost predicate UsedInv(l: Limit, s: State, src: string) {
    CountSource(Delivered(s), src) + Sum(s.workers, Carries(src)) <= Admissions(l, s.limiterLog, src)
  }

  lemma AnswersGrow(l: Limit, log: seq<Event>, e: Event, src: string)
    ensures Answers(l, log + [e], src) == Answers(l, log, src) +
            if e.Allow? && e.source == src && src in Replay(l, log) then [Admits(l, Replay(l, log)[src], e.at)] else []
  {
    assert (log + [e])[..|log|] == log;
  }

  lemma AdmissionsGrow(l: Limit, log: seq<Event>, e: Event, src: string)
    ensures
      var admitted := e.Allow? && e.source == src && src in Replay(l, log) && Admits(l, Replay(l, log)[src], e.at);
      Admissions(l, log + [e], src) == Admissions(l, log, src) + if admitted then 1 else 0
  {
    AnswersGrow(l, log, e, src);
    if e.Allow? && e.source == src && src in Replay(l, log) {
      AdmittedSnoc(Answers(l, log, src), Admits(l, Replay(l, log)[src], e.at));
    } else {
      assert Answers(l, log + [e], src) == Answers(l, log, src);
    }
  }

  lemma AdmittedSnoc(ds: seq<bool>, d: bool)
    ensures Admitted(ds + [d], 0, |ds| + 1) == Admitted(ds, 0, |ds|) + if d then 1 else 0
  {
    AdmittedPrefix(ds, ds + [d], |ds|);
  }

  lemma {:induction false} AdmittedPrefix(a: seq<bool>, b: seq<bool>, n: nat)
    requires n <= |a| && a <= b
    ensures Admitted(a, 0, n) == Admitted(b, 0, n)
  {
    if n > 0 {
      AdmittedPrefix(a, b, n - 1);
    }
  }

  lemma FlowLookUp(c: Config, l: Limit, s: State, w: nat, src: string)
    requires c.limit == Some(l) && UsedInv(l, s, src) && w < |s.workers| && CanMove(c, s, w, LookUp)
    ensures UsedInv(l, Moved(c, s, w, LookUp), src)
  {
    var p := s.workers[w].p;
    SumUpdate(s.workers, w, LookedUp(p), Carries(src));
    AdmissionsGrow(l, s.limiterLog, Lookup(p.source, s.clock), src);
  }

  /** Asking the limiter uses up an admission if and only if it lets the payload through. */
  lemma FlowAsk(c: Config, l: Limit, s: State, w: nat, src: string)
    requires c.limit == Some(l) && LimiterInv(l, s) && UsedInv(l, s, src) && w < |s.workers| && CanMove(c, s, w, Ask)
    ensures UsedInv(l, Moved(c, s, w, Ask), src)
  {
    var t, p := Moved(c, s, w, Ask), s.workers[w].p;
    assert t.workers == s.workers[w := t.workers[w]] && t.batcher == s.batcher;
    SumUpdate(s.workers, w, t.workers[w], Carries(src));
    AdmissionsGrow(l, s.limiterLog, Allow(p.source, s.clock), src);
  }

  lemma FlowAppend(c: Config, l: Limit, s: State, w: nat, src: string)
    requires c.limit == Some(l) && UsedInv(l, s, src) && w < |s.workers| && CanMove(c, s, w, Append)
    ensures UsedInv(l, Moved(c, s, w, Append), src)
  {
    var t, p := Moved(c, s, w, Append), s.workers[w].p;
    assert t.workers == s.workers[w := t.workers[w]];
    SumUpdate(s.workers, w, t.workers[w], Carries(src));
    DeliveredSnoc(s.batcher, p, src);
  }

  lemma DeliveredSnoc(b: Batching.State<Payload>, p: Payload, src: string)
    ensures CountSource(Batching.History(Batching.Append(b, p)), src) ==
            CountSource(Batching.History(b), src) + if p.source == src then 1 else 0
  {
    Batching.AppendExtendsHistory(b, p);
    assert (Batching.History(b) + [p])[..|Batching.History(b)|] == Batching.History(b);
  }

  lemma FlowOther(c: Config, l: Limit, s: State, w: nat, m: Move, src: string)
    requires c.limit == Some(l) && UsedInv(l, s, src)
    requires w < |s.workers| && CanMove(c, s, w, m) && !m.LookUp? && !m.Ask?
    ensures UsedInv(l, Moved(c, s, w, m), src)
  {
    if m.Append? {
      FlowAppend(c, l, s, w, src);
    } else {
      var t := Moved(c, s, w, m);
      SumUpdate(s.workers, w, t.workers[w], Carries(src));
      assert t.workers == s.workers[w := t.workers[w]];
      Batching.DrainKeepsHistory(s.batcher);
    }
  }

  lemma {:induction false} LimiterRun(c: Config, l: Limit, start: real, acts: seq<Action>, src: string)
    requires c.limit == Some(l) && IsRun(c, Init(c, start), acts)
    ensures
      var s := Exec(c, Init(c, start), acts);
      LimiterInv(l, s) && UsedInv(l, s, src)
  {
    if acts == [] {
      SumZero(Init(c, start).workers, Carries(src));
    } else {
      var front, a := acts[..|acts| - 1], acts[|acts| - 1];
      LimiterRun(c, l, start, front, src);
      var s := Exec(c, Init(c, start), front);
      match a
      case Work(w, m) =>
        LimiterMove(c, l, s, w, m);
        if m.LookUp? {
          FlowLookUp(c, l, s, w, src);
        } else if m.Ask? {
          FlowAsk(c, l, s, w, src);
        } else {
          FlowOther(c, l, s, w, m, src);
        }
      case ExternalFlush => Batching.DrainKeepsHistory(s.batcher);
      case _ =>
    }
  }

  /** In every reachable state, the decisions taken for a source are those of a full bucket of its own
      run on its requests alone; in particular the window bounds hold across all workers. */
  lemma {:induction false} SharedLimiterIsPerSource(c: Config, l: Limit, start: real, acts: seq<Action>, src: string)
    requires c.limit == Some(l) && IsRun(c, Init(c, start), acts)
    ensures
      var log := Exec(c, Init(c, start), acts).limiterLog;
      var times, answers := Requests(log, src), Answers(l, log, src);
      && |answers| == |times|
      && (times != [] ==> answers == Decisions(l, times[0], times))
      && RespectsWindows(l, times, answers)
  {
    LimiterRun(c, l, start, acts, src);
    var log := Exec(c, Init(c, start), acts).limiterLog;
    RequestsOrdered(l, log, src);
    var times := Requests(log, src);
    if times != [] {
      PerSourceRefinement(l, log, src, times[0]);
      WindowBound(l, times[0], times);
    }
  }

  lemma {:induction false} ThroughputInGain(c: Config, l: Limit, start: real, acts: seq<Action>, src: string)
    requires c.limit == Some(l) && IsRun(c, Init(c, start), acts)
    ensures
      var s := Exec(c, Init(c, start), acts);
      var times := Requests(s.limiterLog, src);
      if times == [] then CountSource(Delivered(s), src) == 0
      else CountSource(Delivered(s), src) as real <= Burst(l) + Gain(l, times[0], s.clock)
  {
    var s := Exec(c, Init(c, start), acts);
    LimiterRun(c, l, start, acts, src);
    AdmissionBound(l, s.limiterLog, src);
    var times := Requests(s.limiterLog, src);
    if times != [] {
      var created := Isolation(l, s.limiterLog, src);
      LastFillAfter(l, created, times);
      GainAdds(l, times[0], times[|times| - 1], s.clock);
      GainGrows(l, times[|times| - 1], s.clock);
    }
  }

  /** What a source may have had passed by a time. */
  ghost predicate WithinAllowance(l: Limit, times: seq<real>, passed: nat, now: real) {
    if times == [] then passed == 0
    else passed as real <= l.burstSize as real + l.requestsPerSecond as real * (now - times[0])
  }

  lemma Allowed(l: Limit, times: seq<real>, passed: nat, now: real)
    requires if times == [] then passed == 0 else passed as real <= Burst(l) + Gain(l, times[0], now)
    ensures WithinAllowance(l, times, passed, now)
  {
    if times != [] {
      AllowanceUntil(l, times[0], now, passed);
    }
  }

  /** With the limiter in the chain, a source never has more payloads handed to the batcher than the configured burst
      size plus the configured rate times the time since its first use, and none before that. */
  lemma {:induction false} ThroughputBound(c: Config, l: Limit, start: real, acts: seq<Action>, src: string)
    requires c.limit == Some(l) && IsRun(c, Init(c, start), acts)
    ensures
      var s := Exec(c, Init(c, start), acts);
      WithinAllowance(l, Requests(s.limiterLog, src), CountSource(Delivered(s), src), s.clock)
  {
    var s := Exec(c, Init(c, start), acts);
    ThroughputInGain(c, l, start, acts, src);
    Allowed(l, Requests(s.limiterLog, src), CountSource(Delivered(s), src), s.clock);
  }

  // ---- What the limiter denies ----

  /** Asking the limiter lets a payload through or denies it, as the logged answer says. */
  ghost predicate DeniedInv(l: Limit, s: State, src: string) {
    CountSource(s.denied, src) + Admissions(l, s.limiterLog, src) == |Answers(l, s.limiterLog, src)|
  }

  lemma DeniedAsk(c: Config, l: Limit, s: State, w: nat, src: string)
    requires c.limit == Some(l) && LimiterInv(l, s) && DeniedInv(l, s, src) && w < |s.workers| && CanMove(c, s, w, Ask)
    ensures DeniedInv(l, Moved(c, s, w, Ask), src)
  {
    var p := s.workers[w].p;
    AdmissionsGrow(l, s.limiterLog, Allow(p.source, s.clock), src);
    AnswersGrow(l, s.limiterLog, Allow(p.source, s.clock), src);
    assert (s.denied + [p])[..|s.denied|] == s.denied;
  }

  lemma DeniedOther(c: Config, l: Limit, s: State, w: nat, m: Move, src: string)
    requires DeniedInv(l, s, src) && w < |s.workers| && CanMove(c, s, w, m) && !m.Ask?
    requires c.limit == Some(l)
    ensures DeniedInv(l, Moved(c, s, w, m), src)
  {
    if m.LookUp? {
      var p := s.workers[w].p;
      AdmissionsGrow(l, s.limiterLog, Lookup(p.source, s.clock), src);
      AnswersGrow(l, s.limiterLog, Lookup(p.source, s.clock), src);
    }
  }

  lemma DeniedStep(c: Config, l: Limit, s: State, a: Action, src: string)
    requires c.limit == Some(l) && LimiterInv(l, s) && DeniedInv(l, s, src) && Enabled(c, s, a)
    ensures DeniedInv(l, Next(c, s, a), src)
  {
    if a.Work? && a.move.Ask? {
      DeniedAsk(c, l, s, a.w, src);
    } else if a.Work? {
      DeniedOther(c, l, s, a.w, a.move, src);
    } else {
      assert Next(c, s, a).limiterLog == s.limiterLog && Next(c, s, a).denied == s.denied;
    }
  }

  lemma {:induction false} DeniedRun(c: Config, l: Limit, start: real, acts: seq<Action>, src: string)
    requires c.limit == Some(l) && IsRun(c, Init(c, start), acts)
    ensures DeniedInv(l, Exec(c, Init(c, start), acts), src)
  {
    if acts != [] {
      var front := acts[..|acts| - 1];
      DeniedRun(c, l, start, front, src);
      LimiterRun(c, l, start, front, src);
      DeniedStep(c, l, Exec(c, Init(c, start), front), acts[|acts| - 1], src);
    }
  }

  /** The time as the run tells it. */
  function ClockAt(start: real, acts: seq<Action>): real {
    if acts == [] then start
    else if acts[|acts| - 1].Tick? then acts[|acts| - 1].to
    else ClockAt(start, acts[..|acts| - 1])
  }

  /** What happened when workers asked the limiter about payloads of `src`: the times, and who went on. */
  ghost function Asked(c: Config, start: real, acts: seq<Action>, src: string): seq<(real, bool)>
    requires IsRun(c, Init(c, start), acts)
  {
    if acts == [] then []
    else
      var front, a := acts[..|acts| - 1], acts[|acts| - 1];
      var s := Exec(c, Init(c, start), front);
      Asked(c, start, front, src) +
      if a.Work? && a.move.Ask? && s.workers[a.w].p.source == src then
        [(ClockAt(start, front), Moved(c, s, a.w, Ask).workers[a.w] == Passed(s.workers[a.w].p))]
      else []
  }

  function Times(xs: seq<(real, bool)>): seq<real> { seq(|xs|, i requires 0 <= i < |xs| => xs[i].0) }

  function WentOn(xs: seq<(real, bool)>): seq<bool> { seq(|xs|, i requires 0 <= i < |xs| => xs[i].1) }

  ghost predicate AskedInv(l: Limit, s: State, src: string, asked: seq<(real, bool)>, now: real) {
    && s.clock == now
    && Requests(s.limiterLog, src) == Times(asked)
    && Answers(l, s.limiterLog, src) == WentOn(asked)
  }

  lemma AskedSnoc(xs: seq<(real, bool)>, x: (real, bool))
    ensures Times(xs + [x]) == Times(xs) + [x.0] && WentOn(xs + [x]) == WentOn(xs) + [x.1]
  {
  }

  lemma RequestsGrow(log: seq<Event>, e: Event, src: string)
    ensures Requests(log + [e], src) == Requests(log, src) + if e.Allow? && e.source == src then [e.at] else []
  {
    assert (log + [e])[..|log|] == log;
  }

  lemma AskedAsk(c: Config, l: Limit, s: State, w: nat, src: string, asked: seq<(real, bool)>, now: real)
    requires c.limit == Some(l) && LimiterInv(l, s) && AskedInv(l, s, src, asked, now)
    requires w < |s.workers| && CanMove(c, s, w, Ask)
    ensures
      var p, t := s.workers[w].p, Moved(c, s, w, Ask);
      AskedInv(l, t, src, if p.source == src then asked + [(now, t.workers[w] == Passed(p))] else asked, now)
  {
    var p, t := s.workers[w].p, Moved(c, s, w, Ask);
    AnswersGrow(l, s.limiterLog, Allow(p.source, s.clock), src);
    RequestsGrow(s.limiterLog, Allow(p.source, s.clock), src);
    AskedSnoc(asked, (now, t.workers[w] == Passed(p)));
  }

  lemma AskedOther(c: Config, l: Limit, s: State, a: Action, src: string, asked: seq<(real, bool)>, now: real)
    requires c.limit == Some(l) && AskedInv(l, s, src, asked, now) && Enabled(c, s, a) && !(a.Work? && a.move.Ask?)
    ensures AskedInv(l, Next(c, s, a), src, asked, if a.Tick? then a.to else now)
  {
    if a.Work? && a.move.LookUp? {
      var p := s.workers[a.w].p;
      AnswersGrow(l, s.limiterLog, Lookup(p.source, s.clock), src);
      RequestsGrow(s.limiterLog, Lookup(p.source, s.clock), src);
    } else {
      assert Next(c, s, a).limiterLog == s.limiterLog;
    }
  }

  lemma {:induction false} AskedRun(c: Config, l: Limit, start: real, acts: seq<Action>, src: string)
    requires c.limit == Some(l) && IsRun(c, Init(c, start), acts)
    ensures AskedInv(l, Exec(c, Init(c, start), acts), src, Asked(c, start, acts, src), ClockAt(start, acts))
  {
    if acts != [] {
      var front, a := acts[..|acts| - 1], acts[|acts| - 1];
      var s := Exec(c, Init(c, start), front);
      AskedRun(c, l, start, front, src);
      LimiterRun(c, l, start, front, src);
      if a.Work? && a.move.Ask? {
        AskedAsk(c, l, s, a.w, src, Asked(c, start, front, src), ClockAt(start, front));
      } else {
        AskedOther(c, l, s, a, src, Asked(c, start, front, src), ClockAt(start, front));
      }
    }
  }

  /** In every run, whatever the schedule: the workers that asked about a source's payloads went on or were stopped
      exactly as a full bucket of the source's own would have it, at the times when they asked; and the payloads
      stopped are as many as its refusals. */
  lemma {:induction false} WorkersObeyTheLimiter(c: Config, l: Limit, start: real, acts: seq<Action>, src: string)
    requires c.limit == Some(l) && IsRun(c, Init(c, start), acts)
    ensures
      var asked := Asked(c, start, acts, src);
      && (asked != [] ==> WentOn(asked) == Decisions(l, asked[0].0, Times(asked)))
      && CountSource(Exec(c, Init(c, start), acts).denied, src) + Admitted(WentOn(asked), 0, |asked|) == |asked|
  {
    AskedRun(c, l, start, acts, src);
    DeniedRun(c, l, start, acts, src);
    SharedLimiterIsPerSource(c, l, start, acts, src);
  }
}
