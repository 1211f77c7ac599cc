/** The arithmetic of one token bucket: lazy refill, clipping at capacity, one token per admission.
    Tokens and times are mathematical reals; a run is the list of clock readings taken under the bucket's lock. */
module TokenBucket {

  datatype LimitConfig = LimitConfig(requestsPerSecond: int, burstSize: int)

  /** The configurations that config validation lets through when limiting is enabled. */
  type Limit = l: LimitConfig | l.requestsPerSecond >= 1 && l.burstSize >= 1 witness LimitConfig(1, 1)

  /** The two fields of a bucket that change: its token count and the time of its last refill. */
  datatype Fill = Fill(tokens: real, lastFill: real)

  function Burst(l: Limit): real { l.burstSize as real }

  function Rate(l: Limit): real { l.requestsPerSecond as real }

  function Full(l: Limit, created: real): Fill { Fill(Burst(l), created) }

  /** Tokens earned between two clock readings. */
  function Gain(l: Limit, from: real, to: real): real { Rate(l) * (to - from) }

  /** Tokens available at `now`, before any is taken. */
  function Refilled(l: Limit, b: Fill, now: real): real {
    var grown := b.tokens + Gain(l, b.lastFill, now);
    if grown > Burst(l) then Burst(l) else grown
  }

  predicate Admits(l: Limit, b: Fill, now: real) { Refilled(l, b, now) >= 1.0 }

  function Take(l: Limit, b: Fill, now: real): Fill {
    Fill(Refilled(l, b, now) - if Admits(l, b, now) then 1.0 else 0.0, now)
  }

  /** The bucket left by requests at `times`, starting full at `created`. */
  function After(l: Limit, created: real, times: seq<real>): Fill {
    if times == [] then Full(l, created)
    else Take(l, After(l, created, times[..|times| - 1]), times[|times| - 1])
  }

  /** What `allow` answers to each of the requests. */
  function Decisions(l: Limit, created: real, times: seq<real>): (ds: seq<bool>)
    ensures |ds| == |times|
  {
    if times == [] then []
    else
      var before := times[..|times| - 1];
      Decisions(l, created, before) + [Admits(l, After(l, created, before), times[|times| - 1])]
  }

  /** Number of admissions among the requests i, ..., j - 1. */
  function Admitted(ds: seq<bool>, i: nat, j: nat): nat
    requires j <= |ds|
  {
    if j <= i then 0 else Admitted(ds, i, j - 1) + if ds[j - 1] then 1 else 0
  }

  ghost predicate Ordered(created: real, times: seq<real>) {
    && (forall i | 0 <= i < |times| :: created <= times[i])
    && (forall i, j | 0 <= i <= j < |times| :: times[i] <= times[j])
  }

  /** The room that the window opened by request i leaves for request n. */
  ghost function Room(l: Limit, times: seq<real>, ds: seq<bool>, i: nat, n: nat): real
    requires i <= n < |times| && |ds| == |times|
  {
    Burst(l) + Gain(l, times[i], times[n]) - Admitted(ds, i, n) as real
  }

  /** A decision sequence keeps the contract of the limiter: every window admits at most burst + rate * length. */
  ghost predicate RespectsWindows(l: Limit, times: seq<real>, ds: seq<bool>)
    requires |ds| == |times|
  {
    forall i: nat, j: nat | i <= j < |times| ::
      Admitted(ds, i, j + 1) as real <= Burst(l) + Gain(l, times[i], times[j])
  }

  // ---- Reading a run at a prefix ----

  lemma {:induction false} DecisionsPrefix(l: Limit, created: real, times: seq<real>, n: nat)
    requires n <= |times|
    ensures Decisions(l, created, times[..n]) == Decisions(l, created, times)[..n]
  {
    if n == |times| {
      assert times[..n] == times;
    } else {
      var before := times[..|times| - 1];
      DecisionsPrefix(l, created, before, n);
      assert before[..n] == times[..n];
    }
  }

  lemma DecisionAt(l: Limit, created: real, times: seq<real>, n: nat)
    requires n < |times|
    ensures Decisions(l, created, times)[n] == Admits(l, After(l, created, times[..n]), times[n])
    ensures After(l, created, times[..n + 1]) == Take(l, After(l, created, times[..n]), times[n])
  {
    DecisionsPrefix(l, created, times, n + 1);
    assert times[..n + 1][..n] == times[..n];
  }

  lemma {:induction false} AdmittedSplit(ds: seq<bool>, i: nat, m: nat, j: nat)
    requires i <= m <= j <= |ds|
    ensures Admitted(ds, i, j) == Admitted(ds, i, m) + Admitted(ds, m, j)
  {
    if m < j {
      AdmittedSplit(ds, i, m, j - 1);
    }
  }

  lemma {:induction false} LastFillAfter(l: Limit, created: real, times: seq<real>)
    ensures After(l, created, times).lastFill == if times == [] then created else times[|times| - 1]
  {
  }

  lemma OrderedSnoc(created: real, times: seq<real>, t: real)
    requires Ordered(created, times) && (if times == [] then created else times[|times| - 1]) <= t
    ensures Ordered(created, times + [t])
  {
    var longer := times + [t];
    forall i | 0 <= i < |longer|
      ensures created <= longer[i] <= t
    {
      if i < |times| {
        assert times[i] <= times[|times| - 1];
      }
    }
  }

  lemma OneMoreRequest(l: Limit, created: real, times: seq<real>, t: real)
    requires Ordered(created, times) && After(l, created, times).lastFill <= t
    ensures Ordered(created, times + [t])
    ensures After(l, created, times + [t]) == Take(l, After(l, created, times), t)
    ensures Decisions(l, created, times + [t]) ==
            Decisions(l, created, times) + [Admits(l, After(l, created, times), t)]
  {
    LastFillAfter(l, created, times);
    OrderedSnoc(created, times, t);
    RunSnoc(l, created, times, t);
  }

  lemma RunSnoc(l: Limit, created: real, times: seq<real>, t: real)
    ensures After(l, created, times + [t]) == Take(l, After(l, created, times), t)
    ensures Decisions(l, created, times + [t]) ==
            Decisions(l, created, times) + [Admits(l, After(l, created, times), t)]
  {
    assert (times + [t])[..|times|] == times;
  }

  // ---- The closed form ----

  lemma GainAdds(l: Limit, a: real, b: real, c: real)
    ensures Gain(l, a, c) == Gain(l, a, b) + Gain(l, b, c)
  {
  }

  lemma GainGrows(l: Limit, a: real, b: real)
    requires a <= b
    ensures Gain(l, a, b) >= 0.0
  {
  }

  /** From one request to the next, every open window gains the refill and loses the admission. */
  lemma RoomStep(l: Limit, times: seq<real>, ds: seq<bool>, i: nat, n: nat)
    requires i < n < |times| && |ds| == |times|
    ensures Room(l, times, ds, i, n) == Room(l, times, ds, i, n - 1)
                                        - (if ds[n - 1] then 1.0 else 0.0) + Gain(l, times[n - 1], times[n])
  {
    GainAdds(l, times[i], times[n - 1], times[n]);
  }

  lemma RoomNow(l: Limit, times: seq<real>, ds: seq<bool>, n: nat)
    requires n < |times| && |ds| == |times|
    ensures Room(l, times, ds, n, n) == Burst(l)
  {
  }

  /** What request n finds in the bucket. */
  ghost function LevelAt(l: Limit, created: real, times: seq<real>, n: nat): real
    requires n < |times|
  {
    Refilled(l, After(l, created, times[..n]), times[n])
  }

  lemma LevelStep(l: Limit, created: real, times: seq<real>, n: nat)
    requires 0 < n < |times|
    ensures
      var taken := if Decisions(l, created, times)[n - 1] then 1.0 else 0.0;
      var grown := LevelAt(l, created, times, n - 1) - taken + Gain(l, times[n - 1], times[n]);
      LevelAt(l, created, times, n) == if grown > Burst(l) then Burst(l) else grown
  {
    DecisionAt(l, created, times, n - 1);
    TakeThenRefill(l, After(l, created, times[..n - 1]), times[n - 1], times[n]);
  }

  lemma TakeThenRefill(l: Limit, b: Fill, mid: real, t: real)
    ensures
      var grown := Refilled(l, b, mid) - (if Admits(l, b, mid) then 1.0 else 0.0) + Gain(l, mid, t);
      Refilled(l, Take(l, b, mid), t) == if grown > Burst(l) then Burst(l) else grown
  {
  }

  lemma LevelFirst(l: Limit, created: real, times: seq<real>)
    requires times != [] && created <= times[0]
    ensures LevelAt(l, created, times, 0) == Burst(l)
  {
    assert times[..0] == [];
    GainGrows(l, created, times[0]);
  }

  /** The token count found by request n is the least room over all windows that end in it. */
  lemma {:induction false} ClosedForm(l: Limit, created: real, times: seq<real>, n: nat) returns (narrowest: nat)
    requires n < |times| && Ordered(created, times)
    ensures
      var ds := Decisions(l, created, times);
      && (forall i: nat | i <= n :: LevelAt(l, created, times, n) <= Room(l, times, ds, i, n))
      && narrowest <= n && LevelAt(l, created, times, n) == Room(l, times, ds, narrowest, n)
  {
    var ds := Decisions(l, created, times);
    RoomNow(l, times, ds, n);
    if n == 0 {
      LevelFirst(l, created, times);
      narrowest := 0;
    } else {
      narrowest := ClosedForm(l, created, times, n - 1);
      LevelStep(l, created, times, n);
      forall i: nat | i < n
        ensures Room(l, times, ds, i, n) == Room(l, times, ds, i, n - 1)
                                            - (if ds[n - 1] then 1.0 else 0.0) + Gain(l, times[n - 1], times[n])
      {
        RoomStep(l, times, ds, i, n);
      }
      if LevelAt(l, created, times, n) == Burst(l) {
        narrowest := n;
      }
    }
  }

  lemma ExactByRoom(l: Limit, created: real, times: seq<real>, n: nat)
    requires n < |times| && Ordered(created, times)
    ensures
      var ds := Decisions(l, created, times);
      ds[n] <==> forall i: nat | i <= n :: Room(l, times, ds, i, n) >= 1.0
  {
    var narrowest := ClosedForm(l, created, times, n);
    DecisionAt(l, created, times, n);
  }

  /** What a window allows, in terms of the configuration. */
  lemma Allowance(l: Limit, times: seq<real>, i: nat, j: nat, k: nat)
    requires i <= j < |times|
    ensures k as real <= Burst(l) + Gain(l, times[i], times[j]) <==>
            k as real <= l.burstSize as real + l.requestsPerSecond as real * (times[j] - times[i])
  {
  }

  lemma AllowanceUntil(l: Limit, from: real, to: real, k: nat)
    ensures k as real <= Burst(l) + Gain(l, from, to) <==>
            k as real <= l.burstSize as real + l.requestsPerSecond as real * (to - from)
  {
  }

  lemma RoomIs(l: Limit, times: seq<real>, ds: seq<bool>, i: nat, n: nat)
    requires i <= n < |times| && |ds| == |times|
    ensures Room(l, times, ds, i, n) == Burst(l) + Gain(l, times[i], times[n]) - Admitted(ds, i, n) as real
  {
  }

  lemma OneMoreFits(l: Limit, times: seq<real>, i: nat, n: nat, k: nat, room: real)
    requires i <= n < |times| && room == Burst(l) + Gain(l, times[i], times[n]) - k as real
    ensures room >= 1.0 <==>
            k as real + 1.0 <= l.burstSize as real + l.requestsPerSecond as real * (times[n] - times[i])
  {
  }

  lemma {:induction false} RoomForOne(l: Limit, times: seq<real>, ds: seq<bool>, i: nat, n: nat)
    requires i <= n < |times| && |ds| == |times|
    ensures Room(l, times, ds, i, n) >= 1.0 <==>
            Admitted(ds, i, n) as real + 1.0 <=
            l.burstSize as real + l.requestsPerSecond as real * (times[n] - times[i])
  {
    RoomIs(l, times, ds, i, n);
    OneMoreFits(l, times, i, n, Admitted(ds, i, n), Room(l, times, ds, i, n));
  }

  /** Request n is admitted exactly when, for every window ending in it, one more admission keeps the window within
      the configured burst size plus the configured rate times its length. */
  lemma {:induction false} Exactness(l: Limit, created: real, times: seq<real>, n: nat)
    requires n < |times| && Ordered(created, times)
    ensures
      var ds := Decisions(l, created, times);
      ds[n] <==> forall i: nat | i <= n ::
        Admitted(ds, i, n) as real + 1.0 <= l.burstSize as real + l.requestsPerSecond as real * (times[n] - times[i])
  {
    ExactByRoom(l, created, times, n);
    forall i: nat | i <= n {
      RoomForOne(l, times, Decisions(l, created, times), i, n);
    }
  }

  /** Every window of every run obeys the burst + rate bound, whichever two requests delimit it. */
  lemma {:induction false} WindowBound(l: Limit, created: real, times: seq<real>)
    requires Ordered(created, times)
    ensures RespectsWindows(l, times, Decisions(l, created, times))
  {
    var ds := Decisions(l, created, times);
    forall i: nat, j: nat | i <= j < |times|
      ensures Admitted(ds, i, j + 1) as real <= Burst(l) + Gain(l, times[i], times[j])
    {
      WindowBoundInGain(l, created, times, i, j);
    }
  }

  lemma {:induction false} WindowBoundInGain(l: Limit, created: real, times: seq<real>, i: nat, j: nat)
    requires i <= j < |times| && Ordered(created, times)
    ensures Admitted(Decisions(l, created, times), i, j + 1) as real <= Burst(l) + Gain(l, times[i], times[j])
  {
    var ds := Decisions(l, created, times);
    ExactByRoom(l, created, times, j);
    if ds[j] {
      assert Room(l, times, ds, i, j) >= 1.0;
    } else if i < j {
      WindowBoundInGain(l, created, times, i, j - 1);
      RoomStep(l, times, ds, i, j);
      GainGrows(l, times[j - 1], times[j]);
    } else {
      RoomNow(l, times, ds, j);
    }
  }

  /** Between any two requests, no more admissions than the configured burst size plus the rate times the time. */
  lemma {:induction false} WindowBoundAt(l: Limit, created: real, times: seq<real>, i: nat, j: nat)
    requires i <= j < |times| && Ordered(created, times)
    ensures Admitted(Decisions(l, created, times), i, j + 1) as real <=
            l.burstSize as real + l.requestsPerSecond as real * (times[j] - times[i])
  {
    WindowBoundInGain(l, created, times, i, j);
    Allowance(l, times, i, j, Admitted(Decisions(l, created, times), i, j + 1));
  }

  // ---- Optimality ----

  lemma WindowGivesRoom(l: Limit, times: seq<real>, ds: seq<bool>, i: nat, n: nat)
    requires i <= n < |times| && |ds| == |times| && ds[n] && RespectsWindows(l, times, ds)
    ensures Room(l, times, ds, i, n) >= 1.0
  {
    assert Admitted(ds, i, n + 1) == Admitted(ds, i, n) + 1;
  }

  /** No policy that keeps the window contract on the same requests is ever ahead of the bucket. */
  lemma {:induction false} Optimality(l: Limit, created: real, times: seq<real>, rival: seq<bool>, n: nat)
    requires Ordered(created, times) && |rival| == |times| && n <= |times|
    requires RespectsWindows(l, times, rival)
    ensures Admitted(rival, 0, n) <= Admitted(Decisions(l, created, times), 0, n)
  {
    if n > 0 {
      var ds := Decisions(l, created, times);
      Optimality(l, created, times, rival, n - 1);
      if rival[n - 1] && !ds[n - 1] && Admitted(rival, 0, n - 1) == Admitted(ds, 0, n - 1) {
        ExactByRoom(l, created, times, n - 1);
        var i: nat :| i <= n - 1 && Room(l, times, ds, i, n - 1) < 1.0;
        WindowGivesRoom(l, times, rival, i, n - 1);
        AdmittedSplit(rival, 0, i, n - 1);
        AdmittedSplit(ds, 0, i, n - 1);
        Optimality(l, created, times, rival, i);
        assert false;
      }
    }
  }

  /** A source whose own traffic keeps every window bound is never denied. */
  lemma {:induction false} ConformingSourceNeverDenied(l: Limit, created: real, times: seq<real>)
    requires Ordered(created, times)
    requires RespectsWindows(l, times, seq(|times|, _ => true))
    ensures Decisions(l, created, times) == seq(|times|, _ => true)
  {
    var ds := Decisions(l, created, times);
    var all := seq(|times|, _ => true);
    forall n: nat | n < |times|
      ensures ds[n]
    {
      Optimality(l, created, times, all, n + 1);
      AdmittedAtMost(ds, n);
      AllAdmitted(all, n + 1);
    }
  }

  lemma {:induction false} AdmittedAtMost(ds: seq<bool>, n: nat)
    requires n <= |ds|
    ensures Admitted(ds, 0, n) <= n
  {
    if n > 0 {
      AdmittedAtMost(ds, n - 1);
    }
  }

  lemma {:induction false} AllAdmitted(ds: seq<bool>, n: nat)
    requires n <= |ds| && forall i | 0 <= i < n :: ds[i]
    ensures Admitted(ds, 0, n) == n
  {
    if n > 0 {
      AllAdmitted(ds, n - 1);
    }
  }

  // ---- Denials leave no trace ----

  /** The elements of `xs` at the positions that `keep` marks. */
  function Kept<T>(xs: seq<T>, keep: seq<bool>): seq<T>
    requires |xs| == |keep|
  {
    if xs == [] then []
    else Kept(xs[..|xs| - 1], keep[..|xs| - 1]) + if keep[|xs| - 1] then [xs[|xs| - 1]] else []
  }

  /** Two buckets that no later request can tell apart. */
  ghost predicate SameFrom(l: Limit, a: Fill, b: Fill, from: real) {
    forall t: real | from <= t :: Refilled(l, a, t) == Refilled(l, b, t)
  }

  /** Refilling up to an intermediate time and on from there is one refill, clipping included. */
  lemma RefillSplits(l: Limit, b: Fill, mid: real, t: real)
    requires b.lastFill <= mid <= t
    ensures Refilled(l, Fill(Refilled(l, b, mid), mid), t) == Refilled(l, b, t)
  {
    GainAdds(l, b.lastFill, mid, t);
    GainGrows(l, mid, t);
  }

  lemma TakeSame(l: Limit, a: Fill, b: Fill, now: real)
    requires SameFrom(l, a, b, now)
    ensures Admits(l, a, now) == Admits(l, b, now)
    ensures SameFrom(l, Take(l, a, now), Take(l, b, now), now)
  {
  }

  lemma DenialSame(l: Limit, a: Fill, b: Fill, now: real)
    requires SameFrom(l, a, b, now) && a.lastFill <= now && !Admits(l, a, now)
    ensures SameFrom(l, Take(l, a, now), b, now)
  {
    forall t: real | now <= t
      ensures Refilled(l, Take(l, a, now), t) == Refilled(l, b, t)
    {
      RefillSplits(l, a, now, t);
    }
  }

  /** Deleting any denied requests from a trace, or inserting some, changes no other decision. */
  lemma {:induction false} DenialsLeaveNoTrace(l: Limit, created: real, times: seq<real>, keep: seq<bool>)
    requires Ordered(created, times) && |keep| == |times|
    requires forall k | 0 <= k < |times| :: !keep[k] ==> !Decisions(l, created, times)[k]
    ensures Decisions(l, created, Kept(times, keep)) == Kept(Decisions(l, created, times), keep)
    ensures times != [] ==>
      SameFrom(l, After(l, created, times), After(l, created, Kept(times, keep)), times[|times| - 1])
  {
    if times != [] {
      var n := |times| - 1;
      var before, kept := times[..n], keep[..n];
      var ds := Decisions(l, created, times);
      forall k | 0 <= k < n
        ensures !kept[k] ==> !Decisions(l, created, before)[k]
      {
        DecisionsPrefix(l, created, times, n);
        assert Decisions(l, created, before)[k] == ds[k];
      }
      DenialsLeaveNoTrace(l, created, before, kept);
      var a, b := After(l, created, before), After(l, created, Kept(before, kept));
      LastFillAfter(l, created, before);
      assert SameFrom(l, a, b, times[n]);
      assert ds[..n] == Decisions(l, created, before);
      if keep[n] {
        TakeSame(l, a, b, times[n]);
        assert Kept(times, keep)[..|Kept(before, kept)|] == Kept(before, kept);
      } else {
        DenialSame(l, a, b, times[n]);
        assert Kept(times, keep) == Kept(before, kept);
        assert Kept(ds, keep) == Kept(ds[..n], kept);
      }
    }
  }

  /** Decisions do not depend on when, before its first request, the full bucket was created. */
  lemma {:induction false} CreationTimeIrrelevant(l: Limit, c1: real, c2: real, times: seq<real>)
    requires Ordered(c1, times) && Ordered(c2, times)
    ensures Decisions(l, c1, times) == Decisions(l, c2, times)
    ensures times != [] ==> After(l, c1, times) == After(l, c2, times)
  {
    if times != [] {
      var n := |times| - 1;
      CreationTimeIrrelevant(l, c1, c2, times[..n]);
      if n == 0 {
        assert times[..n] == [];
        GainGrows(l, c1, times[0]);
        GainGrows(l, c2, times[0]);
      }
    }
  }

  /** Tokens stay between zero and the capacity. */
  lemma {:induction false} TokensInRange(l: Limit, created: real, times: seq<real>)
    requires Ordered(created, times)
    ensures 0.0 <= After(l, created, times).tokens <= Burst(l)
  {
    if times != [] {
      var n := |times| - 1;
      TokensInRange(l, created, times[..n]);
      LastFillAfter(l, created, times[..n]);
      assert n > 0 ==> times[..n][n - 1] == times[n - 1];
      GainGrows(l, After(l, created, times[..n]).lastFill, times[n]);
    }
  }
}
