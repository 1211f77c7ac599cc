/** The whole service can always be shut down: the handlers in flight finish, the readers stop, the channel is closed
    and the workers drain it. */
module ServiceShutdown {
  import opened Translator
  import opened Service
  import H = PooledIngest
  import P = Pipeline
  import S = Stream
  import PipelineTheorems
  import StreamShutdown

  // ---- One handler ----

  /** An upper bound on the steps that a handler still makes. */
  function HandlerRank(m: H.Memory, x: H.Session): nat {
    var n := |x.req.body|;
    match x.pc
    case Start => n + 10
    case Holds(p) => if H.Fits(m, p, n) then n + 8 else n + 9
    case Filling(_, k) => if k <= n then n - k + 7 else 7
    case Failed(_) => 5
    case Translated(_, _, _, _) => 5
    case Encoded(_, _, _) => 4
    case Submitting(_, _) => 3
    case Counting(_) => 2
    case Done(_) => 0
  }

  /** The step that is open to a handler; what a new array contains and whether the channel has room are given. */
  function HandlerMove(m: H.Memory, x: H.Session, h: nat, room: bool): H.Action
    requires !x.pc.Done?
  {
    match x.pc
    case Start => if x.req.body == "" then H.RejectEmpty(h) else H.GetNew(h, Blank(H.CAPACITY))
    case Holds(p) =>
      if H.Fits(m, p, |x.req.body|) then H.BeginCopy(h)
      else H.Grow(h, Blank(|H.Bytes(m, p)| + |x.req.body|))
    case Filling(_, k) => if k < |x.req.body| then H.CopyOne(h) else H.Translate(h)
    case Failed(_) => H.PutBack(h)
    case Translated(_, _, _, _) => H.Encode(h)
    case Encoded(_, _, _) => H.PutBack(h)
    case Submitting(_, _) => H.Submit(h, room)
    case Counting(_) => H.Count(h)
  }

  function Blank(n: nat): string { seq(n, _ => ' ') }

  lemma MoveEnabled(translators: map<string, Inbound>, s: H.State, h: nat, room: bool)
    requires H.Inv(translators, s) && h in s.sessions && !s.sessions[h].pc.Done?
    ensures H.Enabled(s, HandlerMove(s.mem, s.sessions[h], h, room))
  {
    assert H.Agrees(translators, s.mem, s.sessions[h]);
  }

  /** Growing makes the body fit. */
  lemma GrownFits(m: H.Memory, p: nat, length: nat)
    requires H.MemoryOk(m) && p in m.payloads
    ensures H.Fits(H.Grown(m, p, Blank(|H.Bytes(m, p)| + length)), p, length)
  {
  }

  ghost predicate Lower(translators: map<string, Inbound>, s: H.State, h: nat, a: H.Action)
    requires h in s.sessions && H.Enabled(s, a)
  {
    var t := H.Next(translators, s, a);
    && h in t.sessions && t.sessions == s.sessions[h := t.sessions[h]]
    && HandlerRank(t.mem, t.sessions[h]) < HandlerRank(s.mem, s.sessions[h])
  }

  lemma GrowLowers(translators: map<string, Inbound>, s: H.State, h: nat)
    requires H.MemoryOk(s.mem) && h in s.sessions && s.sessions[h].pc.Holds? && s.sessions[h].pc.p in s.mem.payloads
    requires !H.Fits(s.mem, s.sessions[h].pc.p, |s.sessions[h].req.body|)
    requires H.Enabled(s, HandlerMove(s.mem, s.sessions[h], h, true))
    ensures Lower(translators, s, h, HandlerMove(s.mem, s.sessions[h], h, true))
  {
    GrownFits(s.mem, s.sessions[h].pc.p, |s.sessions[h].req.body|);
  }

  /** Up to the copy. */
  lemma EarlyLowers(translators: map<string, Inbound>, s: H.State, h: nat, room: bool)
    requires h in s.sessions && (s.sessions[h].pc.Start? || s.sessions[h].pc.Holds?)
    requires s.sessions[h].pc.Holds? ==> H.Fits(s.mem, s.sessions[h].pc.p, |s.sessions[h].req.body|)
    requires H.Enabled(s, HandlerMove(s.mem, s.sessions[h], h, room))
    ensures Lower(translators, s, h, HandlerMove(s.mem, s.sessions[h], h, room))
  {
  }

  /** From the copy on. */
  lemma LateLowers(translators: map<string, Inbound>, s: H.State, h: nat, room: bool)
    requires h in s.sessions && !s.sessions[h].pc.Start? && !s.sessions[h].pc.Holds? && !s.sessions[h].pc.Done?
    requires H.Enabled(s, HandlerMove(s.mem, s.sessions[h], h, room))
    ensures Lower(translators, s, h, HandlerMove(s.mem, s.sessions[h], h, room))
  {
  }

  lemma MoveDecreases(translators: map<string, Inbound>, s: H.State, h: nat, room: bool)
    requires H.MemoryOk(s.mem) && H.Exclusive(s.mem, s.sessions) && h in s.sessions && !s.sessions[h].pc.Done?
    requires H.Enabled(s, HandlerMove(s.mem, s.sessions[h], h, room))
    ensures Lower(translators, s, h, HandlerMove(s.mem, s.sessions[h], h, room))
  {
    var x := s.sessions[h];
    if !x.pc.Start? && !x.pc.Holds? {
      LateLowers(translators, s, h, room);
    } else if x.pc.Holds? && !H.Fits(s.mem, x.pc.p, |x.req.body|) {
      GrowLowers(translators, s, h);
    } else {
      EarlyLowers(translators, s, h, room);
    }
  }

  /** No new requests and no new stream messages. */
  predicate NoArrivals(acts: seq<Action>) {
    forall a | a in acts :: if a.Http? then !a.a.Arrive? else !a.o.Produce?
  }

  lemma NoArrivalsJoin(a: seq<Action>, b: seq<Action>)
    requires NoArrivals(a) && NoArrivals(b)
    ensures NoArrivals(a + b)
  {
  }

  /** A run from s to t without arrivals. */
  ghost predicate Path(c: S.Config, s: State, acts: seq<Action>, t: State) {
    IsRun(c, s, acts) && Exec(c, s, acts) == t && NoArrivals(acts)
  }

  lemma PathsJoin(c: S.Config, s: State, a: seq<Action>, mid: State, b: seq<Action>, t: State)
    requires Path(c, s, a, mid) && Path(c, mid, b, t)
    ensures Path(c, s, a + b, t)
  {
    RunsCompose(c, s, a, b);
    NoArrivalsJoin(a, b);
  }

  lemma NoPath(c: S.Config, s: State)
    ensures Path(c, s, [], s)
  {
  }

  lemma MayMove(c: S.Config, s: State, h: nat) returns (move: H.Action)
    requires Inv(c, s) && h in s.http.sessions && !s.http.sessions[h].pc.Done?
    ensures move == HandlerMove(s.http.mem, s.http.sessions[h], h, P.Accepts(c.pipe, s.stream.pipe))
    ensures Enabled(c, s, Http(move)) && !move.Arrive? && Lower(c.translators, s.http, h, move)
  {
    var room := P.Accepts(c.pipe, s.stream.pipe);
    move := HandlerMove(s.http.mem, s.http.sessions[h], h, room);
    MoveEnabled(c.translators, s.http, h, room);
    MoveDecreases(c.translators, s.http, h, room);
    assert !s.stream.pipe.closed;
    StepOpen(c, s, h, move);
  }

  lemma MovePath(c: S.Config, s: State, move: H.Action)
    requires Enabled(c, s, Http(move)) && !move.Arrive?
    ensures Path(c, s, [Http(move)], Next(c, s, Http(move)))
    ensures Next(c, s, Http(move)).http == H.Next(c.translators, s.http, move)
  {
    OneStep(c, s, Http(move));
  }

  /** A handler that has not answered takes one step towards its answer; the other handlers stay where they are. */
  lemma HandlerSteps(c: S.Config, s: State, h: nat) returns (a: Action, t: State)
    requires P.ValidConfig(c.pipe) && Inv(c, s) && h in s.http.sessions && !s.http.sessions[h].pc.Done?
    ensures Path(c, s, [a], t) && Inv(c, t)
    ensures h in t.http.sessions && t.http.sessions == s.http.sessions[h := t.http.sessions[h]]
    ensures HandlerRank(t.http.mem, t.http.sessions[h]) < HandlerRank(s.http.mem, s.http.sessions[h])
  {
    var move := MayMove(c, s, h);
    a, t := Http(move), Next(c, s, Http(move));
    MovePath(c, s, move);
    HttpStep(c, s, move);
  }

  /** With the channel open no handler is stuck: one that must submit or count can. */
  lemma StepOpen(c: S.Config, s: State, h: nat, move: H.Action)
    requires SlotsOk(c, s) && DueOk(s) && !s.stream.pipe.closed && h in s.http.sessions && !s.http.sessions[h].pc.Done?
    requires move == HandlerMove(s.http.mem, s.http.sessions[h], h, P.Accepts(c.pipe, s.stream.pipe))
    requires H.Enabled(s.http, move)
    ensures Enabled(c, s, Http(move))
  {
    if move.Count? {
      assert IsCounting(s.http, h);
      CountEnabled(c, s, h);
    } else if move.Submit? {
      SubmitOpen(c, s.stream, OnPipe(s, move).value.p);
    } else {
      assert OnPipe(s, move).None?;
    }
  }

  lemma SubmitOpen(c: S.Config, s: S.State, p: P.Payload)
    requires !s.pipe.closed
    ensures S.Enabled(c, s, S.Pipe(P.Submit(p)))
  {
  }

  ghost predicate Answered(s: H.State, t: H.State, h: nat) {
    h in t.sessions && t.sessions[h].pc.Done? && t.sessions == s.sessions[h := t.sessions[h]]
  }

  lemma AnsweredLater(s: H.State, mid: H.State, t: H.State, h: nat)
    requires h in mid.sessions && mid.sessions == s.sessions[h := mid.sessions[h]] && Answered(mid, t, h)
    ensures Answered(s, t, h)
  {
  }

  /** One handler runs on alone until it has answered. */
  lemma {:induction false} FinishHandler(c: S.Config, s: State, h: nat) returns (acts: seq<Action>, t: State)
    requires P.ValidConfig(c.pipe) && Inv(c, s) && h in s.http.sessions
    ensures Path(c, s, acts, t) && Inv(c, t) && Answered(s.http, t.http, h)
    decreases HandlerRank(s.http.mem, s.http.sessions[h])
  {
    if s.http.sessions[h].pc.Done? {
      acts, t := [], s;
      NoPath(c, s);
    } else {
      var a, mid := HandlerSteps(c, s, h);
      var rest;
      rest, t := FinishHandler(c, mid, h);
      AnsweredLater(s.http, mid.http, t.http, h);
      PathsJoin(c, s, [a], mid, rest, t);
      acts := [a] + rest;
    }
  }

  /** Only these handlers may still be in flight. */
  ghost predicate InFlight(http: H.State, live: set<nat>) {
    forall h | h in http.sessions && h !in live :: http.sessions[h].pc.Done?
  }

  lemma FinishOneOf(c: S.Config, s: State, live: set<nat>, h: nat) returns (acts: seq<Action>, t: State)
    requires P.ValidConfig(c.pipe) && Inv(c, s) && InFlight(s.http, live)
    ensures Path(c, s, acts, t) && Inv(c, t) && InFlight(t.http, live - {h})
  {
    if h in s.http.sessions {
      acts, t := FinishHandler(c, s, h);
    } else {
      acts, t := [], s;
      NoPath(c, s);
    }
  }

  lemma {:induction false} FinishHandlers(c: S.Config, s: State, live: set<nat>) returns (acts: seq<Action>, t: State)
    requires P.ValidConfig(c.pipe) && Inv(c, s) && InFlight(s.http, live)
    ensures Path(c, s, acts, t) && Inv(c, t) && AllAnswered(t.http)
    decreases |live|
  {
    if live == {} {
      acts, t := [], s;
      NoPath(c, s);
    } else {
      var h :| h in live;
      var first, mid := FinishOneOf(c, s, live, h);
      var rest;
      rest, t := FinishHandlers(c, mid, live - {h});
      PathsJoin(c, s, first, mid, rest, t);
      acts := first + rest;
    }
  }

  // ---- A request that is accepted ----

  /** Where a handler's next step leads when the channel has room. */
  ghost predicate RoomyStep(s: State, t: State, h: nat)
    requires h in s.http.sessions && h in t.http.sessions
  {
    var before, after := s.http.sessions[h].pc, t.http.sessions[h].pc;
    && (before.Submitting? ==> after.Counting?)
    && (before.Counting? ==> after.Done? && after.status.Accepted?)
    && (!before.Submitting? && !before.Counting? ==> t.stream == s.stream && after != H.Done(H.TooManyRequests))
  }

  lemma StepWithRoom(c: S.Config, s: State, h: nat, move: H.Action)
    requires h in s.http.sessions && !s.http.sessions[h].pc.Done? && Enabled(c, s, Http(move))
    requires move == HandlerMove(s.http.mem, s.http.sessions[h], h, P.Accepts(c.pipe, s.stream.pipe))
    requires P.Accepts(c.pipe, s.stream.pipe) && h in Next(c, s, Http(move)).http.sessions
    ensures RoomyStep(s, Next(c, s, Http(move)), h)
  {
  }

  /** With room in the channel, a handler that runs on alone is not turned away for lack of it. */
  lemma {:induction false} FinishWithRoom(c: S.Config, s: State, h: nat) returns (acts: seq<Action>, t: State)
    requires P.ValidConfig(c.pipe) && Inv(c, s) && h in s.http.sessions
    requires s.http.sessions[h].pc != H.Done(H.TooManyRequests)
    requires s.http.sessions[h].pc.Counting? || s.http.sessions[h].pc.Done? || P.Accepts(c.pipe, s.stream.pipe)
    ensures Path(c, s, acts, t) && Inv(c, t) && Answered(s.http, t.http, h)
    ensures t.http.sessions[h].pc != H.Done(H.TooManyRequests)
    decreases HandlerRank(s.http.mem, s.http.sessions[h])
  {
    var pc := s.http.sessions[h].pc;
    if pc.Done? {
      acts, t := [], s;
      NoPath(c, s);
    } else {
      var a, mid := RoomySteps(c, s, h);
      var rest;
      rest, t := FinishWithRoom(c, mid, h);
      AnsweredLater(s.http, mid.http, t.http, h);
      PathsJoin(c, s, [a], mid, rest, t);
      acts := [a] + rest;
    }
  }

  lemma RoomySteps(c: S.Config, s: State, h: nat) returns (a: Action, t: State)
    requires P.ValidConfig(c.pipe) && Inv(c, s) && h in s.http.sessions && !s.http.sessions[h].pc.Done?
    requires s.http.sessions[h].pc.Counting? || P.Accepts(c.pipe, s.stream.pipe)
    ensures Path(c, s, [a], t) && Inv(c, t)
    ensures h in t.http.sessions && t.http.sessions == s.http.sessions[h := t.http.sessions[h]]
    ensures HandlerRank(t.http.mem, t.http.sessions[h]) < HandlerRank(s.http.mem, s.http.sessions[h])
    ensures t.http.sessions[h].pc != H.Done(H.TooManyRequests)
    ensures t.http.sessions[h].pc.Counting? || t.http.sessions[h].pc.Done? || P.Accepts(c.pipe, t.stream.pipe)
  {
    var move := MayMove(c, s, h);
    MovePath(c, s, move);
    HttpStep(c, s, move);
    RoomKept(c, s, h, move);
    a, t := Http(move), Next(c, s, Http(move));
  }

  lemma RoomKept(c: S.Config, s: State, h: nat, move: H.Action)
    requires h in s.http.sessions && !s.http.sessions[h].pc.Done? && Enabled(c, s, Http(move))
    requires move == HandlerMove(s.http.mem, s.http.sessions[h], h, P.Accepts(c.pipe, s.stream.pipe))
    requires s.http.sessions[h].pc.Counting? || P.Accepts(c.pipe, s.stream.pipe)
    requires h in Next(c, s, Http(move)).http.sessions
    ensures
      var t := Next(c, s, Http(move));
      && t.http.sessions[h].pc != H.Done(H.TooManyRequests)
      && (t.http.sessions[h].pc.Counting? || t.http.sessions[h].pc.Done? || P.Accepts(c.pipe, t.stream.pipe))
  {
    if s.http.sessions[h].pc.Counting? {
      CountingEnds(c, s, h);
    } else {
      StepWithRoom(c, s, h, move);
    }
  }

  lemma CountingEnds(c: S.Config, s: State, h: nat)
    requires h in s.http.sessions && s.http.sessions[h].pc.Counting? && Enabled(c, s, Http(H.Count(h)))
    ensures
      var t := Next(c, s, Http(H.Count(h)));
      h in t.http.sessions && t.http.sessions[h].pc.Done? && t.http.sessions[h].pc.status.Accepted?
  {
  }

  lemma AcceptedFrom(c: S.Config, s: State, req: H.Request) returns (acts: seq<Action>, t: State)
    requires P.ValidConfig(c.pipe) && Inv(c, s) && H.Fresh(c.translators, req).Submits?
    requires s.http.sessions == map[0 := H.Session(req, H.Start)] && P.Accepts(c.pipe, s.stream.pipe)
    ensures IsRun(c, s, acts) && Exec(c, s, acts) == t
    ensures 0 in t.http.sessions
    ensures t.http.sessions[0] == H.Session(req, H.Done(H.Accepted(H.Fresh(c.translators, req).id)))
  {
    acts, t := FinishWithRoom(c, s, 0);
    RequestKept(c, s, acts, 0);
    AnswerIs(c.translators, t.http, 0, req);
  }

  /** A handler keeps its request. */
  lemma {:induction false} RequestKept(c: S.Config, s: State, acts: seq<Action>, h: nat)
    requires IsRun(c, s, acts) && h in s.http.sessions
    ensures h in Exec(c, s, acts).http.sessions && Exec(c, s, acts).http.sessions[h].req == s.http.sessions[h].req
  {
    if acts != [] {
      var front, a := acts[..|acts| - 1], acts[|acts| - 1];
      RequestKept(c, s, front, h);
      StepKeepsRequest(c, Exec(c, s, front), a, h);
    }
  }

  lemma StepKeepsRequest(c: S.Config, s: State, a: Action, h: nat)
    requires Enabled(c, s, a) && h in s.http.sessions
    ensures h in Next(c, s, a).http.sessions && Next(c, s, a).http.sessions[h].req == s.http.sessions[h].req
  {
    if a.Http? {
      HandlersKeepRequests(c.translators, s.http, a.a, h);
    }
  }

  lemma HandlersKeepRequests(translators: map<string, Inbound>, s: H.State, a: H.Action, h: nat)
    requires H.Enabled(s, a) && h in s.sessions
    ensures h in H.Next(translators, s, a).sessions && H.Next(translators, s, a).sessions[h].req == s.sessions[h].req
  {
  }

  /** For every configuration and every request that can be prepared there is a run in which it is answered "202". */
  lemma {:induction false} RequestIsAccepted(c: S.Config, start: real, regions: set<string>, req: H.Request)
    returns (acts: seq<Action>)
    requires P.ValidConfig(c.pipe) && H.Fresh(c.translators, req).Submits?
    ensures IsRun(c, Init(c, start, regions), acts)
    ensures
      var http := Exec(c, Init(c, start, regions), acts).http;
      && 0 in http.sessions
      && http.sessions[0] == H.Session(req, H.Done(H.Accepted(H.Fresh(c.translators, req).id)))
  {
    var mid := FirstArrival(c, start, regions, req);
    var rest, t := AcceptedFrom(c, mid, req);
    RunsCompose(c, Init(c, start, regions), [Http(H.Arrive(0, req))], rest);
    acts := [Http(H.Arrive(0, req))] + rest;
  }

  lemma FirstArrival(c: S.Config, start: real, regions: set<string>, req: H.Request) returns (t: State)
    requires P.ValidConfig(c.pipe)
    ensures IsRun(c, Init(c, start, regions), [Http(H.Arrive(0, req))])
    ensures Exec(c, Init(c, start, regions), [Http(H.Arrive(0, req))]) == t
    ensures Inv(c, t) && t.http.sessions == map[0 := H.Session(req, H.Start)] && P.Accepts(c.pipe, t.stream.pipe)
  {
    var s := Init(c, start, regions);
    InvInit(c, start, regions);
    OneStep(c, s, Http(H.Arrive(0, req)));
    HttpStep(c, s, H.Arrive(0, req));
    t := Next(c, s, Http(H.Arrive(0, req)));
  }

  lemma AnswerIs(translators: map<string, Inbound>, http: H.State, h: nat, req: H.Request)
    requires H.Inv(translators, http) && h in http.sessions && http.sessions[h].req == req
    requires http.sessions[h].pc.Done? && http.sessions[h].pc != H.Done(H.TooManyRequests)
    requires H.Fresh(translators, req).Submits?
    ensures http.sessions[h].pc == H.Done(H.Accepted(H.Fresh(translators, req).id))
  {
    assert H.Agrees(translators, http.mem, http.sessions[h]);
  }

  // ---- The whole service ----

  function Lifted(acts: seq<S.Action>): seq<Action> { seq(|acts|, i requires 0 <= i < |acts| => Other(acts[i])) }

  /** With all handlers done, what readers, workers and shutdown do is done in the service. */
  lemma {:induction false} LiftInternal(c: S.Config, s: State, acts: seq<S.Action>)
    requires S.IsRun(c, s.stream, acts) && StreamShutdown.AllInternal(acts) && AllAnswered(s.http)
    ensures IsRun(c, s, Lifted(acts))
    ensures Exec(c, s, Lifted(acts)).stream == S.Exec(c, s.stream, acts) && Exec(c, s, Lifted(acts)).http == s.http
  {
    if acts != [] {
      var front := acts[..|acts| - 1];
      assert acts[|acts| - 1] in acts;
      LiftInternal(c, s, front);
      assert Lifted(acts)[..|acts| - 1] == Lifted(front);
    }
  }

  /** From every reachable state of the whole service there is a way to a completed shutdown that takes no new request
      and no new stream message: every request is answered, the wait has returned. */
  lemma {:induction false} ShutdownReachable(c: S.Config, start: real, regions: set<string>, acts: seq<Action>)
    returns (more: seq<Action>)
    requires P.ValidConfig(c.pipe) && IsRun(c, Init(c, start, regions), acts)
    ensures IsRun(c, Init(c, start, regions), acts + more) && NoArrivals(more)
    ensures
      var t := Exec(c, Init(c, start, regions), acts + more);
      AllAnswered(t.http) && PipelineTheorems.WaitReturns(t.stream.pipe)
  {
    Reachable(c, start, regions, acts);
    var s := Exec(c, Init(c, start, regions), acts);
    var finish, mid := FinishHandlers(c, s, s.http.sessions.Keys);
    var stop := StreamShutdown.ShutdownFrom(c, mid.stream);
    LiftInternal(c, mid, stop);
    RunsCompose(c, s, finish, Lifted(stop));
    more := finish + Lifted(stop);
    RunsCompose(c, Init(c, start, regions), acts, more);
    LiftedBringsNothing(stop);
    NoArrivalsJoin(finish, Lifted(stop));
  }

  lemma LiftedBringsNothing(acts: seq<S.Action>)
    requires StreamShutdown.AllInternal(acts)
    ensures NoArrivals(Lifted(acts))
  {
    forall a | a in Lifted(acts)
      ensures a.Other? && !a.o.Produce?
    {
      var i :| 0 <= i < |acts| && a == Other(acts[i]);
      assert StreamShutdown.Internal(acts[i]);
    }
  }
}
