/** Cancellation and shutdown of the composed system: a reader stops within a bounded number of its own moves,
    the channel can then be closed, and the workers finish. */
module StreamShutdown {
  import opened JsonText
  import opened Translator
  import opened Stream
  import opened StreamSafety
  import P = Pipeline
  import PipelineTheorems

  // ---- Readers ----

  /** An upper bound on the moves a reader still makes after cancellation: three for each message of its batch, or of
      the batch that a read in progress may still bring, and at most three around it. */
  function ReaderRank(c: Config, g: Region): int {
    match g.pc
    case Stopped => 0
    case Check => 1
    case Batch(next, end) => 3 * (end - next) + 2
    case Counting(next, end) => 3 * (end - next) + 1
    case Acking(next, end) => 3 * (end - next)
    case Reading => 3 * c.readBatch + 3
  }

  /** Reads that may still return messages after cancellation. */
  function ReadsLeft(g: Region): nat { if g.pc.Reading? then 1 else 0 }

  predicate IsRead(m: Move) { m.Read? || m.ReadFails? }

  lemma RankNatural(c: Config, g: Region)
    requires RegionOk(g)
    ensures ReaderRank(c, g) >= 0
  {
  }

  /** What one move of a reader does to its region, whichever it is. */
  function RegionAfter(c: Config, s: State, r: string, m: Move): Region
    requires r in s.regions && CanMove(c, s, s.regions[r], m)
  {
    var g := s.regions[r];
    if !m.Handle? then Quietly(s, g, m)
    else if Usable(c.translators, r, MessageAt(g, g.pc.next), m.stamp).None? then Skipped(g, m.stamp)
    else if P.Accepts(c.pipe, s.pipe) then Accepted(g, Slot(|s.pipe.accepted|, m.stamp))
    else Refused(g)
  }

  lemma OnlyItsRegion(c: Config, s: State, r: string, m: Move)
    requires Enabled(c, s, Step(r, m))
    ensures Next(c, s, Step(r, m)).regions == s.regions[r := RegionAfter(c, s, r, m)]
    ensures Next(c, s, Step(r, m)).cancelled == s.cancelled
  {
  }

  lemma ReaderMoveDecreases(c: Config, s: State, r: string, m: Move)
    requires s.cancelled && r in s.regions && RegionOk(s.regions[r]) && CanMove(c, s, s.regions[r], m)
    ensures
      var g, g' := s.regions[r], RegionAfter(c, s, r, m);
      && ReaderRank(c, g') < ReaderRank(c, g)
      && ReadsLeft(g') + (if IsRead(m) then 1 else 0) <= ReadsLeft(g)
  {
  }

  function MovesOf(acts: seq<Action>, r: string): nat {
    if acts == [] then 0
    else
      var a := acts[|acts| - 1];
      MovesOf(acts[..|acts| - 1], r) + if a.Step? && a.r == r then 1 else 0
  }

  function ReadsOf(acts: seq<Action>, r: string): nat {
    if acts == [] then 0
    else
      var a := acts[|acts| - 1];
      ReadsOf(acts[..|acts| - 1], r) + if a.Step? && a.r == r && IsRead(a.move) then 1 else 0
  }

  lemma OthersLeaveReader(c: Config, s: State, a: Action, r: string)
    requires Enabled(c, s, a) && r in s.regions && !(a.Step? && a.r == r)
    ensures r in Next(c, s, a).regions && Next(c, s, a).regions[r].pc == s.regions[r].pc
  {
    if a.Step? {
      OnlyItsRegion(c, s, a.r, a.move);
    }
  }

  lemma StaysCancelled(c: Config, s: State, a: Action)
    requires Enabled(c, s, a)
    ensures s.cancelled ==> Next(c, s, a).cancelled
    ensures Next(c, s, a).regions.Keys == s.regions.Keys
  {
    if a.Step? {
      OnlyItsRegion(c, s, a.r, a.move);
    }
  }

  lemma OneStepTowardsStop(c: Config, s: State, a: Action, r: string)
    requires Inv(c, s) && s.cancelled && r in s.regions && Enabled(c, s, a)
    ensures r in Next(c, s, a).regions
    ensures
      var g, g' := s.regions[r], Next(c, s, a).regions[r];
      && ReaderRank(c, g') + (if a.Step? && a.r == r then 1 else 0) <= ReaderRank(c, g)
      && ReadsLeft(g') + (if a.Step? && a.r == r && IsRead(a.move) then 1 else 0) <= ReadsLeft(g)
  {
    if a.Step? && a.r == r {
      ReaderMoveDecreases(c, s, r, a.move);
      OnlyItsRegion(c, s, r, a.move);
    } else {
      OthersLeaveReader(c, s, a, r);
    }
  }

  /** After cancellation, in every run and whatever everybody else does, a reader makes at most as many moves as its
      batch in hand or one last read can still require. */
  lemma {:induction false} ReadersStop(c: Config, s: State, acts: seq<Action>, r: string)
    requires P.ValidConfig(c.pipe) && Inv(c, s) && s.cancelled && r in s.regions && IsRun(c, s, acts)
    ensures
      var t := Exec(c, s, acts);
      && Inv(c, t) && t.cancelled && r in t.regions
      && 0 <= MovesOf(acts, r) + ReaderRank(c, t.regions[r]) <= ReaderRank(c, s.regions[r])
      && ReadsOf(acts, r) + ReadsLeft(t.regions[r]) <= ReadsLeft(s.regions[r])
  {
    if acts != [] {
      var front, a := acts[..|acts| - 1], acts[|acts| - 1];
      ReadersStop(c, s, front, r);
      var mid := Exec(c, s, front);
      OneStepTowardsStop(c, mid, a, r);
      StepKeepsInv(c, mid, a);
      StaysCancelled(c, mid, a);
    }
    RankNatural(c, Exec(c, s, acts).regions[r]);
  }

  /** A reader that has not stopped is never stuck. */
  lemma LiveReaderMoves(c: Config, s: State, r: string) returns (m: Move)
    requires Inv(c, s) && r in s.regions && !s.regions[r].pc.Stopped?
    ensures CanMove(c, s, s.regions[r], m)
  {
    var g := s.regions[r];
    assert RegionOk(g);
    match g.pc
    case Check => m := CheckContext;
    case Reading => m := Read(0);
    case Batch(next, end) => m := if next < end then Handle(Stamp("", 0, "")) else EndBatch;
    case Counting(_, _) =>
      assert CountDue(g).Some?;
      m := Count;
    case Acking(_, _) => m := Ack(true);
  }

  // ---- The whole system ----

  /** What readers, workers and the shutdown itself do; the rest comes from outside. */
  predicate Internal(a: Action) {
    match a
    case Pipe(p) => p.Work? || p.Close?
    case Produce(_, _) => false
    case _ => true
  }

  predicate AllInternal(acts: seq<Action>) { forall a | a in acts :: Internal(a) }

  lemma InternalJoin(a: seq<Action>, b: seq<Action>)
    requires AllInternal(a) && AllInternal(b)
    ensures AllInternal(a + b)
  {
  }

  lemma LiftedInternal(acts: seq<P.Action>)
    requires forall a | a in acts :: a.Work?
    ensures AllInternal(Lifted(acts))
  {
    forall a | a in Lifted(acts)
      ensures Internal(a)
    {
      var i :| 0 <= i < |acts| && a == Pipe(acts[i]);
      assert acts[i] in acts;
    }
  }

  lemma OneStep(c: Config, s: State, a: Action)
    requires Enabled(c, s, a)
    ensures IsRun(c, s, [a]) && Exec(c, s, [a]) == Next(c, s, a)
  {
    assert [a][..0] == [];
    assert IsRun(c, s, []);
  }

  /** A run from s to t in which nothing comes from outside. */
  ghost predicate Path(c: Config, s: State, acts: seq<Action>, t: State) {
    IsRun(c, s, acts) && Exec(c, s, acts) == t && AllInternal(acts)
  }

  lemma PathsJoin(c: Config, s: State, a: seq<Action>, mid: State, b: seq<Action>, t: State)
    requires Path(c, s, a, mid) && Path(c, mid, b, t)
    ensures Path(c, s, a + b, t)
  {
    RunsCompose(c, s, a, b);
    InternalJoin(a, b);
  }

  lemma NoPath(c: Config, s: State)
    ensures Path(c, s, [], s)
  {
  }

  /** A reader that has not stopped takes one step towards it; the other regions stay as they are. */
  lemma ReaderSteps(c: Config, s: State, r: string) returns (a: Action, t: State)
    requires P.ValidConfig(c.pipe) && Inv(c, s) && s.cancelled && r in s.regions && !s.regions[r].pc.Stopped?
    ensures Path(c, s, [a], t)
    ensures
      && Inv(c, t) && t.cancelled && r in t.regions
      && t.regions == s.regions[r := t.regions[r]]
      && 0 <= ReaderRank(c, t.regions[r]) < ReaderRank(c, s.regions[r])
  {
    var m := LiveReaderMoves(c, s, r);
    a, t := Step(r, m), Next(c, s, Step(r, m));
    StepPath(c, s, r, m);
    ReaderMoveDecreases(c, s, r, m);
    StepKeepsInv(c, s, a);
    RankNatural(c, t.regions[r]);
  }

  lemma StepPath(c: Config, s: State, r: string, m: Move)
    requires Enabled(c, s, Step(r, m))
    ensures
      var t := Next(c, s, Step(r, m));
      && Path(c, s, [Step(r, m)], t) && t.cancelled == s.cancelled
      && t.regions == s.regions[r := RegionAfter(c, s, r, m)]
  {
    OneStep(c, s, Step(r, m));
    OnlyItsRegion(c, s, r, m);
  }

  /** t is s with reader r stopped. */
  ghost predicate Halted(s: State, t: State, r: string) {
    r in t.regions && t.regions[r].pc.Stopped? && t.regions == s.regions[r := t.regions[r]]
  }

  lemma HaltedLater(s: State, mid: State, t: State, r: string)
    requires r in mid.regions && mid.regions == s.regions[r := mid.regions[r]] && Halted(mid, t, r)
    ensures Halted(s, t, r)
  {
  }

  /** One reader runs on alone until it stops. */
  lemma {:induction false} StopReader(c: Config, s: State, r: string) returns (acts: seq<Action>, t: State)
    requires P.ValidConfig(c.pipe) && Inv(c, s) && s.cancelled && r in s.regions
    ensures Path(c, s, acts, t)
    ensures Inv(c, t) && t.cancelled && Halted(s, t, r)
    decreases ReaderRank(c, s.regions[r])
  {
    if s.regions[r].pc.Stopped? {
      acts, t := [], s;
      NoPath(c, s);
    } else {
      var a, mid := ReaderSteps(c, s, r);
      var rest;
      rest, t := StopReader(c, mid, r);
      HaltedLater(s, mid, t, r);
      PathsJoin(c, s, [a], mid, rest, t);
      acts := [a] + rest;
    }
  }

  /** Only these readers may still be running. */
  ghost predicate Running(regions: map<string, Region>, live: set<string>) {
    forall r | r in regions && r !in live :: regions[r].pc.Stopped?
  }

  lemma StopOneOf(c: Config, s: State, live: set<string>, r: string) returns (acts: seq<Action>, t: State)
    requires P.ValidConfig(c.pipe) && Inv(c, s) && s.cancelled && Running(s.regions, live)
    ensures Path(c, s, acts, t)
    ensures Inv(c, t) && t.cancelled && Running(t.regions, live - {r})
  {
    if r in s.regions {
      acts, t := StopReader(c, s, r);
    } else {
      acts, t := [], s;
      NoPath(c, s);
    }
  }

  lemma {:induction false} StopReaders(c: Config, s: State, live: set<string>) returns (acts: seq<Action>, t: State)
    requires P.ValidConfig(c.pipe) && Inv(c, s) && s.cancelled && Running(s.regions, live)
    ensures Path(c, s, acts, t)
    ensures Inv(c, t) && AllStopped(t.regions)
    decreases |live|
  {
    if live == {} {
      acts, t := [], s;
      NoPath(c, s);
    } else {
      var r :| r in live;
      var first, mid := StopOneOf(c, s, live, r);
      var rest;
      rest, t := StopReaders(c, mid, live - {r});
      PathsJoin(c, s, first, mid, rest, t);
      acts := first + rest;
    }
  }

  /** Worker steps are steps of the whole system. */
  lemma {:induction false} LiftWork(c: Config, s: State, acts: seq<P.Action>)
    requires P.IsRun(c.pipe, s.pipe, acts) && forall a | a in acts :: a.Work?
    ensures IsRun(c, s, Lifted(acts)) && Exec(c, s, Lifted(acts)).pipe == P.Exec(c.pipe, s.pipe, acts)
  {
    if acts != [] {
      var front := acts[..|acts| - 1];
      assert acts[|acts| - 1] in acts;
      LiftWork(c, s, front);
      assert Lifted(acts)[..|acts| - 1] == Lifted(front);
    }
  }

  function Lifted(acts: seq<P.Action>): seq<Action> { seq(|acts|, i requires 0 <= i < |acts| => Pipe(acts[i])) }

  lemma CloseOnce(c: Config, s: State) returns (acts: seq<Action>, t: State)
    requires P.ValidConfig(c.pipe) && Inv(c, s) && AllStopped(s.regions)
    ensures Path(c, s, acts, t)
    ensures Inv(c, t) && t.pipe.closed
  {
    if s.pipe.closed {
      acts, t := [], s;
      NoPath(c, s);
    } else {
      acts, t := [Pipe(P.Close)], Next(c, s, Pipe(P.Close));
      OneStep(c, s, Pipe(P.Close));
      StepKeepsInv(c, s, Pipe(P.Close));
    }
  }

  /** Once every reader has stopped, the channel can be closed and the workers can finish. */
  lemma CloseAndFinish(c: Config, s: State) returns (acts: seq<Action>)
    requires P.ValidConfig(c.pipe) && Inv(c, s) && AllStopped(s.regions)
    ensures IsRun(c, s, acts) && PipelineTheorems.WaitReturns(Exec(c, s, acts).pipe) && AllInternal(acts)
  {
    var close, t := CloseOnce(c, s);
    var work := PipelineTheorems.WorkersFinish(c.pipe, t.pipe);
    LiftWork(c, t, work);
    LiftedInternal(work);
    RunsCompose(c, s, close, Lifted(work));
    InternalJoin(close, Lifted(work));
    acts := close + Lifted(work);
  }

  lemma {:induction false} ShutdownFrom(c: Config, s: State) returns (acts: seq<Action>)
    requires P.ValidConfig(c.pipe) && Inv(c, s)
    ensures IsRun(c, s, acts) && PipelineTheorems.WaitReturns(Exec(c, s, acts).pipe) && AllInternal(acts)
  {
    OneStep(c, s, Cancel);
    StepKeepsInv(c, s, Cancel);
    var t := Next(c, s, Cancel);
    var stop, stopped := StopReaders(c, t, t.regions.Keys);
    var finish := CloseAndFinish(c, stopped);
    RunsCompose(c, t, stop, finish);
    RunsCompose(c, s, [Cancel], stop + finish);
    InternalJoin(stop, finish);
    InternalJoin([Cancel], stop + finish);
    acts := [Cancel] + (stop + finish);
  }

  /** From every reachable state, cancelling leads to a state in which Shutdown has returned, with no help from
      outside. */
  lemma ShutdownReachable(c: Config, start: real, regions: set<string>, acts: seq<Action>) returns (more: seq<Action>)
    requires P.ValidConfig(c.pipe) && IsRun(c, Init(c, start, regions), acts)
    ensures IsRun(c, Init(c, start, regions), acts + more) && AllInternal(more)
    ensures PipelineTheorems.WaitReturns(Exec(c, Init(c, start, regions), acts + more).pipe)
  {
    Reachable(c, start, regions, acts);
    more := ShutdownFrom(c, Exec(c, Init(c, start, regions), acts));
    RunsCompose(c, Init(c, start, regions), acts, more);
  }

  // ---- Backpressure does happen ----

  /** The plain message that the default translator and the encoder take. */
  function PlainMessage(): Message { map["data" := Text("{}")] }

  lemma PlainMessageUsable(translators: map<string, Inbound>, region: string, stamp: Stamp)
    requires region !in translators
    ensures Usable(translators, region, PlainMessage(), stamp).Some?
  {
    assert Print(Obj(NoMembers)) == "{}";
    UnmarshalOfPrint(Obj(NoMembers));
    PassthroughEncodes(region, "{}", stamp);
  }

  /** The HTTP side fills the channel. */
  lemma {:induction false} FillChannel(c: Config, s: State, p: P.Payload) returns (acts: seq<Action>)
    requires !s.pipe.closed && |s.pipe.queue| <= c.pipe.bufferSize
    ensures IsRun(c, s, acts)
    ensures
      var t := Exec(c, s, acts);
      && t.regions == s.regions && t.cancelled == s.cancelled && !t.pipe.closed && |t.pipe.queue| == c.pipe.bufferSize
    decreases c.pipe.bufferSize - |s.pipe.queue|
  {
    if |s.pipe.queue| == c.pipe.bufferSize {
      acts := [];
    } else {
      var a := Pipe(P.Submit(p));
      OneStep(c, s, a);
      var rest := FillChannel(c, Next(c, s, a), p);
      RunsCompose(c, s, [a], rest);
      acts := [a] + rest;
    }
  }

  /** A fresh region's reader gets its first message. */
  lemma ReadOne(c: Config, s: State, r: string, msg: Message) returns (acts: seq<Action>, t: State)
    requires r in s.regions && s.regions[r] == NewRegion() && !s.cancelled && c.readBatch >= 1
    ensures IsRun(c, s, acts) && Exec(c, s, acts) == t
    ensures t.pipe == s.pipe && r in t.regions && t.regions[r].pc == Batch(0, 1)
    ensures t.regions[r].stream == [msg] && t.regions[r].acked == {} && t.regions[r].refused == {}
    ensures t.regions[r].slots == map[] && MessageAt(t.regions[r], 0) == msg
  {
    OneStep(c, s, Produce(r, msg));
    var s1 := Next(c, s, Produce(r, msg));
    OneStep(c, s1, Step(r, CheckContext));
    var s2 := Next(c, s1, Step(r, CheckContext));
    OneStep(c, s2, Step(r, Read(1)));
    t := Next(c, s2, Step(r, Read(1)));
    RunsCompose(c, s1, [Step(r, CheckContext)], [Step(r, Read(1))]);
    acts := [Step(r, CheckContext)] + [Step(r, Read(1))];
    RunsCompose(c, s, [Produce(r, msg)], acts);
    acts := [Produce(r, msg)] + acts;
  }

  /** Then a reader meets a full channel. */
  lemma MeetFullChannel(c: Config, s: State, r: string, msg: Message, stamp: Stamp) returns (acts: seq<Action>)
    requires r in s.regions && s.regions[r] == NewRegion() && !s.cancelled && !s.pipe.closed
    requires |s.pipe.queue| == c.pipe.bufferSize && c.readBatch >= 1
    requires Usable(c.translators, r, msg, stamp).Some?
    ensures IsRun(c, s, acts)
    ensures r in Exec(c, s, acts).regions && Exec(c, s, acts).regions[r].refused == {0}
  {
    var read, mid := ReadOne(c, s, r, msg);
    OneStep(c, mid, Step(r, Handle(stamp)));
    RunsCompose(c, s, read, [Step(r, Handle(stamp))]);
    acts := read + [Step(r, Handle(stamp))];
  }

  /** For every configuration, region and usable message there is a run in which the message is refused, and so,
      as BackpressureIsFinal says, never handled again. */
  lemma {:induction false} BackpressureHappens(c: Config, start: real, regions: set<string>, r: string,
                                               msg: Message, stamp: Stamp)
    returns (acts: seq<Action>)
    requires P.ValidConfig(c.pipe) && c.readBatch >= 1 && r in regions && Usable(c.translators, r, msg, stamp).Some?
    ensures IsRun(c, Init(c, start, regions), acts)
    ensures
      var s := Exec(c, Init(c, start, regions), acts);
      r in s.regions && 0 in s.regions[r].refused
  {
    var s := Init(c, start, regions);
    var fill := FillChannel(c, s, P.Payload("", ""));
    var meet := MeetFullChannel(c, Exec(c, s, fill), r, msg, stamp);
    RunsCompose(c, s, fill, meet);
    acts := fill + meet;
  }
}
