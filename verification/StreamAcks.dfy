/** What becomes of acknowledgements: every accepted or useless message is acknowledged once, in stream order, and what
    stays pending is exactly what was refused, lost with a reply, not handled yet, or acknowledged in vain. */
module StreamAcks {
  import opened Outcomes
  import opened Translator
  import opened Stream
  import opened StreamSafety
  import opened StreamShutdown
  import P = Pipeline

  /** The reader has decided on message i and has not sent its acknowledgement yet. */
  predicate InHand(g: Region, i: nat) { (g.pc.Counting? || g.pc.Acking?) && g.pc.next == i }

  ghost predicate AcksExact(g: Region) {
    && (forall j, k | 0 <= j < k < |g.acks| :: g.acks[j] < g.acks[k])
    && (forall i: nat :: i in g.acks <==> (i in g.slots || i in g.skipped) && !InHand(g, i))
    && (forall i: nat :: i in g.acked <==> i in g.acks && i !in g.unacked)
    && (forall i | i in g.unacked :: i in g.acks)
  }

  // ---- Moves of one region ----

  lemma AckNext(g: Region)
    requires RegionOk(g) && AcksExact(g) && g.pc.Acking?
    ensures
      var sent := g.acks + [g.pc.next];
      && (forall j, k | 0 <= j < k < |sent| :: sent[j] < sent[k])
      && (forall i: nat :: i in sent <==> i in g.acks || i == g.pc.next)
  {
    forall j | 0 <= j < |g.acks|
      ensures g.acks[j] < g.pc.next
    {
      assert g.acks[j] in g.acks;
    }
  }

  lemma AckKeeps(c: Config, s: State, g: Region, ok: bool)
    requires RegionOk(g) && AcksExact(g) && g.pc.Acking?
    ensures AcksExact(Quietly(s, g, Ack(ok)))
  {
    AckNext(g);
    assert g.pc.next !in g.acks && g.pc.next !in g.unacked;
  }

  lemma QuietKeeps(c: Config, s: State, g: Region, m: Move)
    requires RegionOk(g) && AcksExact(g) && CanMove(c, s, g, m) && !m.Handle? && !m.Ack?
    ensures AcksExact(Quietly(s, g, m))
  {
  }

  lemma SkipKeeps(g: Region, stamp: Stamp)
    requires RegionOk(g) && AcksExact(g) && g.pc.Batch? && g.pc.next < g.pc.end
    ensures AcksExact(Skipped(g, stamp))
  {
  }

  lemma AcceptKeeps(g: Region, slot: Slot)
    requires RegionOk(g) && AcksExact(g) && g.pc.Batch? && g.pc.next < g.pc.end
    ensures AcksExact(Accepted(g, slot))
  {
  }

  lemma MoveKeeps(c: Config, s: State, r: string, m: Move)
    requires r in s.regions && RegionOk(s.regions[r]) && AcksExact(s.regions[r]) && CanMove(c, s, s.regions[r], m)
    ensures AcksExact(RegionAfter(c, s, r, m))
  {
    var g := s.regions[r];
    if m.Ack? {
      AckKeeps(c, s, g, m.ok);
    } else if !m.Handle? {
      QuietKeeps(c, s, g, m);
    } else if Usable(c.translators, r, MessageAt(g, g.pc.next), m.stamp).None? {
      SkipKeeps(g, m.stamp);
    } else if P.Accepts(c.pipe, s.pipe) {
      AcceptKeeps(g, Slot(|s.pipe.accepted|, m.stamp));
    }
  }

  // ---- Runs ----

  ghost predicate RegionsExact(s: State) {
    forall r | r in s.regions :: AcksExact(s.regions[r]) && (s.regions[r].pc.Stopped? ==> s.cancelled)
  }

  lemma StopNeedsCancel(c: Config, s: State, r: string, m: Move)
    requires r in s.regions && CanMove(c, s, s.regions[r], m) && !s.regions[r].pc.Stopped?
    ensures RegionAfter(c, s, r, m).pc.Stopped? ==> s.cancelled
  {
  }

  lemma StepKeepsExact(c: Config, s: State, a: Action)
    requires RegionsExact(s) && (forall r | r in s.regions :: RegionOk(s.regions[r])) && Enabled(c, s, a)
    ensures RegionsExact(Next(c, s, a))
  {
    if a.Step? {
      OnlyItsRegion(c, s, a.r, a.move);
      MoveKeeps(c, s, a.r, a.move);
      StopNeedsCancel(c, s, a.r, a.move);
    }
  }

  lemma {:induction false} ExactRun(c: Config, start: real, regions: set<string>, acts: seq<Action>)
    requires P.ValidConfig(c.pipe) && IsRun(c, Init(c, start, regions), acts)
    ensures RegionsExact(Exec(c, Init(c, start, regions), acts))
  {
    if acts != [] {
      var front := acts[..|acts| - 1];
      ExactRun(c, start, regions, front);
      Reachable(c, start, regions, front);
      StepKeepsExact(c, Exec(c, Init(c, start, regions), front), acts[|acts| - 1]);
    }
  }

  /** In every reachable state and for every region: an acknowledgement has been sent once, in stream order, for exactly
      the accepted and the useless messages, but for the one in the reader's hand; what is pending was refused, was lost
      with a reply, has not been handled, is in hand, or its acknowledgement failed; a stopped reader was cancelled. */
  lemma {:induction false} AcknowledgedOnce(c: Config, start: real, regions: set<string>, acts: seq<Action>, r: string)
    requires P.ValidConfig(c.pipe) && IsRun(c, Init(c, start, regions), acts)
    requires r in Exec(c, Init(c, start, regions), acts).regions
    ensures
      var s := Exec(c, Init(c, start, regions), acts);
      var g := s.regions[r];
      && (forall j, k | 0 <= j < k < |g.acks| :: g.acks[j] < g.acks[k])
      && (forall i: nat :: i in g.acks <==> (i in g.slots || i in g.skipped) && !InHand(g, i))
      && (forall i: nat :: i in g.acked <==> i in g.acks && i !in g.unacked)
      && (forall i: nat :: i in g.pending <==>
            i < g.cursor && (i in g.refused || i in g.lost || Frontier(g) <= i || InHand(g, i) || i in g.unacked))
      && (g.pc.Stopped? ==> s.cancelled)
  {
    Reachable(c, start, regions, acts);
    ExactRun(c, start, regions, acts);
    PendingIs(Exec(c, Init(c, start, regions), acts).regions[r]);
  }

  lemma PendingIs(g: Region)
    requires RegionOk(g) && AcksExact(g)
    ensures forall i: nat :: i in g.pending <==>
              i < g.cursor && (i in g.refused || i in g.lost || Frontier(g) <= i || InHand(g, i) || i in g.unacked)
  {
  }

  /** If no acknowledgement fails, none is sent in vain. */
  lemma {:induction false} NoneInVain(c: Config, start: real, regions: set<string>, acts: seq<Action>, r: string)
    requires IsRun(c, Init(c, start, regions), acts) && Step(r, Ack(false)) !in acts
    ensures
      var s := Exec(c, Init(c, start, regions), acts);
      r in s.regions ==> s.regions[r].unacked == {}
  {
    if acts != [] {
      var front, a := acts[..|acts| - 1], acts[|acts| - 1];
      assert a in acts;
      NoneInVain(c, start, regions, front, r);
      OneStepInVain(c, Exec(c, Init(c, start, regions), front), a, r);
    }
  }

  lemma OneStepInVain(c: Config, s: State, a: Action, r: string)
    requires Enabled(c, s, a) && a != Step(r, Ack(false))
    ensures
      var t := Next(c, s, a);
      r in t.regions ==> r in s.regions && t.regions[r].unacked == s.regions[r].unacked
  {
    if a.Step? {
      OnlyItsRegion(c, s, a.r, a.move);
    }
  }

  // ---- One message ----

  /** The region after its next message, as `HandleMessage` leaves it when the acknowledgement gets through. */
  ghost predicate Finished(c: Config, s: State, t: State, r: string, stamp: Stamp)
    requires r in s.regions && s.regions[r].pc.Batch?
  {
    var g, next := s.regions[r], s.regions[r].pc.next;
    && r in t.regions && t.regions[r].pc == Batch(next + 1, g.pc.end)
    && match Usable(c.translators, r, MessageAt(g, next), stamp)
       case None => t.regions[r].acked == g.acked + {next} && t.pipe.queue == s.pipe.queue
       case Some(data) =>
         if |s.pipe.queue| < c.pipe.bufferSize then
           t.regions[r].acked == g.acked + {next} && t.pipe.queue == s.pipe.queue + [P.Payload(r, data)]
         else
           t.regions[r].acked == g.acked && t.pipe.queue == s.pipe.queue
  }

  lemma UnusableMessage(c: Config, s: State, r: string, stamp: Stamp) returns (acts: seq<Action>)
    requires r in s.regions && CanMove(c, s, s.regions[r], Handle(stamp))
    requires Usable(c.translators, r, MessageAt(s.regions[r], s.regions[r].pc.next), stamp).None?
    ensures IsRun(c, s, acts) && Finished(c, s, Exec(c, s, acts), r, stamp)
  {
    OneStep(c, s, Step(r, Handle(stamp)));
    var s1 := Next(c, s, Step(r, Handle(stamp)));
    OneStep(c, s1, Step(r, Ack(true)));
    RunsCompose(c, s, [Step(r, Handle(stamp))], [Step(r, Ack(true))]);
    acts := [Step(r, Handle(stamp))] + [Step(r, Ack(true))];
  }

  lemma AcceptedMessage(c: Config, s: State, r: string, stamp: Stamp) returns (acts: seq<Action>)
    requires r in s.regions && CanMove(c, s, s.regions[r], Handle(stamp)) && P.Accepts(c.pipe, s.pipe)
    requires Usable(c.translators, r, MessageAt(s.regions[r], s.regions[r].pc.next), stamp).Some?
    ensures IsRun(c, s, acts) && Finished(c, s, Exec(c, s, acts), r, stamp)
    ensures s.regions[r].pc.next in Exec(c, s, acts).regions[r].slots
  {
    OneStep(c, s, Step(r, Handle(stamp)));
    var s1 := Next(c, s, Step(r, Handle(stamp)));
    OneStep(c, s1, Step(r, Count));
    var s2 := Next(c, s1, Step(r, Count));
    OneStep(c, s2, Step(r, Ack(true)));
    RunsCompose(c, s1, [Step(r, Count)], [Step(r, Ack(true))]);
    acts := [Step(r, Count)] + [Step(r, Ack(true))];
    RunsCompose(c, s, [Step(r, Handle(stamp))], acts);
    acts := [Step(r, Handle(stamp))] + acts;
  }

  /** Message by message, the steps of a reader do what its `HandleMessage` is proved to do. */
  lemma MessageIsARun(c: Config, s: State, r: string, stamp: Stamp) returns (acts: seq<Action>)
    requires r in s.regions && CanMove(c, s, s.regions[r], Handle(stamp))
    ensures IsRun(c, s, acts) && Finished(c, s, Exec(c, s, acts), r, stamp)
  {
    if Usable(c.translators, r, MessageAt(s.regions[r], s.regions[r].pc.next), stamp).None? {
      acts := UnusableMessage(c, s, r, stamp);
    } else if P.Accepts(c.pipe, s.pipe) {
      acts := AcceptedMessage(c, s, r, stamp);
    } else {
      OneStep(c, s, Step(r, Handle(stamp)));
      acts := [Step(r, Handle(stamp))];
    }
  }

  /** For every configuration, region and usable message there is a run in which it is accepted and acknowledged. */
  lemma AcceptedAndAcknowledged(c: Config, start: real, regions: set<string>, r: string, msg: Message, stamp: Stamp)
    returns (acts: seq<Action>)
    requires P.ValidConfig(c.pipe) && c.readBatch >= 1 && r in regions && Usable(c.translators, r, msg, stamp).Some?
    ensures IsRun(c, Init(c, start, regions), acts)
    ensures
      var s := Exec(c, Init(c, start, regions), acts);
      r in s.regions && 0 in s.regions[r].slots && 0 in s.regions[r].acked
  {
    var s := Init(c, start, regions);
    var read, mid := ReadOne(c, s, r, msg);
    var handle := AcceptedMessage(c, mid, r, stamp);
    RunsCompose(c, s, read, handle);
    acts := read + handle;
  }
}
