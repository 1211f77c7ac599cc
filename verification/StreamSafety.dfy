/** What every run of readers, HTTP submitters and pipeline keeps, and what it means for acknowledgements. */
module StreamSafety {
  import opened Outcomes
  import opened Translator
  import opened Stream
  import P = Pipeline
  import PipelineSafety
  import PipelineTheorems

  /** Messages below this index have been handled or were lost with a reply. */
  function Frontier(g: Region): nat {
    match g.pc
    case Batch(next, _) => next
    case Counting(next, _) => next + 1
    case Acking(next, _) => next + 1
    case _ => g.cursor
  }

  ghost predicate CursorOk(g: Region) {
    && Frontier(g) <= g.cursor <= |g.stream|
    && (g.pc.Batch? ==> g.pc.next <= g.pc.end == g.cursor)
    && (g.pc.Counting? || g.pc.Acking? ==> g.pc.next < g.pc.end == g.cursor)
  }

  /** Delivered = pending + acknowledged, disjointly. */
  ghost predicate GroupOk(g: Region) {
    && (forall i: nat :: i in g.pending || i in g.acked <==> i < g.cursor)
    && g.pending !! g.acked
  }

  /** Every message behind the frontier met exactly one fate, and none ahead of it has met any. */
  ghost predicate FatesOk(g: Region) {
    && (forall i: nat :: i in g.refused || i in g.slots || i in g.skipped || i in g.lost <==> i < Frontier(g))
    && g.refused !! g.slots.Keys !! g.skipped.Keys !! g.lost
  }

  /** Submissions were attempted once per message, in stream order. */
  ghost predicate AttemptsOk(g: Region) {
    && (forall j, k | 0 <= j < k < |g.attempts| :: g.attempts[j] < g.attempts[k])
    && (forall i: nat :: i in g.attempts <==> i in g.refused || i in g.slots)
  }

  /** An acknowledgement follows acceptance or uselessness; what is being acknowledged is one of the two. */
  ghost predicate AcksOk(g: Region) {
    && (forall i | i in g.acked :: i in g.slots || i in g.skipped)
    && (g.pc.Acking? ==> g.pc.next in g.slots || g.pc.next in g.skipped)
    && (g.pc.Counting? ==> g.pc.next in g.slots)
    && (g.pc.Counting? || g.pc.Acking? ==> g.pc.next in g.pending)
  }

  ghost predicate RegionOk(g: Region) { CursorOk(g) && GroupOk(g) && FatesOk(g) && AttemptsOk(g) && AcksOk(g) }

  type Owners = map<nat, (string, nat)>

  /** Message i of region r is the payload at its slot of the accepted sequence, and the slot is its own. */
  ghost predicate Landed(c: Config, r: string, g: Region, i: nat, accepted: seq<P.Payload>, owners: Owners)
    requires i in g.slots
  {
    var k := g.slots[i].index;
    && k < |accepted| && i < |g.stream|
    && k in owners && owners[k] == (r, i)
    && accepted[k].source == r
    && Usable(c.translators, r, g.stream[i], g.slots[i].stamp) == Some(accepted[k].data)
  }

  /** The region's messages sit in the accepted sequence in stream order. */
  ghost predicate OrderOk(g: Region) {
    forall i, j | i in g.slots && j in g.slots && i < j :: g.slots[i].index < g.slots[j].index
  }

  ghost predicate ContentOk(c: Config, r: string, g: Region, accepted: seq<P.Payload>, owners: Owners) {
    && (forall i | i in g.slots :: Landed(c, r, g, i, accepted, owners))
    && (forall i | i in g.skipped :: i < |g.stream| && Usable(c.translators, r, g.stream[i], g.skipped[i]) == None)
    && OrderOk(g)
  }

  ghost predicate RegionsOk(c: Config, regions: map<string, Region>, accepted: seq<P.Payload>, owners: Owners) {
    forall r | r in regions :: RegionOk(regions[r]) && ContentOk(c, r, regions[r], accepted, owners)
  }

  ghost predicate AllStopped(regions: map<string, Region>) { forall r | r in regions :: regions[r].pc.Stopped? }

  /** The place of the message that the reader is about to count. */
  function CountDue(g: Region): Option<nat> {
    if g.pc.Counting? && g.pc.next in g.slots then Some(g.slots[g.pc.next].index) else None
  }

  /** What a reader is about to count is not counted yet. */
  ghost predicate CountsDue(regions: map<string, Region>, uncounted: set<nat>) {
    forall r | r in regions && CountDue(regions[r]).Some? :: CountDue(regions[r]).value in uncounted
  }

  ghost predicate Inv(c: Config, s: State) {
    && PipelineSafety.Inv(c.pipe, s.pipe)
    && RegionsOk(c, s.regions, s.pipe.accepted, s.owners)
    && CountsDue(s.regions, s.pipe.uncounted)
    && (s.pipe.closed ==> AllStopped(s.regions))
  }

  // ---- Moves of one region ----

  lemma ReadMove(c: Config, s: State, g: Region, m: Move)
    requires RegionOk(g) && CanMove(c, s, g, m) && (m.Read? || m.ReadFails?)
    ensures RegionOk(Quietly(s, g, m))
  {
  }

  lemma AckMove(c: Config, s: State, g: Region, m: Move)
    requires RegionOk(g) && CanMove(c, s, g, m) && m.Ack?
    ensures RegionOk(Quietly(s, g, m))
  {
  }

  lemma QuietMove(c: Config, s: State, g: Region, m: Move)
    requires RegionOk(g) && CanMove(c, s, g, m) && !m.Handle?
    ensures RegionOk(Quietly(s, g, m))
    ensures
      var g' := Quietly(s, g, m);
      g'.slots == g.slots && g'.skipped == g.skipped && g'.stream == g.stream
  {
    match m
    case Read(_) => ReadMove(c, s, g, m);
    case ReadFails(_) => ReadMove(c, s, g, m);
    case Ack(_) => AckMove(c, s, g, m);
    case _ =>
  }

  lemma SkipMove(g: Region, stamp: Stamp)
    requires RegionOk(g) && g.pc.Batch? && g.pc.next < g.pc.end
    ensures RegionOk(Skipped(g, stamp))
  {
  }

  lemma AttemptNext(g: Region)
    requires RegionOk(g) && g.pc.Batch? && g.pc.next < g.pc.end
    ensures
      var tried := g.attempts + [g.pc.next];
      && (forall j, k | 0 <= j < k < |tried| :: tried[j] < tried[k])
      && (forall i: nat :: i in tried <==> i in g.attempts || i == g.pc.next)
  {
    forall j | 0 <= j < |g.attempts|
      ensures g.attempts[j] < g.pc.next
    {
      assert g.attempts[j] in g.attempts;
    }
  }

  lemma AcceptMove(g: Region, slot: Slot)
    requires RegionOk(g) && g.pc.Batch? && g.pc.next < g.pc.end
    ensures RegionOk(Accepted(g, slot))
  {
    AttemptNext(g);
  }

  lemma RefuseMove(g: Region)
    requires RegionOk(g) && g.pc.Batch? && g.pc.next < g.pc.end
    ensures RegionOk(Refused(g))
  {
    AttemptNext(g);
  }

  // ---- Steps of the system ----

  /** The pipeline only ever appends to its accepted sequence. */
  lemma AcceptedGrows(c: P.Config, s: P.State, a: P.Action)
    requires P.Enabled(c, s, a)
    ensures s.accepted <= P.Next(c, s, a).accepted
  {
  }

  /** Longer histories change nothing for a region. */
  lemma ContentFrame(c: Config, r: string, g: Region, g': Region,
                     before: seq<P.Payload>, after: seq<P.Payload>, owners: Owners, owners': Owners)
    requires ContentOk(c, r, g, before, owners) && before <= after
    requires forall k | k in owners && k < |before| :: k in owners' && owners'[k] == owners[k]
    requires g'.slots == g.slots && g'.skipped == g.skipped && g.stream <= g'.stream
    ensures ContentOk(c, r, g', after, owners')
  {
    forall i | i in g'.slots
      ensures Landed(c, r, g', i, after, owners')
    {
      assert Landed(c, r, g, i, before, owners);
    }
  }

  lemma RegionsFrame(c: Config, regions: map<string, Region>,
                     before: seq<P.Payload>, after: seq<P.Payload>, owners: Owners, owners': Owners)
    requires RegionsOk(c, regions, before, owners) && before <= after
    requires forall k | k in owners && k < |before| :: k in owners' && owners'[k] == owners[k]
    ensures RegionsOk(c, regions, after, owners')
  {
    forall r | r in regions
      ensures ContentOk(c, r, regions[r], after, owners')
    {
      ContentFrame(c, r, regions[r], regions[r], before, after, owners, owners');
    }
  }

  lemma ProduceRegions(c: Config, s: State, r: string, msg: Message)
    requires RegionsOk(c, s.regions, s.pipe.accepted, s.owners) && r in s.regions
    ensures RegionsOk(c, Next(c, s, Produce(r, msg)).regions, s.pipe.accepted, s.owners)
  {
    var g := s.regions[r];
    var g' := g.(stream := g.stream + [msg]);
    ContentFrame(c, r, g, g', s.pipe.accepted, s.pipe.accepted, s.owners, s.owners);
    LongerStream(g, msg);
  }

  lemma LongerStream(g: Region, msg: Message)
    requires RegionOk(g)
    ensures RegionOk(g.(stream := g.stream + [msg]))
  {
  }

  lemma QuietRegions(c: Config, s: State, r: string, m: Move)
    requires RegionsOk(c, s.regions, s.pipe.accepted, s.owners) && Enabled(c, s, Step(r, m)) && !m.Handle?
    ensures RegionsOk(c, s.regions[r := Quietly(s, s.regions[r], m)], s.pipe.accepted, s.owners)
  {
    var g := s.regions[r];
    QuietMove(c, s, g, m);
    ContentFrame(c, r, g, Quietly(s, g, m), s.pipe.accepted, s.pipe.accepted, s.owners, s.owners);
  }

  lemma SkippedContent(c: Config, r: string, g: Region, accepted: seq<P.Payload>, owners: Owners, stamp: Stamp)
    requires ContentOk(c, r, g, accepted, owners) && g.pc.Batch? && g.pc.next < |g.stream|
    requires Usable(c.translators, r, g.stream[g.pc.next], stamp).None?
    ensures ContentOk(c, r, Skipped(g, stamp), accepted, owners)
  {
    forall i | i in g.slots
      ensures Landed(c, r, Skipped(g, stamp), i, accepted, owners)
    {
      assert Landed(c, r, g, i, accepted, owners);
    }
  }

  lemma SkipRegions(c: Config, s: State, r: string, stamp: Stamp)
    requires RegionsOk(c, s.regions, s.pipe.accepted, s.owners) && Enabled(c, s, Step(r, Handle(stamp)))
    requires Usable(c.translators, r, MessageAt(s.regions[r], s.regions[r].pc.next), stamp).None?
    ensures RegionsOk(c, s.regions[r := Skipped(s.regions[r], stamp)], s.pipe.accepted, s.owners)
  {
    SkipMove(s.regions[r], stamp);
    SkippedContent(c, r, s.regions[r], s.pipe.accepted, s.owners, stamp);
  }

  lemma RefuseRegions(c: Config, s: State, r: string)
    requires RegionsOk(c, s.regions, s.pipe.accepted, s.owners) && r in s.regions
    requires s.regions[r].pc.Batch? && s.regions[r].pc.next < s.regions[r].pc.end
    ensures RegionsOk(c, s.regions[r := Refused(s.regions[r])], s.pipe.accepted, s.owners)
  {
    var g := s.regions[r];
    RefuseMove(g);
    ContentFrame(c, r, g, Refused(g), s.pipe.accepted, s.pipe.accepted, s.owners, s.owners);
  }

  /** The new message is behind all accepted ones in the stream, and its place behind all of theirs. */
  lemma AcceptedOrder(c: Config, r: string, g: Region, accepted: seq<P.Payload>, owners: Owners, stamp: Stamp)
    requires ContentOk(c, r, g, accepted, owners) && FatesOk(g) && g.pc.Batch?
    ensures OrderOk(Accepted(g, Slot(|accepted|, stamp)))
  {
    forall i | i in g.slots
      ensures i < g.pc.next && g.slots[i].index < |accepted|
    {
      assert Landed(c, r, g, i, accepted, owners);
    }
  }

  lemma AcceptedContent(c: Config, r: string, g: Region, accepted: seq<P.Payload>, owners: Owners,
                        data: string, stamp: Stamp)
    requires ContentOk(c, r, g, accepted, owners) && FatesOk(g) && g.pc.Batch? && g.pc.next < |g.stream|
    requires Usable(c.translators, r, g.stream[g.pc.next], stamp) == Some(data)
    ensures ContentOk(c, r, Accepted(g, Slot(|accepted|, stamp)), accepted + [P.Payload(r, data)],
                      owners[|accepted| := (r, g.pc.next)])
  {
    AcceptedOrder(c, r, g, accepted, owners, stamp);
    var g' := Accepted(g, Slot(|accepted|, stamp));
    forall i | i in g'.slots
      ensures Landed(c, r, g', i, accepted + [P.Payload(r, data)], owners[|accepted| := (r, g.pc.next)])
    {
      if i != g.pc.next {
        assert Landed(c, r, g, i, accepted, owners);
      }
    }
  }

  lemma AcceptRegions(c: Config, s: State, r: string, stamp: Stamp, data: string)
    requires RegionsOk(c, s.regions, s.pipe.accepted, s.owners) && r in s.regions
    requires s.regions[r].pc.Batch? && s.regions[r].pc.next < s.regions[r].pc.end
    requires Usable(c.translators, r, MessageAt(s.regions[r], s.regions[r].pc.next), stamp) == Some(data)
    ensures
      var slot := |s.pipe.accepted|;
      RegionsOk(c, s.regions[r := Accepted(s.regions[r], Slot(slot, stamp))],
                s.pipe.accepted + [P.Payload(r, data)], s.owners[slot := (r, s.regions[r].pc.next)])
  {
    var g, slot := s.regions[r], |s.pipe.accepted|;
    AcceptMove(g, Slot(slot, stamp));
    AcceptedContent(c, r, g, s.pipe.accepted, s.owners, data, stamp);
    RegionsFrame(c, s.regions, s.pipe.accepted, s.pipe.accepted + [P.Payload(r, data)],
                 s.owners, s.owners[slot := (r, g.pc.next)]);
  }

  lemma RegionsStep(c: Config, s: State, a: Action)
    requires RegionsOk(c, s.regions, s.pipe.accepted, s.owners) && Enabled(c, s, a)
    ensures RegionsOk(c, Next(c, s, a).regions, Next(c, s, a).pipe.accepted, Next(c, s, a).owners)
  {
    match a
    case Pipe(p) =>
      AcceptedGrows(c.pipe, s.pipe, p);
      RegionsFrame(c, s.regions, s.pipe.accepted, Next(c, s, a).pipe.accepted, s.owners, s.owners);
    case Produce(r, msg) => ProduceRegions(c, s, r, msg);
    case Cancel =>
    case Step(r, m) =>
      if !m.Handle? {
        QuietRegions(c, s, r, m);
      } else {
        var usable := Usable(c.translators, r, MessageAt(s.regions[r], s.regions[r].pc.next), m.stamp);
        if usable.None? {
          SkipRegions(c, s, r, m.stamp);
        } else if P.Accepts(c.pipe, s.pipe) {
          AcceptRegions(c, s, r, m.stamp, usable.value);
        } else {
          RefuseRegions(c, s, r);
        }
      }
  }

  /** What a step of the whole system does to the pipeline: nothing, or one step of it. */
  function OnPipe(c: Config, s: State, a: Action): Option<P.Action>
    requires Enabled(c, s, a)
  {
    match a
    case Pipe(p) => Some(p)
    case Step(r, Handle(stamp)) =>
      var usable := Usable(c.translators, r, MessageAt(s.regions[r], s.regions[r].pc.next), stamp);
      if usable.Some? then Some(P.Submit(P.Payload(r, usable.value))) else None
    case Step(r, Count) => Some(P.CountIngested(s.regions[r].slots[s.regions[r].pc.next].index))
    case _ => None
  }

  lemma NextPipe(c: Config, s: State, a: Action)
    requires Enabled(c, s, a)
    ensures
      var step, pipe := OnPipe(c, s, a), Next(c, s, a).pipe;
      if step.Some? then P.Enabled(c.pipe, s.pipe, step.value) && pipe == P.Next(c.pipe, s.pipe, step.value)
      else pipe == s.pipe
  {
  }

  lemma UncountedKept(c: P.Config, s: P.State, a: P.Action, slot: nat)
    requires P.Enabled(c, s, a) && slot in s.uncounted && a != P.CountIngested(slot)
    ensures slot in P.Next(c, s, a).uncounted
  {
  }

  /** A slot that a reader is about to count is owned by that reader's region. */
  lemma CountDueOwned(c: Config, r: string, g: Region, accepted: seq<P.Payload>, owners: Owners)
    requires ContentOk(c, r, g, accepted, owners) && CountDue(g).Some?
    ensures CountDue(g).value in owners && owners[CountDue(g).value].0 == r
  {
    assert Landed(c, r, g, g.pc.next, accepted, owners);
  }

  lemma CountsAfterPipe(c: Config, s: State, a: P.Action)
    requires RegionsOk(c, s.regions, s.pipe.accepted, s.owners) && CountsDue(s.regions, s.pipe.uncounted)
    requires Enabled(c, s, Pipe(a))
    ensures CountsDue(s.regions, P.Next(c.pipe, s.pipe, a).uncounted)
  {
    forall r | r in s.regions && CountDue(s.regions[r]).Some?
      ensures CountDue(s.regions[r]).value in P.Next(c.pipe, s.pipe, a).uncounted
    {
      CountDueOwned(c, r, s.regions[r], s.pipe.accepted, s.owners);
      UncountedKept(c.pipe, s.pipe, a, CountDue(s.regions[r]).value);
    }
  }

  /** A move of one reader that leaves it with nothing to count. */
  lemma CountsAfterOwn(regions: map<string, Region>, uncounted: set<nat>, r: string, g: Region)
    requires CountsDue(regions, uncounted) && CountDue(g).None?
    ensures CountsDue(regions[r := g], uncounted)
  {
  }

  lemma CountsAfterAccept(c: Config, s: State, r: string, stamp: Stamp, p: P.Payload)
    requires CountsDue(s.regions, s.pipe.uncounted) && r in s.regions && s.regions[r].pc.Batch?
    requires !s.pipe.closed && P.Accepts(c.pipe, s.pipe)
    ensures
      var n := |s.pipe.accepted|;
      CountsDue(s.regions[r := Accepted(s.regions[r], Slot(n, stamp))], P.Next(c.pipe, s.pipe, P.Submit(p)).uncounted)
  {
  }

  lemma CountsAfterCount(c: Config, s: State, r: string)
    requires RegionsOk(c, s.regions, s.pipe.accepted, s.owners) && CountsDue(s.regions, s.pipe.uncounted)
    requires Enabled(c, s, Step(r, Count))
    ensures
      var g := s.regions[r];
      CountsDue(s.regions[r := Quietly(s, g, Count)], s.pipe.uncounted - {g.slots[g.pc.next].index})
  {
    var g := s.regions[r];
    CountDueOwned(c, r, g, s.pipe.accepted, s.owners);
    forall q | q in s.regions && q != r && CountDue(s.regions[q]).Some?
      ensures CountDue(s.regions[q]).value != g.slots[g.pc.next].index
    {
      CountDueOwned(c, q, s.regions[q], s.pipe.accepted, s.owners);
    }
  }

  lemma CountsAfterHandle(c: Config, s: State, r: string, stamp: Stamp)
    requires CountsDue(s.regions, s.pipe.uncounted) && r in s.regions && CanMove(c, s, s.regions[r], Handle(stamp))
    ensures
      var t := Handled(c, s, r, stamp);
      CountsDue(t.regions, t.pipe.uncounted)
  {
    var g := s.regions[r];
    var usable := Usable(c.translators, r, MessageAt(g, g.pc.next), stamp);
    if usable.None? {
      CountsAfterOwn(s.regions, s.pipe.uncounted, r, Skipped(g, stamp));
    } else if P.Accepts(c.pipe, s.pipe) {
      CountsAfterAccept(c, s, r, stamp, P.Payload(r, usable.value));
    } else {
      CountsAfterOwn(s.regions, s.pipe.uncounted, r, Refused(g));
    }
  }

  lemma QuietMovesCountNothing(c: Config, s: State, g: Region, m: Move)
    requires CanMove(c, s, g, m) && !m.Handle?
    ensures CountDue(Quietly(s, g, m)).None?
  {
  }

  lemma CountsAfterStep(c: Config, s: State, r: string, m: Move)
    requires RegionsOk(c, s.regions, s.pipe.accepted, s.owners) && CountsDue(s.regions, s.pipe.uncounted)
    requires Enabled(c, s, Step(r, m))
    ensures CountsDue(Next(c, s, Step(r, m)).regions, Next(c, s, Step(r, m)).pipe.uncounted)
  {
    if m.Handle? {
      CountsAfterHandle(c, s, r, m.stamp);
    } else if m.Count? {
      CountsAfterCount(c, s, r);
    } else {
      QuietMovesCountNothing(c, s, s.regions[r], m);
      CountsAfterOwn(s.regions, s.pipe.uncounted, r, Quietly(s, s.regions[r], m));
    }
  }

  /** Nobody but the reader itself counts its message. */
  lemma CountsStayDue(c: Config, s: State, a: Action)
    requires RegionsOk(c, s.regions, s.pipe.accepted, s.owners) && CountsDue(s.regions, s.pipe.uncounted)
    requires Enabled(c, s, a)
    ensures CountsDue(Next(c, s, a).regions, Next(c, s, a).pipe.uncounted)
  {
    match a
    case Pipe(p) => CountsAfterPipe(c, s, p);
    case Produce(r, msg) => assert CountDue(Next(c, s, a).regions[r]) == CountDue(s.regions[r]);
    case Cancel =>
    case Step(r, m) => CountsAfterStep(c, s, r, m);
  }

  lemma ClosedMeansStopped(c: Config, s: State, a: Action)
    requires (s.pipe.closed ==> AllStopped(s.regions)) && Enabled(c, s, a)
    ensures Next(c, s, a).pipe.closed ==> AllStopped(Next(c, s, a).regions)
  {
  }

  lemma {:induction false} StepKeepsInv(c: Config, s: State, a: Action)
    requires P.ValidConfig(c.pipe) && Inv(c, s) && Enabled(c, s, a)
    ensures Inv(c, Next(c, s, a))
  {
    NextPipe(c, s, a);
    if OnPipe(c, s, a).Some? {
      PipelineSafety.InvStep(c.pipe, s.pipe, OnPipe(c, s, a).value);
    }
    RegionsStep(c, s, a);
    CountsStayDue(c, s, a);
    ClosedMeansStopped(c, s, a);
  }

  lemma {:induction false} Reachable(c: Config, start: real, regions: set<string>, acts: seq<Action>)
    requires P.ValidConfig(c.pipe) && IsRun(c, Init(c, start, regions), acts)
    ensures Inv(c, Exec(c, Init(c, start, regions), acts))
  {
    if acts == [] {
      PipelineSafety.InvInit(c.pipe, start);
    } else {
      var front := acts[..|acts| - 1];
      Reachable(c, start, regions, front);
      StepKeepsInv(c, Exec(c, Init(c, start, regions), front), acts[|acts| - 1]);
    }
  }

  // ---- Nothing of the stream's is left uncounted ----

  /** A place that a region owns and that is not counted yet is the one that its reader is about to count. */
  ghost predicate OwnersDue(s: State) {
    && (forall k | k in s.owners :: k < |s.pipe.accepted|)
    && (forall k | k in s.pipe.uncounted && k in s.owners :: OwnerDue(s.regions, s.owners, k))
  }

  ghost predicate OwnerDue(regions: map<string, Region>, owners: Owners, k: nat)
    requires k in owners
  {
    owners[k].0 in regions && CountDue(regions[owners[k].0]) == Some(k)
  }

  lemma DueAfterPipe(c: Config, s: State, a: P.Action)
    requires OwnersDue(s) && Enabled(c, s, Pipe(a))
    ensures OwnersDue(Next(c, s, Pipe(a)))
  {
    AcceptedGrows(c.pipe, s.pipe, a);
    var t := Next(c, s, Pipe(a));
    forall k | k in t.pipe.uncounted && k in t.owners
      ensures OwnerDue(t.regions, t.owners, k)
    {
      assert OwnerDue(s.regions, s.owners, k);
    }
  }

  /** A reader that has nothing to count moves on. */
  lemma DueAfterOwn(s: State, r: string, g: Region, pipe: P.State)
    requires OwnersDue(s) && r in s.regions && CountDue(s.regions[r]).None?
    requires pipe.uncounted == s.pipe.uncounted && pipe.accepted == s.pipe.accepted
    ensures OwnersDue(s.(regions := s.regions[r := g], pipe := pipe))
  {
    forall k | k in s.pipe.uncounted && k in s.owners
      ensures OwnerDue(s.regions[r := g], s.owners, k)
    {
      assert OwnerDue(s.regions, s.owners, k);
    }
  }

  lemma DueAfterCount(s: State, r: string, g: Region, pipe: P.State)
    requires OwnersDue(s) && r in s.regions && CountDue(s.regions[r]).Some?
    requires pipe.uncounted == s.pipe.uncounted - {CountDue(s.regions[r]).value} && pipe.accepted == s.pipe.accepted
    ensures OwnersDue(s.(regions := s.regions[r := g], pipe := pipe))
  {
    forall k | k in pipe.uncounted && k in s.owners
      ensures OwnerDue(s.regions[r := g], s.owners, k)
    {
      assert OwnerDue(s.regions, s.owners, k);
    }
  }

  lemma DueAfterAccept(s: State, r: string, stamp: Stamp, p: P.Payload, pipe: P.State)
    requires OwnersDue(s) && r in s.regions && s.regions[r].pc.Batch?
    requires pipe.uncounted == s.pipe.uncounted + {|s.pipe.accepted|} && pipe.accepted == s.pipe.accepted + [p]
    ensures
      var n, g := |s.pipe.accepted|, s.regions[r];
      var regions, owners := s.regions[r := Accepted(g, Slot(n, stamp))], s.owners[n := (r, g.pc.next)];
      OwnersDue(s.(regions := regions, pipe := pipe, owners := owners))
  {
    var n, g := |s.pipe.accepted|, s.regions[r];
    var regions, owners := s.regions[r := Accepted(g, Slot(n, stamp))], s.owners[n := (r, g.pc.next)];
    forall k | k in pipe.uncounted && k in owners
      ensures OwnerDue(regions, owners, k)
    {
      if k != n {
        assert OwnerDue(s.regions, s.owners, k);
      }
    }
  }

  lemma DueAfterHandle(c: Config, s: State, r: string, stamp: Stamp)
    requires OwnersDue(s) && r in s.regions && CanMove(c, s, s.regions[r], Handle(stamp))
    ensures OwnersDue(Handled(c, s, r, stamp))
  {
    var g := s.regions[r];
    var usable := Usable(c.translators, r, MessageAt(g, g.pc.next), stamp);
    if usable.None? {
      DueAfterOwn(s, r, Skipped(g, stamp), s.pipe);
    } else {
      var p := P.Payload(r, usable.value);
      var pipe := P.Next(c.pipe, s.pipe, P.Submit(p));
      if P.Accepts(c.pipe, s.pipe) {
        DueAfterAccept(s, r, stamp, p, pipe);
      } else {
        DueAfterOwn(s, r, Refused(g), pipe);
      }
    }
  }

  lemma OwnersStayDue(c: Config, s: State, a: Action)
    requires OwnersDue(s) && Enabled(c, s, a)
    ensures OwnersDue(Next(c, s, a))
  {
    match a
    case Pipe(p) => DueAfterPipe(c, s, p);
    case Produce(r, msg) =>
      var t := Next(c, s, a);
      forall k | k in t.pipe.uncounted && k in t.owners
        ensures OwnerDue(t.regions, t.owners, k)
      {
        assert OwnerDue(s.regions, s.owners, k);
      }
    case Cancel =>
      assert forall k | k in s.pipe.uncounted && k in s.owners :: OwnerDue(s.regions, s.owners, k);
    case Step(r, m) => DueAfterStep(c, s, r, m);
  }

  lemma DueAfterStep(c: Config, s: State, r: string, m: Move)
    requires OwnersDue(s) && Enabled(c, s, Step(r, m))
    ensures OwnersDue(Next(c, s, Step(r, m)))
  {
    var t := Next(c, s, Step(r, m));
    if m.Handle? {
      DueAfterHandle(c, s, r, m.stamp);
    } else if m.Count? {
      DueAfterCount(s, r, Quietly(s, s.regions[r], m), t.pipe);
    } else {
      DueAfterOwn(s, r, Quietly(s, s.regions[r], m), s.pipe);
    }
  }

  // ---- Results ----

  /** A message is usable exactly when its "data" field holds text or bytes that can be prepared, and then it is these
      that are prepared. */
  lemma UsableMeans(translators: map<string, Inbound>, region: string, msg: Message, stamp: Stamp, data: string)
    ensures Usable(translators, region, msg, stamp) == Some(data) <==>
      && "data" in msg && (msg["data"].Text? || msg["data"].Raw?)
      && var raw := if msg["data"].Text? then msg["data"].s else msg["data"].bytes;
         var prepared := Prepare(translators, region, raw, stamp);
         prepared.Ready? && prepared.data == data
  {
  }

  /** In every reachable state and for every region: what the group has delivered is the disjoint union of pending and
      acknowledged; what the channel refused is pending and unaccepted; each message was submitted at most once, in
      stream order, and the accepted ones are in stream order in the accepted sequence; and behind a stopped reader
      every delivered message has been handled or went down with a reply. */
  lemma {:induction false} StreamProtocol(c: Config, start: real, regions: set<string>, acts: seq<Action>, r: string)
    requires P.ValidConfig(c.pipe) && IsRun(c, Init(c, start, regions), acts)
    requires r in Exec(c, Init(c, start, regions), acts).regions
    ensures
      var g := Exec(c, Init(c, start, regions), acts).regions[r];
      && (forall i: nat :: i in g.pending || i in g.acked <==> i < g.cursor)
      && g.pending !! g.acked
      && g.refused <= g.pending && g.refused !! g.slots.Keys
      && (forall j, k | 0 <= j < k < |g.attempts| :: g.attempts[j] < g.attempts[k])
      && (forall i: nat :: i in g.attempts <==> i in g.refused || i in g.slots)
      && (forall i, j | i in g.slots && j in g.slots && i < j :: g.slots[i].index < g.slots[j].index)
      && (g.pc.Stopped? ==> forall i: nat | i < g.cursor ::
            i in g.lost || i in g.skipped || i in g.slots || i in g.refused)
  {
    Reachable(c, start, regions, acts);
    var g := Exec(c, Init(c, start, regions), acts).regions[r];
    forall i | i in g.refused
      ensures i in g.pending
    {
      assert i < Frontier(g);
    }
  }

  lemma {:induction false} RefusedGrows(c: Config, s: State, acts: seq<Action>, r: string)
    requires IsRun(c, s, acts) && r in s.regions
    ensures r in Exec(c, s, acts).regions && s.regions[r].refused <= Exec(c, s, acts).regions[r].refused
  {
    if acts != [] {
      RefusedGrows(c, s, acts[..|acts| - 1], r);
      OneStepRefused(c, Exec(c, s, acts[..|acts| - 1]), acts[|acts| - 1], r);
    }
  }

  lemma OneStepRefused(c: Config, s: State, a: Action, r: string)
    requires Enabled(c, s, a) && r in s.regions
    ensures r in Next(c, s, a).regions && s.regions[r].refused <= Next(c, s, a).regions[r].refused
  {
  }

  lemma {:induction false} RunsCompose(c: Config, s: State, a: seq<Action>, b: seq<Action>)
    requires IsRun(c, s, a) && IsRun(c, Exec(c, s, a), b)
    ensures IsRun(c, s, a + b) && Exec(c, s, a + b) == Exec(c, Exec(c, s, a), b)
  {
    if b == [] {
      assert a + b == a;
    } else {
      var front := b[..|b| - 1];
      RunsCompose(c, s, a, front);
      assert (a + b)[..|a + b| - 1] == a + front;
    }
  }

  /** A message withheld for backpressure stays pending for good: however the run goes on, it is never acknowledged,
      never accepted, and never submitted a second time. The comments in the source promise redelivery;
      a reader that asks only for new messages does not provide it. */
  lemma BackpressureIsFinal(c: Config, start: real, regions: set<string>, acts: seq<Action>, more: seq<Action>,
                            r: string, i: nat)
    requires P.ValidConfig(c.pipe) && IsRun(c, Init(c, start, regions), acts)
    requires IsRun(c, Exec(c, Init(c, start, regions), acts), more)
    requires r in Exec(c, Init(c, start, regions), acts).regions
    requires i in Exec(c, Init(c, start, regions), acts).regions[r].refused
    ensures
      var t := Exec(c, Exec(c, Init(c, start, regions), acts), more);
      && r in t.regions
      && var g := t.regions[r];
         && i in g.pending && i !in g.acked && i !in g.slots
         && (forall j, k | 0 <= j < |g.attempts| && 0 <= k < |g.attempts| && g.attempts[j] == g.attempts[k] == i ::
               j == k)
  {
    RefusedGrows(c, Exec(c, Init(c, start, regions), acts), more, r);
    RunsCompose(c, Init(c, start, regions), acts, more);
    StreamProtocol(c, start, regions, acts + more, r);
  }

  /** Acknowledged means safe: in every reachable state an acknowledged message was unusable, or it is the payload at
      a position of the accepted sequence that no other message of any region shares. */
  lemma AckSafety(c: Config, start: real, regions: set<string>, acts: seq<Action>, r: string, i: nat)
    requires P.ValidConfig(c.pipe) && IsRun(c, Init(c, start, regions), acts)
    requires r in Exec(c, Init(c, start, regions), acts).regions
    requires i in Exec(c, Init(c, start, regions), acts).regions[r].acked
    ensures
      var s := Exec(c, Init(c, start, regions), acts);
      var g := s.regions[r];
      && i < |g.stream|
      && if i in g.skipped then Usable(c.translators, r, g.stream[i], g.skipped[i]) == None
         else i in g.slots && Landed(c, r, g, i, s.pipe.accepted, s.owners)
    ensures
      var s := Exec(c, Init(c, start, regions), acts);
      i in s.regions[r].slots ==>
        forall q, j | q in s.regions && j in s.regions[q].slots && (q != r || j != i) ::
          s.regions[q].slots[j].index != s.regions[r].slots[i].index
  {
    Reachable(c, start, regions, acts);
    var s := Exec(c, Init(c, start, regions), acts);
    if i in s.regions[r].slots {
      assert Landed(c, r, s.regions[r], i, s.pipe.accepted, s.owners);
      forall q, j | q in s.regions && j in s.regions[q].slots && (q != r || j != i)
        ensures s.regions[q].slots[j].index != s.regions[r].slots[i].index
      {
        assert Landed(c, q, s.regions[q], j, s.pipe.accepted, s.owners);
      }
    }
  }

  /** End to end: once Shutdown has returned, every acknowledged usable message is in the batcher's history or in the
      dead letters, and these two hold the accepted payloads with their exact multiplicities. */
  lemma AckedReachesASink(c: Config, start: real, regions: set<string>, acts: seq<Action>, r: string, i: nat)
    requires P.ValidConfig(c.pipe) && IsRun(c, Init(c, start, regions), acts)
    requires r in Exec(c, Init(c, start, regions), acts).regions
    requires i in Exec(c, Init(c, start, regions), acts).regions[r].acked
    requires i !in Exec(c, Init(c, start, regions), acts).regions[r].skipped
    requires PipelineTheorems.WaitReturns(Exec(c, Init(c, start, regions), acts).pipe)
    ensures
      var s := Exec(c, Init(c, start, regions), acts);
      var g := s.regions[r];
      && i < |g.stream| && i in g.slots && g.slots[i].index < |s.pipe.accepted|
      && var p := s.pipe.accepted[g.slots[i].index];
         && p.source == r && Usable(c.translators, r, g.stream[i], g.slots[i].stamp) == Some(p.data)
         && (p in PipelineTheorems.Delivered(s.pipe) || p in s.pipe.deadLetters)
    ensures
      var s := Exec(c, Init(c, start, regions), acts);
      multiset(s.pipe.accepted) == multiset(PipelineTheorems.Delivered(s.pipe)) + multiset(s.pipe.deadLetters)
  {
    Reachable(c, start, regions, acts);
    AckSafety(c, start, regions, acts, r, i);
    var s := Exec(c, Init(c, start, regions), acts);
    PipelineTheorems.DrainedWhenExited(c.pipe, s.pipe);
    var p := s.pipe.accepted[s.regions[r].slots[i].index];
    assert p in multiset(s.pipe.accepted);
  }
}
