/** The whole service: HTTP handlers over pooled memory and stream readers feed one pipeline. Here the channel's answer
    to a handler is the pipeline's, and a handler that was told "accepted" owns a place in the accepted sequence. */
module Service {
  import opened Outcomes
  import opened Translator
  import H = PooledIngest
  import P = Pipeline
  import S = Stream
  import PipelineSafety
  import PipelineTheorems
  import StreamSafety

  /** `slots` and `askers` are histories: the place that each accepted handler's payload got, and the way back. */
  datatype State = State(http: H.State, stream: S.State, slots: map<nat, nat>, askers: map<nat, nat>)

  datatype Action = Http(a: H.Action) | Other(o: S.Action)

  function Init(c: S.Config, start: real, regions: set<string>): State {
    State(H.Init(), S.Init(c, start, regions), map[], map[])
  }

  /** What a handler's step does to the pipeline. */
  function OnPipe(s: State, a: H.Action): Option<P.Action>
    requires H.Enabled(s.http, a)
  {
    match a
    case Submit(h, _) =>
      var x := s.http.sessions[h];
      Some(P.Submit(P.Payload(x.req.source, x.pc.data)))
    case Count(h) => if h in s.slots then Some(P.CountIngested(s.slots[h])) else None
    case _ => None
  }

  ghost predicate AllAnswered(http: H.State) { forall h | h in http.sessions :: http.sessions[h].pc.Done? }

  /** Requests arrive and are submitted until the channel is closed, which happens only after all are answered. Payloads
      come from handlers and readers alone, and each of them counts its own. */
  ghost predicate Enabled(c: S.Config, s: State, a: Action) {
    match a
    case Http(h) =>
      && H.Enabled(s.http, h)
      && (h.Arrive? ==> !s.stream.pipe.closed)
      && (h.Submit? ==> h.accepted == P.Accepts(c.pipe, s.stream.pipe))
      && (OnPipe(s, h).Some? ==> S.Enabled(c, s.stream, S.Pipe(OnPipe(s, h).value)))
    case Other(o) =>
      && S.Enabled(c, s.stream, o)
      && (o.Pipe? ==> !o.a.Submit? && !o.a.CountIngested? && (o.a.Close? ==> AllAnswered(s.http)))
  }

  ghost function Next(c: S.Config, s: State, a: Action): State
    requires Enabled(c, s, a)
  {
    match a
    case Http(h) =>
      var step, n := OnPipe(s, h), |s.stream.pipe.accepted|;
      var stream := if step.None? then s.stream else S.Next(c, s.stream, S.Pipe(step.value));
      var t := s.(http := H.Next(c.translators, s.http, h), stream := stream);
      if h.Submit? && h.accepted then t.(slots := s.slots[h.h := n], askers := s.askers[n := h.h]) else t
    case Other(o) => s.(stream := S.Next(c, s.stream, o))
  }

  ghost predicate IsRun(c: S.Config, s: State, acts: seq<Action>)
    decreases |acts|, 0
  {
    acts != [] ==>
      && IsRun(c, s, acts[..|acts| - 1])
      && Enabled(c, Exec(c, s, acts[..|acts| - 1]), acts[|acts| - 1])
  }

  ghost function Exec(c: S.Config, s: State, acts: seq<Action>): State
    requires IsRun(c, s, acts)
    decreases |acts|, 1
  {
    if acts == [] then s else Next(c, Exec(c, s, acts[..|acts| - 1]), acts[|acts| - 1])
  }

  lemma OneStep(c: S.Config, s: State, a: Action)
    requires Enabled(c, s, a)
    ensures IsRun(c, s, [a]) && Exec(c, s, [a]) == Next(c, s, a)
  {
    assert [a][..0] == [];
    assert IsRun(c, s, []);
  }

  lemma {:induction false} RunsCompose(c: S.Config, s: State, a: seq<Action>, b: seq<Action>)
    requires IsRun(c, s, a) && IsRun(c, Exec(c, s, a), b)
    ensures IsRun(c, s, a + b) && Exec(c, s, a + b) == Exec(c, Exec(c, s, a), b)
  {
    if b == [] {
      assert a + b == a;
    } else {
      var front := b[..|b| - 1];
      RunsCompose(c, s, a, front);
      assert (a + b)[..|a + b| - 1] == a + front;
    }
  }

  // ---- Invariant ----

  /** Handler h has been told "accepted" and its place holds the payload that a fresh-buffer run would submit. */
  ghost predicate Placed(translators: map<string, Inbound>, http: H.State, k: nat, h: nat,
                         accepted: seq<P.Payload>, owners: map<nat, (string, nat)>) {
    && h in http.sessions && H.SaysAccepted(http, h) && k < |accepted| && k !in owners
    && var req := http.sessions[h].req;
       H.Fresh(translators, req).Submits? && accepted[k] == P.Payload(req.source, H.Fresh(translators, req).data)
  }

  ghost predicate Inverse(slots: map<nat, nat>, askers: map<nat, nat>) {
    && (forall h | h in slots :: slots[h] in askers && askers[slots[h]] == h)
    && (forall k | k in askers :: askers[k] in slots && slots[askers[k]] == k)
  }

  ghost predicate AllPlaced(translators: map<string, Inbound>, http: H.State, slots: map<nat, nat>,
                            accepted: seq<P.Payload>, owners: map<nat, (string, nat)>) {
    forall h | h in slots :: Placed(translators, http, slots[h], h, accepted, owners)
  }

  ghost predicate NoneMissing(http: H.State, slots: map<nat, nat>) {
    forall h | H.SaysAccepted(http, h) :: h in slots
  }

  ghost predicate Covered(n: nat, owners: map<nat, (string, nat)>, askers: map<nat, nat>) {
    forall k: nat | k < n :: k in owners || k in askers
  }

  /** Places and handlers that were told "accepted" match one to one, and every place is a handler's or a reader's. */
  ghost predicate SlotsOk(c: S.Config, s: State) {
    && Inverse(s.slots, s.askers)
    && AllPlaced(c.translators, s.http, s.slots, s.stream.pipe.accepted, s.stream.owners)
    && NoneMissing(s.http, s.slots)
    && Covered(|s.stream.pipe.accepted|, s.stream.owners, s.askers)
  }

  predicate IsCounting(http: H.State, h: nat) { h in http.sessions && http.sessions[h].pc.Counting? }

  ghost predicate PlacesDue(http: H.State, stream: S.State, askers: map<nat, nat>) {
    forall k | k in stream.pipe.uncounted && k !in stream.owners :: k in askers && IsCounting(http, askers[k])
  }

  ghost predicate HandlersDue(http: H.State, slots: map<nat, nat>, uncounted: set<nat>) {
    forall h | IsCounting(http, h) :: h in slots && slots[h] in uncounted
  }

  /** A handler's place that is not counted belongs to a handler about to count it, and conversely. */
  ghost predicate DueOk(s: State) {
    PlacesDue(s.http, s.stream, s.askers) && HandlersDue(s.http, s.slots, s.stream.pipe.uncounted)
  }

  ghost predicate Inv(c: S.Config, s: State) {
    && H.Inv(c.translators, s.http)
    && StreamSafety.Inv(c, s.stream)
    && StreamSafety.OwnersDue(s.stream)
    && SlotsOk(c, s) && DueOk(s)
    && (s.stream.pipe.closed ==> AllAnswered(s.http))
  }

  // ---- Steps ----

  /** What a step of the stream system other than a handler's changes for the handlers. */
  ghost predicate Grows(s: S.State, t: S.State) {
    && s.pipe.accepted <= t.pipe.accepted
    && (forall k | k in s.owners :: k in t.owners)
    && (forall k | k in t.owners && k !in s.owners :: |s.pipe.accepted| <= k)
    && (forall k: nat | |s.pipe.accepted| <= k < |t.pipe.accepted| :: k in t.owners)
    && (forall k | k !in t.owners :: k in t.pipe.uncounted <==> k in s.pipe.uncounted)
  }

  lemma PipeGrows(c: S.Config, s: S.State, a: P.Action)
    requires S.Enabled(c, s, S.Pipe(a)) && !a.Submit? && !a.CountIngested?
    ensures Grows(s, S.Next(c, s, S.Pipe(a)))
  {
  }

  lemma AcceptGrows(c: S.Config, s: S.State, t: S.State, p: P.Payload, owner: (string, nat))
    requires t.pipe.accepted == s.pipe.accepted + [p] && t.pipe.uncounted == s.pipe.uncounted + {|s.pipe.accepted|}
    requires t.owners == s.owners[|s.pipe.accepted| := owner]
    ensures Grows(s, t)
  {
  }

  lemma HandleGrows(c: S.Config, s: S.State, r: string, stamp: Stamp)
    requires r in s.regions && S.CanMove(c, s, s.regions[r], S.Handle(stamp))
    ensures Grows(s, S.Handled(c, s, r, stamp))
  {
    var usable := S.Usable(c.translators, r, S.MessageAt(s.regions[r], s.regions[r].pc.next), stamp);
    if usable.Some? && P.Accepts(c.pipe, s.pipe) {
      AcceptGrows(c, s, S.Handled(c, s, r, stamp), P.Payload(r, usable.value), (r, s.regions[r].pc.next));
    }
  }

  lemma CountGrows(c: S.Config, s: S.State, r: string)
    requires StreamSafety.Inv(c, s) && S.Enabled(c, s, S.Step(r, S.Count))
    ensures Grows(s, S.Next(c, s, S.Step(r, S.Count)))
  {
    StreamSafety.CountDueOwned(c, r, s.regions[r], s.pipe.accepted, s.owners);
  }

  lemma StreamGrows(c: S.Config, s: S.State, o: S.Action)
    requires StreamSafety.Inv(c, s) && S.Enabled(c, s, o) && (o.Pipe? ==> !o.a.Submit? && !o.a.CountIngested?)
    ensures Grows(s, S.Next(c, s, o))
  {
    match o
    case Pipe(a) => PipeGrows(c, s, a);
    case Step(r, m) =>
      if m.Handle? {
        HandleGrows(c, s, r, m.stamp);
      } else if m.Count? {
        CountGrows(c, s, r);
      }
    case _ =>
  }

  /** Steps of readers and workers leave the handlers' places alone. */
  lemma OtherSlots(c: S.Config, s: State, stream: S.State)
    requires SlotsOk(c, s) && DueOk(s) && Grows(s.stream, stream)
    ensures SlotsOk(c, s.(stream := stream)) && DueOk(s.(stream := stream))
  {
    OtherPlaces(c, s, stream);
    OtherDue(c, s, stream);
  }

  lemma OtherPlaces(c: S.Config, s: State, stream: S.State)
    requires SlotsOk(c, s) && Grows(s.stream, stream)
    ensures SlotsOk(c, s.(stream := stream))
  {
    forall h | h in s.slots
      ensures Placed(c.translators, s.http, s.slots[h], h, stream.pipe.accepted, stream.owners)
    {
      assert Placed(c.translators, s.http, s.slots[h], h, s.stream.pipe.accepted, s.stream.owners);
    }
  }

  lemma OtherDue(c: S.Config, s: State, stream: S.State)
    requires SlotsOk(c, s) && DueOk(s) && Grows(s.stream, stream)
    ensures DueOk(s.(stream := stream))
  {
    forall h | h in s.http.sessions && s.http.sessions[h].pc.Counting?
      ensures s.slots[h] in stream.pipe.uncounted
    {
      assert Placed(c.translators, s.http, s.slots[h], h, s.stream.pipe.accepted, s.stream.owners);
    }
  }

  lemma OtherStep(c: S.Config, s: State, o: S.Action)
    requires P.ValidConfig(c.pipe) && Inv(c, s) && Enabled(c, s, Other(o))
    ensures Inv(c, Next(c, s, Other(o)))
  {
    StreamGrows(c, s.stream, o);
    StreamSafety.StepKeepsInv(c, s.stream, o);
    StreamSafety.OwnersStayDue(c, s.stream, o);
    OtherSlots(c, s, S.Next(c, s.stream, o));
    ClosedStays(c, s.stream, o);
  }

  lemma ClosedStays(c: S.Config, s: S.State, o: S.Action)
    requires S.Enabled(c, s, o)
    ensures S.Next(c, s, o).pipe.closed <==> s.pipe.closed || o == S.Pipe(P.Close)
  {
    StreamSafety.NextPipe(c, s, o);
    if StreamSafety.OnPipe(c, s, o).Some? {
      ChannelCloses(c.pipe, s.pipe, StreamSafety.OnPipe(c, s, o).value);
    }
  }

  lemma ChannelCloses(c: P.Config, s: P.State, a: P.Action)
    requires P.Enabled(c, s, a)
    ensures P.Next(c, s, a).closed <==> s.closed || a == P.Close
  {
  }

  /** The requests are the same, and so are the handlers that have been told "accepted". */
  ghost predicate SameAccepted(http: H.State, http': H.State) {
    && (forall h | h in http.sessions :: h in http'.sessions && http'.sessions[h].req == http.sessions[h].req)
    && (forall h :: H.SaysAccepted(http', h) <==> H.SaysAccepted(http, h))
  }

  ghost predicate SameCounting(http: H.State, http': H.State) {
    forall h :: IsCounting(http', h) <==> IsCounting(http, h)
  }

  /** A handler's step that neither submits nor counts changes nobody's standing. */
  lemma PlainStanding(translators: map<string, Inbound>, s: H.State, a: H.Action)
    requires H.Enabled(s, a) && !a.Count? && (a.Submit? ==> !a.accepted)
    ensures SameAccepted(s, H.Next(translators, s, a)) && SameCounting(s, H.Next(translators, s, a))
  {
    var t := H.Next(translators, s, a);
    if !a.Evict? {
      OneStanding(s, t, a.h);
    }
  }

  lemma OneStanding(s: H.State, t: H.State, h: nat)
    requires h in t.sessions && t.sessions == s.sessions[h := t.sessions[h]]
    requires h in s.sessions ==> t.sessions[h].req == s.sessions[h].req
    requires H.SaysAccepted(t, h) <==> H.SaysAccepted(s, h)
    requires IsCounting(t, h) <==> IsCounting(s, h)
    ensures SameAccepted(s, t) && SameCounting(s, t)
  {
  }

  lemma PlacesKept(c: S.Config, s: State, http: H.State, stream: S.State)
    requires SlotsOk(c, s) && SameAccepted(s.http, http)
    requires stream.owners == s.stream.owners && stream.pipe.accepted == s.stream.pipe.accepted
    ensures SlotsOk(c, s.(http := http, stream := stream))
  {
    forall h | h in s.slots
      ensures Placed(c.translators, http, s.slots[h], h, stream.pipe.accepted, stream.owners)
    {
      assert Placed(c.translators, s.http, s.slots[h], h, s.stream.pipe.accepted, s.stream.owners);
    }
  }

  lemma DueKept(s: State, http: H.State)
    requires DueOk(s) && SameCounting(s.http, http)
    ensures DueOk(s.(http := http))
  {
    forall h | h in http.sessions && http.sessions[h].pc.Counting?
      ensures h in s.slots && s.slots[h] in s.stream.pipe.uncounted
    {
      assert IsCounting(http, h) && IsCounting(s.http, h);
    }
    forall k | k in s.stream.pipe.uncounted && k !in s.stream.owners
      ensures IsCounting(http, s.askers[k])
    {
      assert IsCounting(s.http, s.askers[k]);
    }
  }

  /** Handler h's session is the only one that differs, and it now says "accepted". */
  ghost predicate BecameAccepted(http: H.State, http': H.State, h: nat) {
    && h in http.sessions && h in http'.sessions && http.sessions[h].pc.Submitting? && http'.sessions[h].pc.Counting?
    && http'.sessions == http.sessions[h := http'.sessions[h]] && http'.sessions[h].req == http.sessions[h].req
  }

  lemma OldPlaces(translators: map<string, Inbound>, http: H.State, http': H.State, h: nat, slots: map<nat, nat>,
                  before: seq<P.Payload>, after: seq<P.Payload>, owners: map<nat, (string, nat)>)
    requires AllPlaced(translators, http, slots, before, owners) && BecameAccepted(http, http', h) && before <= after
    ensures AllPlaced(translators, http', slots, after, owners)
  {
    forall g | g in slots
      ensures Placed(translators, http', slots[g], g, after, owners)
    {
      assert Placed(translators, http, slots[g], g, before, owners);
    }
  }

  lemma NewPlace(translators: map<string, Inbound>, s: State, h: nat, http: H.State, accepted: seq<P.Payload>)
    requires BecameAccepted(s.http, http, h) && StreamSafety.OwnersDue(s.stream)
    requires H.Fresh(translators, s.http.sessions[h].req) ==
             H.Submits(s.http.sessions[h].pc.id, s.http.sessions[h].pc.data)
    requires accepted ==
             s.stream.pipe.accepted + [P.Payload(s.http.sessions[h].req.source, s.http.sessions[h].pc.data)]
    ensures Placed(translators, http, |s.stream.pipe.accepted|, h, accepted, s.stream.owners)
  {
  }

  lemma InverseGrows(slots: map<nat, nat>, askers: map<nat, nat>, h: nat, k: nat)
    requires Inverse(slots, askers) && h !in slots && k !in askers
    ensures Inverse(slots[h := k], askers[k := h])
  {
  }

  lemma CoveredGrows(n: nat, owners: map<nat, (string, nat)>, askers: map<nat, nat>, h: nat)
    requires Covered(n, owners, askers)
    ensures Covered(n + 1, owners, askers[n := h])
  {
  }

  lemma PlacedGrows(translators: map<string, Inbound>, http: H.State, slots: map<nat, nat>, h: nat, k: nat,
                    accepted: seq<P.Payload>, owners: map<nat, (string, nat)>)
    requires AllPlaced(translators, http, slots, accepted, owners) && Placed(translators, http, k, h, accepted, owners)
    ensures AllPlaced(translators, http, slots[h := k], accepted, owners)
  {
  }

  lemma NoneMissingGrows(http: H.State, http': H.State, slots: map<nat, nat>, h: nat, k: nat)
    requires NoneMissing(http, slots) && BecameAccepted(http, http', h)
    ensures NoneMissing(http', slots[h := k])
  {
    forall g | H.SaysAccepted(http', g)
      ensures g in slots[h := k]
    {
      if g != h {
        assert H.SaysAccepted(http, g);
      }
    }
  }

  /** The channel has taken handler h's payload at place n: the place is h's, the others are as before. */
  lemma AcceptedPlaces(c: S.Config, s: State, h: nat, http: H.State, stream: S.State)
    requires SlotsOk(c, s) && BecameAccepted(s.http, http, h) && stream.owners == s.stream.owners
    requires s.stream.pipe.accepted <= stream.pipe.accepted
    requires |stream.pipe.accepted| == |s.stream.pipe.accepted| + 1
    requires Placed(c.translators, http, |s.stream.pipe.accepted|, h, stream.pipe.accepted, stream.owners)
    ensures
      var n := |s.stream.pipe.accepted|;
      SlotsOk(c, State(http, stream, s.slots[h := n], s.askers[n := h]))
  {
    var n := |s.stream.pipe.accepted|;
    NoPlaceYet(c, s, h);
    InverseGrows(s.slots, s.askers, h, n);
    CoveredGrows(n, stream.owners, s.askers, h);
    NoneMissingGrows(s.http, http, s.slots, h, n);
    OldPlaces(c.translators, s.http, http, h, s.slots, s.stream.pipe.accepted, stream.pipe.accepted, stream.owners);
    PlacedGrows(c.translators, http, s.slots, h, n, stream.pipe.accepted, stream.owners);
  }

  lemma NoPlaceYet(c: S.Config, s: State, h: nat)
    requires SlotsOk(c, s) && h in s.http.sessions && s.http.sessions[h].pc.Submitting?
    ensures h !in s.slots
    ensures |s.stream.pipe.accepted| !in s.askers
  {
    assert forall g | g in s.slots ::
        Placed(c.translators, s.http, s.slots[g], g, s.stream.pipe.accepted, s.stream.owners);
    assert forall k | k in s.askers :: s.slots[s.askers[k]] < |s.stream.pipe.accepted|;
  }

  lemma AcceptedDue(s: State, h: nat, http: H.State, stream: S.State)
    requires DueOk(s) && h in http.sessions && h !in s.slots && |s.stream.pipe.accepted| !in s.askers
    requires http.sessions == s.http.sessions[h := http.sessions[h]] && http.sessions[h].pc.Counting?
    requires stream.owners == s.stream.owners
    requires stream.pipe.uncounted == s.stream.pipe.uncounted + {|s.stream.pipe.accepted|}
    ensures
      var n := |s.stream.pipe.accepted|;
      DueOk(State(http, stream, s.slots[h := n], s.askers[n := h]))
  {
  }

  /** Handler h has counted its payload. */
  lemma CountedDue(s: State, h: nat, http: H.State, stream: S.State)
    requires Inverse(s.slots, s.askers) && DueOk(s) && h in http.sessions && h in s.slots
    requires http.sessions == s.http.sessions[h := http.sessions[h]] && !http.sessions[h].pc.Counting?
    requires stream.owners == s.stream.owners && stream.pipe.uncounted == s.stream.pipe.uncounted - {s.slots[h]}
    ensures DueOk(s.(http := http, stream := stream))
  {
    forall k | k in stream.pipe.uncounted && k !in stream.owners
      ensures k in s.askers && IsCounting(http, s.askers[k])
    {
      assert IsCounting(s.http, s.askers[k]) && s.slots[s.askers[k]] == k;
    }
    forall g | IsCounting(http, g)
      ensures g in s.slots && s.slots[g] in stream.pipe.uncounted
    {
      assert IsCounting(s.http, g) && s.askers[s.slots[g]] == g;
    }
  }

  lemma SubmitSlots(c: S.Config, s: State, h: nat)
    requires Inv(c, s) && Enabled(c, s, Http(H.Submit(h, true)))
    ensures
      var t := Next(c, s, Http(H.Submit(h, true)));
      SlotsOk(c, t) && DueOk(t)
  {
    var a := H.Submit(h, true);
    var http, stream := H.Next(c.translators, s.http, a), S.Next(c, s.stream, S.Pipe(OnPipe(s, a).value));
    H.SubmittedAgrees(c.translators, s.http, h);
    NoPlaceYet(c, s, h);
    NewPlace(c.translators, s, h, http, stream.pipe.accepted);
    AcceptedPlaces(c, s, h, http, stream);
    AcceptedDue(s, h, http, stream);
  }

  /** What counting does, in the pipeline and in the handler. */
  lemma CountFacts(c: S.Config, s: State, h: nat)
    requires DueOk(s) && Enabled(c, s, Http(H.Count(h)))
    ensures h in s.slots
    ensures
      var t := Next(c, s, Http(H.Count(h)));
      && t == s.(http := t.http, stream := t.stream)
      && SameAccepted(s.http, t.http) && h in t.http.sessions && !t.http.sessions[h].pc.Counting?
      && t.http.sessions == s.http.sessions[h := t.http.sessions[h]]
      && t.stream.owners == s.stream.owners && t.stream.pipe.accepted == s.stream.pipe.accepted
      && t.stream.pipe.uncounted == s.stream.pipe.uncounted - {s.slots[h]}
  {
    assert IsCounting(s.http, h);
    assert OnPipe(s, H.Count(h)) == Some(P.CountIngested(s.slots[h]));
    CountInHandler(c.translators, s.http, h);
    CountOnPipe(c, s.stream, s.slots[h]);
  }

  lemma CountInHandler(translators: map<string, Inbound>, s: H.State, h: nat)
    requires H.Enabled(s, H.Count(h))
    ensures
      var t := H.Next(translators, s, H.Count(h));
      && SameAccepted(s, t) && h in t.sessions && !t.sessions[h].pc.Counting?
      && t.sessions == s.sessions[h := t.sessions[h]]
  {
  }

  lemma CountOnPipe(c: S.Config, s: S.State, k: nat)
    requires S.Enabled(c, s, S.Pipe(P.CountIngested(k)))
    ensures
      var t := S.Next(c, s, S.Pipe(P.CountIngested(k)));
      && t.owners == s.owners && t.pipe.accepted == s.pipe.accepted && t.pipe.uncounted == s.pipe.uncounted - {k}
  {
  }

  lemma CountSlots(c: S.Config, s: State, h: nat)
    requires SlotsOk(c, s) && DueOk(s) && Enabled(c, s, Http(H.Count(h)))
    ensures
      var t := Next(c, s, Http(H.Count(h)));
      SlotsOk(c, t) && DueOk(t)
  {
    var t := Next(c, s, Http(H.Count(h)));
    CountFacts(c, s, h);
    PlacesKept(c, s, t.http, t.stream);
    CountedDue(s, h, t.http, t.stream);
  }

  lemma RefusedSlots(c: S.Config, s: State, h: nat)
    requires SlotsOk(c, s) && DueOk(s) && Enabled(c, s, Http(H.Submit(h, false)))
    ensures
      var t := Next(c, s, Http(H.Submit(h, false)));
      SlotsOk(c, t) && DueOk(t)
  {
    var a := H.Submit(h, false);
    PlainStanding(c.translators, s.http, a);
    assert S.Next(c, s.stream, S.Pipe(OnPipe(s, a).value)) == s.stream;
    PlacesKept(c, s, H.Next(c.translators, s.http, a), s.stream);
    DueKept(s, H.Next(c.translators, s.http, a));
  }

  lemma PlainSlots(c: S.Config, s: State, a: H.Action)
    requires SlotsOk(c, s) && DueOk(s) && Enabled(c, s, Http(a)) && !a.Submit? && !a.Count?
    ensures SlotsOk(c, Next(c, s, Http(a))) && DueOk(Next(c, s, Http(a)))
  {
    PlainStanding(c.translators, s.http, a);
    PlacesKept(c, s, H.Next(c.translators, s.http, a), s.stream);
    DueKept(s, H.Next(c.translators, s.http, a));
  }

  lemma HttpSlots(c: S.Config, s: State, a: H.Action)
    requires Inv(c, s) && Enabled(c, s, Http(a))
    ensures SlotsOk(c, Next(c, s, Http(a))) && DueOk(Next(c, s, Http(a)))
  {
    match a
    case Submit(h, accepted) =>
      if accepted {
        SubmitSlots(c, s, h);
      } else {
        RefusedSlots(c, s, h);
      }
    case Count(h) => CountSlots(c, s, h);
    case _ => PlainSlots(c, s, a);
  }

  lemma AnsweredStays(translators: map<string, Inbound>, s: H.State, a: H.Action)
    requires H.Enabled(s, a) && AllAnswered(s) && !a.Arrive?
    ensures AllAnswered(H.Next(translators, s, a))
  {
  }

  lemma PipeStep(c: S.Config, s: S.State, a: P.Action)
    requires P.ValidConfig(c.pipe) && StreamSafety.Inv(c, s) && StreamSafety.OwnersDue(s) && S.Enabled(c, s, S.Pipe(a))
    ensures
      var t := S.Next(c, s, S.Pipe(a));
      StreamSafety.Inv(c, t) && StreamSafety.OwnersDue(t) && (t.pipe.closed <==> s.pipe.closed || a == P.Close)
  {
    StreamSafety.StepKeepsInv(c, s, S.Pipe(a));
    StreamSafety.OwnersStayDue(c, s, S.Pipe(a));
    ClosedStays(c, s, S.Pipe(a));
  }

  lemma HttpOnPipe(c: S.Config, s: State, a: H.Action)
    requires P.ValidConfig(c.pipe) && StreamSafety.Inv(c, s.stream) && StreamSafety.OwnersDue(s.stream)
    requires Enabled(c, s, Http(a))
    ensures
      var t := Next(c, s, Http(a));
      && t.http == H.Next(c.translators, s.http, a)
      && StreamSafety.Inv(c, t.stream) && StreamSafety.OwnersDue(t.stream)
      && (t.stream.pipe.closed <==> s.stream.pipe.closed)
  {
    var step := OnPipe(s, a);
    if step.Some? {
      PipeStep(c, s.stream, step.value);
    }
  }

  lemma HttpStep(c: S.Config, s: State, a: H.Action)
    requires P.ValidConfig(c.pipe) && Inv(c, s) && Enabled(c, s, Http(a))
    ensures Inv(c, Next(c, s, Http(a)))
  {
    H.StepKeepsInv(c.translators, s.http, a);
    HttpOnPipe(c, s, a);
    HttpSlots(c, s, a);
    if s.stream.pipe.closed {
      AnsweredStays(c.translators, s.http, a);
    }
  }

  lemma InvInit(c: S.Config, start: real, regions: set<string>)
    requires P.ValidConfig(c.pipe)
    ensures Inv(c, Init(c, start, regions))
  {
    StreamSafety.Reachable(c, start, regions, []);
  }

  lemma {:induction false} Reachable(c: S.Config, start: real, regions: set<string>, acts: seq<Action>)
    requires P.ValidConfig(c.pipe) && IsRun(c, Init(c, start, regions), acts)
    ensures Inv(c, Exec(c, Init(c, start, regions), acts))
  {
    if acts == [] {
      InvInit(c, start, regions);
    } else {
      var front, a := acts[..|acts| - 1], acts[|acts| - 1];
      Reachable(c, start, regions, front);
      var s := Exec(c, Init(c, start, regions), front);
      match a
      case Http(h) => HttpStep(c, s, h);
      case Other(o) => OtherStep(c, s, o);
    }
  }

  // ---- Results ----

  /** A handler that is about to count can do so: it never waits. */
  lemma CountEnabled(c: S.Config, s: State, h: nat)
    requires SlotsOk(c, s) && DueOk(s) && IsCounting(s.http, h)
    ensures Enabled(c, s, Http(H.Count(h)))
  {
    MayCount(c, s, h);
    MayCountOnPipe(c, s.stream, s.slots[h]);
    assert H.Enabled(s.http, H.Count(h));
    assert OnPipe(s, H.Count(h)) == Some(P.CountIngested(s.slots[h]));
  }

  lemma MayCountOnPipe(c: S.Config, s: S.State, k: nat)
    requires k in s.pipe.uncounted && k !in s.owners
    ensures S.Enabled(c, s, S.Pipe(P.CountIngested(k)))
  {
  }

  lemma MayCount(c: S.Config, s: State, h: nat)
    requires SlotsOk(c, s) && DueOk(s) && IsCounting(s.http, h)
    ensures h in s.slots && s.slots[h] in s.stream.pipe.uncounted && s.slots[h] !in s.stream.owners
  {
    assert Placed(c.translators, s.http, s.slots[h], h, s.stream.pipe.accepted, s.stream.owners);
  }

  /** In every reachable state, the accepted sequence is shared out: a handler that has been told "accepted" has exactly
      one place in it, holding what a fresh-buffer run of its request would submit under its source; no other handler
      and no stream message has that place; and a place without a handler is a stream message's. */
  lemma {:induction false} EveryPlaceHasItsOwner(c: S.Config, start: real, regions: set<string>, acts: seq<Action>)
    requires P.ValidConfig(c.pipe) && IsRun(c, Init(c, start, regions), acts)
    ensures
      var s := Exec(c, Init(c, start, regions), acts);
      var accepted := s.stream.pipe.accepted;
      && (forall h :: H.SaysAccepted(s.http, h) <==> h in s.slots)
      && (forall h | h in s.slots :: Placed(c.translators, s.http, s.slots[h], h, accepted, s.stream.owners))
      && (forall g, h | g in s.slots && h in s.slots && g != h :: s.slots[g] != s.slots[h])
      && (forall k: nat | k < |accepted| :: k in s.stream.owners || exists h :: h in s.slots && s.slots[h] == k)
  {
    Reachable(c, start, regions, acts);
    var s := Exec(c, Init(c, start, regions), acts);
    forall k: nat | k < |s.stream.pipe.accepted| && k !in s.stream.owners
      ensures exists h :: h in s.slots && s.slots[h] == k
    {
      assert s.askers[k] in s.slots;
    }
    forall h | h in s.slots
      ensures H.SaysAccepted(s.http, h)
    {
      assert Placed(c.translators, s.http, s.slots[h], h, s.stream.pipe.accepted, s.stream.owners);
    }
  }

  lemma AnsweredPlaced(c: S.Config, s: State, h: nat)
    requires H.Inv(c.translators, s.http) && SlotsOk(c, s)
    requires h in s.http.sessions && s.http.sessions[h].pc.Done? && s.http.sessions[h].pc.status.Accepted?
    ensures
      var x := s.http.sessions[h];
      var ref := H.Fresh(c.translators, x.req);
      && ref.Submits? && ref.id == x.pc.status.id && h in s.slots && s.slots[h] < |s.stream.pipe.accepted|
      && s.stream.pipe.accepted[s.slots[h]] == P.Payload(x.req.source, ref.data)
  {
    assert H.SaysAccepted(s.http, h);
    assert Placed(c.translators, s.http, s.slots[h], h, s.stream.pipe.accepted, s.stream.owners);
    assert H.Agrees(c.translators, s.http.mem, s.http.sessions[h]);
  }

  lemma InOneSink(c: P.Config, s: P.State, k: nat)
    requires P.ValidConfig(c) && PipelineSafety.Inv(c, s) && PipelineTheorems.WaitReturns(s) && k < |s.accepted|
    ensures s.accepted[k] in PipelineTheorems.Delivered(s) || s.accepted[k] in s.deadLetters
  {
    PipelineTheorems.DrainedWhenExited(c, s);
    assert s.accepted[k] in multiset(s.accepted);
  }

  /** After Shutdown, the payload behind every "202 Accepted" is in the batcher's history or in the dead letters, under
      the request's source, with the event that carries the identifier in the answer. */
  lemma {:induction false} AnsweredReachesASink(c: S.Config, start: real, regions: set<string>, acts: seq<Action>,
                                                h: nat)
    requires P.ValidConfig(c.pipe) && IsRun(c, Init(c, start, regions), acts)
    requires PipelineTheorems.WaitReturns(Exec(c, Init(c, start, regions), acts).stream.pipe)
    requires
      var http := Exec(c, Init(c, start, regions), acts).http;
      h in http.sessions && http.sessions[h].pc.Done? && http.sessions[h].pc.status.Accepted?
    ensures
      var s := Exec(c, Init(c, start, regions), acts);
      var x := s.http.sessions[h];
      var ref := H.Fresh(c.translators, x.req);
      && ref.Submits? && ref.id == x.pc.status.id
      && H.EncodesEvent(ref.data, ref.id)
      && var p := P.Payload(x.req.source, ref.data);
         p in PipelineTheorems.Delivered(s.stream.pipe) || p in s.stream.pipe.deadLetters
  {
    Reachable(c, start, regions, acts);
    var s := Exec(c, Init(c, start, regions), acts);
    AnsweredPlaced(c, s, h);
    H.SubmitsUnderItsIdentifier(c.translators, s.http.sessions[h].req);
    InOneSink(c.pipe, s.stream.pipe, s.slots[h]);
  }

  lemma NothingUncounted(s: State)
    requires DueOk(s) && StreamSafety.OwnersDue(s.stream)
    requires AllAnswered(s.http) && StreamSafety.AllStopped(s.stream.regions)
    ensures s.stream.pipe.uncounted == {}
  {
    assert forall k | k in s.stream.pipe.uncounted && k in s.stream.owners ::
        StreamSafety.OwnerDue(s.stream.regions, s.stream.owners, k);
  }

  /** After Shutdown every counter has caught up: ingested = accepted = delivered + dead letters, and the dead letters
      are as many as were counted, which are the rejections and the panics. */
  lemma {:induction false} CountersSettle(c: S.Config, start: real, regions: set<string>, acts: seq<Action>)
    requires P.ValidConfig(c.pipe) && IsRun(c, Init(c, start, regions), acts)
    requires PipelineTheorems.WaitReturns(Exec(c, Init(c, start, regions), acts).stream.pipe)
    ensures
      var pipe := Exec(c, Init(c, start, regions), acts).stream.pipe;
      && pipe.counters.ingested == |pipe.accepted| == |PipelineTheorems.Delivered(pipe)| + |pipe.deadLetters|
      && pipe.counters.enqueued == |pipe.deadLetters| == pipe.counters.rejected + pipe.counters.panics
  {
    Reachable(c, start, regions, acts);
    var s := Exec(c, Init(c, start, regions), acts);
    PipelineTheorems.DrainedWhenExited(c.pipe, s.stream.pipe);
    NothingUncounted(s);
    PipelineSafety.RestingWorkers(s.stream.pipe.workers);
    PipelineTheorems.AtRestSplit(c.pipe, s.stream.pipe);
    PipelineTheorems.Sizes(s.stream.pipe.accepted, s.stream.pipe.queue, PipelineTheorems.Delivered(s.stream.pipe),
                           s.stream.pipe.deadLetters);
  }
}
