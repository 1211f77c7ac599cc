/** Buffers are reused: a run in which a second handler gets the very buffer that the first one returned. */
module PooledReuse {
  import opened Outcomes
  import opened Translator
  import opened PooledIngest

  lemma Extend(translators: map<string, Inbound>, acts: seq<Action>, a: Action)
    requires IsRun(translators, acts) && Enabled(Exec(translators, acts), a)
    ensures IsRun(translators, acts + [a])
    ensures Exec(translators, acts + [a]) == Next(translators, Exec(translators, acts), a)
  {
    assert (acts + [a])[..|acts|] == acts;
  }

  /** Handler 0 alone, with the one buffer at address 1. */
  ghost predicate Alone(s: State, req: Request, pc: Pc) {
    && s.sessions == map[0 := Session(req, pc)]
    && s.mem.payloads.Keys == {1} && s.mem.pool == {} && s.mem.next == 2
    && s.mem.payloads[1].arr == 0 && 0 in s.mem.arrays && |s.mem.arrays[0]| == CAPACITY
  }

  lemma ArriveAndGet(translators: map<string, Inbound>, req: Request) returns (acts: seq<Action>)
    requires |req.body| == 1
    ensures IsRun(translators, acts)
    ensures Alone(Exec(translators, acts), req, Holds(1)) && Exec(translators, acts).mem.payloads[1].len == 0
  {
    acts := [];
    assert IsRun(translators, []);
    Extend(translators, acts, Arrive(0, req));
    acts := acts + [Arrive(0, req)];
    var backing := seq(CAPACITY, _ => ' ');
    Extend(translators, acts, GetNew(0, backing));
    acts := acts + [GetNew(0, backing)];
  }

  lemma FillSteps(translators: map<string, Inbound>, s: State, req: Request)
    requires |req.body| == 1 && Alone(s, req, Holds(1)) && s.mem.payloads[1].len == 0
    ensures Enabled(s, BeginCopy(0))
    ensures
      var t := Next(translators, s, BeginCopy(0));
      && Alone(t, req, Filling(1, 0)) && t.mem.payloads[1].len == 0 && Enabled(t, CopyOne(0))
  {
  }

  lemma CopyStep(translators: map<string, Inbound>, s: State, req: Request)
    requires |req.body| == 1 && Alone(s, req, Filling(1, 0)) && s.mem.payloads[1].len == 0 && Enabled(s, CopyOne(0))
    ensures Alone(Next(translators, s, CopyOne(0)), req, Filling(1, 1))
  {
  }

  lemma Fill(translators: map<string, Inbound>, req: Request, before: seq<Action>) returns (acts: seq<Action>)
    requires |req.body| == 1 && IsRun(translators, before)
    requires Alone(Exec(translators, before), req, Holds(1)) && Exec(translators, before).mem.payloads[1].len == 0
    ensures IsRun(translators, acts) && Alone(Exec(translators, acts), req, Filling(1, 1))
  {
    FillSteps(translators, Exec(translators, before), req);
    Extend(translators, before, BeginCopy(0));
    acts := before + [BeginCopy(0)];
    CopyStep(translators, Exec(translators, acts), req);
    Extend(translators, acts, CopyOne(0));
    acts := acts + [CopyOne(0)];
  }

  lemma TranslateStep(translators: map<string, Inbound>, s: State, req: Request) returns (pc: Pc)
    requires |req.body| == 1 && Alone(s, req, Filling(1, 1))
    ensures Enabled(s, Translate(0)) && Alone(Next(translators, s, Translate(0)), req, pc)
    ensures pc == Failed(1) || (pc.Translated? && pc.p == 1)
  {
    pc := Next(translators, s, Translate(0)).sessions[0].pc;
  }

  lemma EncodeStep(translators: map<string, Inbound>, s: State, req: Request, at: Pc) returns (pc: Pc)
    requires Alone(s, req, at) && at.Translated? && at.p == 1
    ensures Enabled(s, Encode(0)) && Alone(Next(translators, s, Encode(0)), req, pc) && pc.Encoded? && pc.p == 1
  {
    pc := Next(translators, s, Encode(0)).sessions[0].pc;
  }

  lemma Finish(translators: map<string, Inbound>, req: Request, before: seq<Action>) returns (acts: seq<Action>, pc: Pc)
    requires |req.body| == 1 && IsRun(translators, before)
    requires Alone(Exec(translators, before), req, Filling(1, 1))
    ensures IsRun(translators, acts) && Alone(Exec(translators, acts), req, pc)
    ensures (pc.Failed? || pc.Encoded?) && pc.p == 1
  {
    pc := TranslateStep(translators, Exec(translators, before), req);
    Extend(translators, before, Translate(0));
    acts := before + [Translate(0)];
    if pc.Translated? {
      var at := pc;
      pc := EncodeStep(translators, Exec(translators, acts), req, at);
      Extend(translators, acts, Encode(0));
      acts := acts + [Encode(0)];
    }
  }

  /** The first handler's buffer goes back, and the second handler arrives and gets it. */
  lemma HandOver(translators: map<string, Inbound>, s: State, req: Request, at: Pc, second: Request)
    requires Alone(s, req, at) && (at.Failed? || at.Encoded?) && at.p == 1 && second.body != ""
    ensures Enabled(s, PutBack(0))
    ensures
      var t := Next(translators, s, PutBack(0));
      && (t.sessions[0].pc.Done? || t.sessions[0].pc.Submitting?) && t.sessions[0].req == req
      && t.sessions.Keys == {0} && t.mem.pool == {1} && t.mem.payloads.Keys == {1}
  {
  }

  /** One object is ever made, and both handlers work with it, one after the other. */
  lemma BufferIsReused(translators: map<string, Inbound>, first: Request, second: Request) returns (acts: seq<Action>)
    requires |first.body| == 1 && second.body != ""
    ensures IsRun(translators, acts)
    ensures
      var s := Exec(translators, acts);
      && s.mem.payloads.Keys == {1}
      && 0 in s.sessions && s.sessions[0].req == first && (s.sessions[0].pc.Done? || s.sessions[0].pc.Submitting?)
      && 1 in s.sessions && s.sessions[1] == Session(second, Holds(1))
  {
    acts := ArriveAndGet(translators, first);
    acts := Fill(translators, first, acts);
    var pc;
    acts, pc := Finish(translators, first, acts);
    HandOver(translators, Exec(translators, acts), first, pc, second);
    Extend(translators, acts, PutBack(0));
    acts := acts + [PutBack(0)];
    Extend(translators, acts, Arrive(1, second));
    acts := acts + [Arrive(1, second)];
    Extend(translators, acts, GetPooled(1, 1));
    acts := acts + [GetPooled(1, 1)];
  }
}
