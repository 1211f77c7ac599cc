/** Every run of readers and workers contains a run of the pipeline alone, and every run of the service a run of readers
    and workers; so what holds of all runs of the smaller systems holds in the larger ones. */
module Projection {
  import opened Outcomes
  import H = PooledIngest
  import P = Pipeline
  import S = Stream
  import Service
  import StreamSafety

  function AsSeq<T>(o: Option<T>): seq<T> { match o case None => [] case Some(x) => [x] }

  // ---- Readers and workers ----

  /** The steps of the pipeline in a run of readers and workers. */
  ghost function PipeSteps(c: S.Config, s: S.State, acts: seq<S.Action>): seq<P.Action>
    requires S.IsRun(c, s, acts)
  {
    if acts == [] then []
    else
      var front := acts[..|acts| - 1];
      PipeSteps(c, s, front) + AsSeq(StreamSafety.OnPipe(c, S.Exec(c, s, front), acts[|acts| - 1]))
  }

  lemma {:induction false} StreamProjects(c: S.Config, s: S.State, acts: seq<S.Action>)
    requires S.IsRun(c, s, acts)
    ensures P.IsRun(c.pipe, s.pipe, PipeSteps(c, s, acts))
    ensures P.Exec(c.pipe, s.pipe, PipeSteps(c, s, acts)) == S.Exec(c, s, acts).pipe
  {
    if acts != [] {
      var front, a := acts[..|acts| - 1], acts[|acts| - 1];
      StreamProjects(c, s, front);
      var mid := S.Exec(c, s, front);
      StreamSafety.NextPipe(c, mid, a);
      var step := StreamSafety.OnPipe(c, mid, a);
      if step.Some? {
        P.Extend(c.pipe, s.pipe, PipeSteps(c, s, front), step.value);
      } else {
        assert PipeSteps(c, s, front) + [] == PipeSteps(c, s, front);
      }
    }
  }

  /** Nobody but the environment flushes from outside. */
  lemma {:induction false} StreamFlushes(c: S.Config, s: S.State, acts: seq<S.Action>)
    requires S.IsRun(c, s, acts) && S.Pipe(P.ExternalFlush) !in acts
    ensures P.ExternalFlush !in PipeSteps(c, s, acts)
  {
    if acts != [] {
      var front, a := acts[..|acts| - 1], acts[|acts| - 1];
      assert a in acts;
      StreamFlushes(c, s, front);
    }
  }

  // ---- The service ----

  /** What a step of the service does to readers and workers: nothing, or one step of theirs. */
  ghost function OnStream(s: Service.State, a: Service.Action): Option<S.Action>
    requires a.Http? ==> H.Enabled(s.http, a.a)
  {
    match a
    case Other(o) => Some(o)
    case Http(h) => if Service.OnPipe(s, h).Some? then Some(S.Pipe(Service.OnPipe(s, h).value)) else None
  }

  ghost function StreamSteps(c: S.Config, s: Service.State, acts: seq<Service.Action>): seq<S.Action>
    requires Service.IsRun(c, s, acts)
  {
    if acts == [] then []
    else
      var front := acts[..|acts| - 1];
      StreamSteps(c, s, front) + AsSeq(OnStream(Service.Exec(c, s, front), acts[|acts| - 1]))
  }

  lemma NextStream(c: S.Config, s: Service.State, a: Service.Action)
    requires Service.Enabled(c, s, a)
    ensures
      var step, stream := OnStream(s, a), Service.Next(c, s, a).stream;
      if step.Some? then S.Enabled(c, s.stream, step.value) && stream == S.Next(c, s.stream, step.value)
      else stream == s.stream
  {
  }

  lemma Extend(c: S.Config, s: S.State, acts: seq<S.Action>, a: S.Action)
    requires S.IsRun(c, s, acts) && S.Enabled(c, S.Exec(c, s, acts), a)
    ensures S.IsRun(c, s, acts + [a]) && S.Exec(c, s, acts + [a]) == S.Next(c, S.Exec(c, s, acts), a)
  {
    assert (acts + [a])[..|acts|] == acts;
  }

  lemma {:induction false} ServiceProjects(c: S.Config, s: Service.State, acts: seq<Service.Action>)
    requires Service.IsRun(c, s, acts)
    ensures S.IsRun(c, s.stream, StreamSteps(c, s, acts))
    ensures S.Exec(c, s.stream, StreamSteps(c, s, acts)) == Service.Exec(c, s, acts).stream
  {
    if acts != [] {
      var front, a := acts[..|acts| - 1], acts[|acts| - 1];
      ServiceProjects(c, s, front);
      var mid := Service.Exec(c, s, front);
      NextStream(c, mid, a);
      var step := OnStream(mid, a);
      if step.Some? {
        Extend(c, s.stream, StreamSteps(c, s, front), step.value);
      } else {
        assert StreamSteps(c, s, front) + [] == StreamSteps(c, s, front);
      }
    }
  }

  lemma {:induction false} ServiceFlushes(c: S.Config, s: Service.State, acts: seq<Service.Action>)
    requires Service.IsRun(c, s, acts) && Service.Other(S.Pipe(P.ExternalFlush)) !in acts
    ensures S.Pipe(P.ExternalFlush) !in StreamSteps(c, s, acts)
  {
    if acts != [] {
      var front, a := acts[..|acts| - 1], acts[|acts| - 1];
      assert a in acts;
      ServiceFlushes(c, s, front);
    }
  }

  /** The pipeline's steps in a run of the service. */
  ghost function ServicePipeSteps(c: S.Config, start: real, regions: set<string>, acts: seq<Service.Action>)
    : (steps: seq<P.Action>)
    requires Service.IsRun(c, Service.Init(c, start, regions), acts)
  {
    ServiceProjects(c, Service.Init(c, start, regions), acts);
    PipeSteps(c, S.Init(c, start, regions), StreamSteps(c, Service.Init(c, start, regions), acts))
  }

  lemma ServiceRunsPipeline(c: S.Config, start: real, regions: set<string>, acts: seq<Service.Action>)
    requires Service.IsRun(c, Service.Init(c, start, regions), acts)
    ensures
      var steps := ServicePipeSteps(c, start, regions, acts);
      && P.IsRun(c.pipe, P.Init(c.pipe, start), steps)
      && P.Exec(c.pipe, P.Init(c.pipe, start), steps) ==
         Service.Exec(c, Service.Init(c, start, regions), acts).stream.pipe
      && (Service.Other(S.Pipe(P.ExternalFlush)) !in acts ==> P.ExternalFlush !in steps)
  {
    var s := Service.Init(c, start, regions);
    ServiceProjects(c, s, acts);
    StreamProjects(c, s.stream, StreamSteps(c, s, acts));
    if Service.Other(S.Pipe(P.ExternalFlush)) !in acts {
      ServiceFlushes(c, s, acts);
      StreamFlushes(c, s.stream, StreamSteps(c, s, acts));
    }
  }
}
