/** One region's reader as its own goroutine runs it, over the dispatcher object: the body of the batch loop. */
module StreamReader {
  import opened Translator
  import Stream
  import Pipeline
  import Dispatching

  /** The payloads of the messages that were acknowledged and usable, in stream order. */
  function Submitted(translators: map<string, Inbound>, region: string, msgs: seq<Stream.Message>, stamps: seq<Stamp>,
                     acked: seq<bool>): seq<Pipeline.Payload>
    requires |msgs| == |stamps| == |acked|
  {
    if msgs == [] then []
    else
      var n := |msgs| - 1;
      var usable := Stream.Usable(translators, region, msgs[n], stamps[n]);
      Submitted(translators, region, msgs[..n], stamps[..n], acked[..n]) +
      if acked[n] && usable.Some? then [Pipeline.Payload(region, usable.value)] else []
  }

  /** An acknowledgement is missing only for a usable message, and only when the channel is full. */
  ghost predicate Withheld(translators: map<string, Inbound>, region: string, msgs: seq<Stream.Message>,
                           stamps: seq<Stamp>, acked: seq<bool>, full: bool)
    requires |msgs| == |stamps| == |acked|
  {
    forall k | 0 <= k < |msgs| && !acked[k] :: full && Stream.Usable(translators, region, msgs[k], stamps[k]).Some?
  }

  /** A full channel stays full while nothing takes from it. */
  lemma WithheldStays(translators: map<string, Inbound>, region: string, msgs: seq<Stream.Message>,
                      stamps: seq<Stamp>, acked: seq<bool>, full: bool, full': bool)
    requires |msgs| == |stamps| == |acked| && Withheld(translators, region, msgs, stamps, acked, full)
    requires full ==> full'
    ensures Withheld(translators, region, msgs, stamps, acked, full')
  {
  }

  lemma WithheldSnoc(translators: map<string, Inbound>, region: string, msgs: seq<Stream.Message>, stamps: seq<Stamp>,
                     acked: seq<bool>, msg: Stream.Message, stamp: Stamp, a: bool, full: bool)
    requires |msgs| == |stamps| == |acked| && Withheld(translators, region, msgs, stamps, acked, full)
    requires a || (full && Stream.Usable(translators, region, msg, stamp).Some?)
    ensures Withheld(translators, region, msgs + [msg], stamps + [stamp], acked + [a], full)
  {
    var n := |msgs|;
    forall k | 0 <= k < n + 1 && !(acked + [a])[k]
      ensures full && Stream.Usable(translators, region, (msgs + [msg])[k], (stamps + [stamp])[k]).Some?
    {
    }
  }

  lemma SubmittedSnoc(translators: map<string, Inbound>, region: string, msgs: seq<Stream.Message>, stamps: seq<Stamp>,
                      acked: seq<bool>, msg: Stream.Message, stamp: Stamp, a: bool)
    requires |msgs| == |stamps| == |acked|
    ensures
      var usable := Stream.Usable(translators, region, msg, stamp);
      Submitted(translators, region, msgs + [msg], stamps + [stamp], acked + [a]) ==
      Submitted(translators, region, msgs, stamps, acked) +
      if a && usable.Some? then [Pipeline.Payload(region, usable.value)] else []
  {
    var n := |msgs|;
    assert (msgs + [msg])[..n] == msgs && (stamps + [stamp])[..n] == stamps && (acked + [a])[..n] == acked;
  }

  lemma BufferFollows(translators: map<string, Inbound>, region: string, msgs: seq<Stream.Message>, stamps: seq<Stamp>,
                      acked: seq<bool>, msg: Stream.Message, stamp: Stamp, a: bool,
                      before: seq<Pipeline.Payload>, buf: seq<Pipeline.Payload>, buf': seq<Pipeline.Payload>)
    requires |msgs| == |stamps| == |acked| && buf == before + Submitted(translators, region, msgs, stamps, acked)
    requires
      match Stream.Usable(translators, region, msg, stamp)
      case None => buf' == buf
      case Some(data) => buf' == if a then buf + [Pipeline.Payload(region, data)] else buf
    ensures buf' == before + Submitted(translators, region, msgs + [msg], stamps + [stamp], acked + [a])
  {
    SubmittedSnoc(translators, region, msgs, stamps, acked, msg, stamp, a);
  }

  lemma TakeNext<T>(xs: seq<T>, i: nat)
    requires i < |xs|
    ensures xs[..i + 1] == xs[..i] + [xs[i]]
  {
  }

  function OneMoreIngested(k: Pipeline.Counters): Pipeline.Counters { k.(ingested := k.ingested + 1) }

  class Reader<S> {
    const region: string
    const reg: Registry
    const disp: Dispatching.Dispatcher<S>

    constructor (region: string, reg: Registry, disp: Dispatching.Dispatcher<S>)
      ensures this.region == region && this.reg == reg && this.disp == disp
    {
      this.region := region;
      this.reg := reg;
      this.disp := disp;
    }

    /** Acknowledge what can never be used and what the channel took; withhold the acknowledgement otherwise. */
    method HandleMessage(msg: Stream.Message, stamp: Stamp) returns (acked: bool)
      requires !disp.closed
      modifies disp`buf, disp`counters
      ensures
        match Stream.Usable(reg.translators, region, msg, stamp)
        case None => acked && disp.buf == old(disp.buf) && disp.counters == old(disp.counters)
        case Some(data) =>
          && disp.counters == (if acked then OneMoreIngested(old(disp.counters)) else old(disp.counters))
          && (acked <==> |old(disp.buf)| < disp.cfg.bufferSize)
          && disp.buf == if acked then old(disp.buf) + [Pipeline.Payload(region, data)] else old(disp.buf)
    {
      var raw := Stream.ExtractBytes(msg);
      if raw.None? {
        return true;
      }
      var event := reg.Translate(region, raw.value, stamp);
      if event.None? {
        return true;
      }
      var e := event.value;
      if e.id == "" {
        e := e.(id := stamp.id);
      }
      var data := Marshal(e, raw.value);
      if data.None? {
        return true;
      }
      var ok := disp.Submit(Pipeline.Payload(region, data.value));
      if !ok {
        return false;
      }
      disp.CountIngested();
      return true;
    }

    /** A batch is handled to its end. A message is left unacknowledged only if it is usable and the channel
        was full; the channel has received exactly the acknowledged usable messages, in order. */
    method HandleBatch(msgs: seq<Stream.Message>, stamps: seq<Stamp>) returns (acked: seq<bool>)
      requires !disp.closed && |msgs| == |stamps|
      modifies disp`buf, disp`counters
      ensures |acked| == |msgs|
      ensures disp.buf == old(disp.buf) + Submitted(reg.translators, region, msgs, stamps, acked)
      ensures Withheld(reg.translators, region, msgs, stamps, acked, |disp.buf| >= disp.cfg.bufferSize)
      ensures
        var k := old(disp.counters);
        disp.counters == k.(ingested := k.ingested + |disp.buf| - |old(disp.buf)|)
    {
      acked := [];
      ghost var before, tr, size, k := disp.buf, reg.translators, disp.cfg.bufferSize, disp.counters;
      ghost var seen: seq<Stream.Message>, stamped: seq<Stamp> := [], [];
      for i := 0 to |msgs|
        invariant |disp.buf| >= |before| && disp.counters == k.(ingested := k.ingested + |disp.buf| - |before|)
        invariant |acked| == |seen| == |stamped| == i && seen == msgs[..i] && stamped == stamps[..i]
        invariant disp.buf == before + Submitted(tr, region, seen, stamped, acked)
        invariant Withheld(tr, region, seen, stamped, acked, |disp.buf| >= size)
      {
        ghost var buf, full := disp.buf, |disp.buf| >= size;
        var a := HandleMessage(msgs[i], stamps[i]);
        WithheldStays(tr, region, seen, stamped, acked, full, |disp.buf| >= size);
        WithheldSnoc(tr, region, seen, stamped, acked, msgs[i], stamps[i], a, |disp.buf| >= size);
        BufferFollows(tr, region, seen, stamped, acked, msgs[i], stamps[i], a, before, buf, disp.buf);
        TakeNext(msgs, i);
        TakeNext(stamps, i);
        acked, seen, stamped := acked + [a], seen + [msgs[i]], stamped + [stamps[i]];
      }
      assert seen == msgs && stamped == stamps;
    }
  }
}
