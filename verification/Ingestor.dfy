/** The buffer pool as objects with backing arrays, and the ingest handler as one goroutine runs it. */
module Ingestor {
  import opened Translator
  import opened PooledIngest
  import Pipeline
  import Dispatching

  /** Pooled unit of work: the bytes are the first len elements of data. */
  class Buffer {
    var source: string
    var data: array<char>
    var len: nat

    constructor ()
      ensures source == "" && len == 0 && data.Length == CAPACITY && fresh(data)
    {
      source := "";
      data := new char[CAPACITY];
      len := 0;
    }

    ghost predicate Valid()
      reads this
    {
      len <= data.Length
    }

    ghost function Bytes(): string
      reads this, data
      requires Valid()
    {
      data[..len]
    }

    /** `append` on the slice: in place while the array has room, else in a larger array. */
    method Append(body: string)
      requires Valid()
      modifies this, data
      ensures Valid() && Bytes() == old(Bytes()) + body && source == old(source)
      ensures data == old(data) || fresh(data)
    {
      if len + |body| > data.Length {
        Grow(|body|);
      }
      ghost var before := Bytes();
      var i := 0;
      while i < |body|
        modifies data
        invariant i <= |body| && len + |body| <= data.Length
        invariant data[..len + i] == before + body[..i]
      {
        data[len + i] := body[i];
        i := i + 1;
      }
      len := len + |body|;
    }

    /** Moves the bytes to a larger array. */
    method Grow(room: nat)
      requires Valid()
      modifies this
      ensures Valid() && Bytes() == old(Bytes()) && source == old(source) && len == old(len)
      ensures fresh(data) && data.Length >= len + room
    {
      var larger := new char[2 * data.Length + room];
      forall i | 0 <= i < len {
        larger[i] := data[i];
      }
      data := larger;
    }
  }

  class Pool {
    var free: set<Buffer>

    /** Free buffers are empty and do not share arrays. */
    ghost predicate Valid()
      reads this, free
    {
      && (forall b | b in free :: b.source == "" && b.len == 0)
      && (forall b, d | b in free && d in free && b != d :: b.data != d.data)
    }

    constructor ()
      ensures Valid() && free == {}
    {
      free := {};
    }

    /** A free buffer if there is one and the pool cares to hand it out; otherwise a new one. Either way it is empty
        and the caller's alone, array included. */
    method Get(reuse: bool) returns (b: Buffer)
      requires Valid()
      modifies this
      ensures Valid() && b !in free && free <= old(free)
      ensures b in old(free) || (fresh(b) && fresh(b.data))
      ensures b.source == "" && b.len == 0
      ensures forall d | d in free :: d.data != b.data
    {
      if reuse && free != {} {
        b :| b in free;
        free := free - {b};
      } else {
        b := new Buffer();
      }
    }

    method Put(b: Buffer)
      requires Valid() && b !in free && forall d | d in free :: d.data != b.data
      modifies this, b
      ensures Valid() && free == old(free) + {b} && b.data == old(b.data)
    {
      b.source := "";
      b.len := 0;
      free := free + {b};
    }
  }

  class Server<S> {
    const pool: Pool
    const reg: Registry
    const disp: Dispatching.Dispatcher<S>

    constructor (pool: Pool, reg: Registry, disp: Dispatching.Dispatcher<S>)
      ensures this.pool == pool && this.reg == reg && this.disp == disp
    {
      this.pool := pool;
      this.reg := reg;
      this.disp := disp;
    }

    /** The stretch of the handler between Get and Put. The result is that of a run on a fresh buffer,
        and the buffer goes back to the pool on every path. */
    method PreparePooled(source: string, body: string, stamp: Stamp, reuse: bool) returns (r: Prepared)
      requires pool.Valid()
      modifies pool, pool.free, (set b | b in pool.free :: b.data)
      ensures pool.Valid()
      ensures r == Prepare(reg.translators, source, body, stamp)
    {
      var p := pool.Get(reuse);
      p.Append(body);
      assert p.Bytes() == body;
      var event := reg.Translate(source, p.data[..p.len], stamp);
      if event.None? {
        pool.Put(p);
        return Untranslatable;
      }
      var e := event.value;
      if e.id == "" {
        e := e.(id := stamp.id);
      }
      // The event may be a window of p.data: it is encoded before p goes back.
      var data := Marshal(e, p.data[..p.len]);
      pool.Put(p);
      if data.None? {
        return Unmarshalable;
      }
      return Ready(e.id, data.value);
    }

    /** The handler's status, and what it put into the channel, are those of a run on a fresh buffer. */
    method HandleIngest(source: string, body: string, stamp: Stamp, reuse: bool) returns (status: Status)
      requires pool.Valid() && !disp.closed
      modifies pool, pool.free, (set b | b in pool.free :: b.data), disp`buf, disp`counters
      ensures pool.Valid()
      ensures
        match Fresh(reg.translators, Request(source, body, stamp))
        case Answers(s) => status == s && disp.buf == old(disp.buf)
        case Submits(id, data) =>
          if |old(disp.buf)| < disp.cfg.bufferSize then
            status == Accepted(id) && disp.buf == old(disp.buf) + [Pipeline.Payload(source, data)]
          else
            status == TooManyRequests && disp.buf == old(disp.buf)
      ensures
        var k := old(disp.counters);
        disp.counters == if status.Accepted? then k.(ingested := k.ingested + 1) else k
    {
      if |body| == 0 {
        return BadRequest;
      }
      var r := PreparePooled(source, body, stamp, reuse);
      if r.Untranslatable? {
        return Unprocessable;
      }
      if r.Unmarshalable? {
        return ServerError;
      }
      var ok := disp.Submit(Pipeline.Payload(source, r.data));
      if !ok {
        return TooManyRequests;
      }
      disp.CountIngested();
      return Accepted(r.id);
    }
  }
}
