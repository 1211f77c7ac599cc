/** The batcher: an append section and a flush section, each under the lock, and `Add` that runs
    the second one after the first has seen a full buffer. Drained batches are kept in a log. */
module Batching {

  datatype State<T> = State(buf: seq<T>, batches: seq<seq<T>>)

  function Empty<T>(): State<T> { State([], []) }

  /** First section of `Add`. */
  function Append<T>(b: State<T>, x: T): State<T> { b.(buf := b.buf + [x]) }

  predicate IsFull<T>(maxSize: int, b: State<T>) { |b.buf| >= maxSize }

  /** The section of `Flush`: an empty buffer yields no batch. */
  function Drain<T>(b: State<T>): State<T> {
    if b.buf == [] then b else State([], b.batches + [b.buf])
  }

  /** `Add` when nothing runs between its two sections. */
  function AddOne<T>(maxSize: int, b: State<T>, x: T): State<T> {
    var appended := Append(b, x);
    if IsFull(maxSize, appended) then Drain(appended) else appended
  }

  function Flatten<T>(xss: seq<seq<T>>): seq<T> {
    if xss == [] then [] else Flatten(xss[..|xss| - 1]) + xss[|xss| - 1]
  }

  /** Everything ever added, in order: the drained batches and then the buffer. */
  function History<T>(b: State<T>): seq<T> { Flatten(b.batches) + b.buf }

  lemma AppendExtendsHistory<T>(b: State<T>, x: T)
    ensures History(Append(b, x)) == History(b) + [x]
  {
  }

  lemma DrainKeepsHistory<T>(b: State<T>)
    ensures History(Drain(b)) == History(b)
  {
    if b.buf != [] {
      assert Drain(b).batches[..|b.batches|] == b.batches;
    }
  }

  lemma AddOneExtendsHistory<T>(maxSize: int, b: State<T>, x: T)
    ensures History(AddOne(maxSize, b, x)) == History(b) + [x]
  {
    AppendExtendsHistory(b, x);
    DrainKeepsHistory(Append(b, x));
  }

  // ---- One caller ----

  function AddAll<T>(maxSize: int, b: State<T>, xs: seq<T>): State<T> {
    if xs == [] then b else AddOne(maxSize, AddAll(maxSize, b, xs[..|xs| - 1]), xs[|xs| - 1])
  }

  lemma AddAllSnoc<T>(maxSize: int, b: State<T>, xs: seq<T>, x: T)
    ensures AddAll(maxSize, b, xs + [x]) == AddOne(maxSize, AddAll(maxSize, b, xs), x)
  {
    assert (xs + [x])[..|xs|] == xs;
  }

  /** The state of the batcher is the input cut into full chunks, with the rest in the buffer. */
  ghost predicate IsChunked<T>(maxSize: int, b: State<T>, xs: seq<T>)
    requires maxSize >= 1
  {
    var n := |b.batches|;
    && n * maxSize <= |xs| < (n + 1) * maxSize
    && b.buf == xs[n * maxSize..]
    && forall k: nat | k < n :: IsChunk(maxSize, xs, k, b.batches[k])
  }

  /** `batch` is the k-th run of maxSize consecutive items of xs. */
  ghost predicate IsChunk<T>(maxSize: int, xs: seq<T>, k: nat, batch: seq<T>)
    requires maxSize >= 1
  {
    0 <= k * maxSize <= (k + 1) * maxSize <= |xs| && batch == xs[k * maxSize..(k + 1) * maxSize]
  }

  lemma Monotone(a: nat, b: nat, m: int)
    requires a <= b && m >= 1
    ensures a * m <= b * m
  {
  }

  /** After n adds and no explicit flush, the batches are the first n / maxSize chunks of the input
      and the buffer holds the n % maxSize items that remain. */
  lemma {:induction false} SequentialIsChunking<T>(maxSize: int, xs: seq<T>)
    requires maxSize >= 1
    ensures IsChunked(maxSize, AddAll(maxSize, Empty(), xs), xs)
    ensures |AddAll(maxSize, Empty(), xs).batches| == |xs| / maxSize
    ensures |AddAll(maxSize, Empty(), xs).buf| == |xs| % maxSize
  {
    var b := AddAll(maxSize, Empty(), xs);
    if xs != [] {
      var before := xs[..|xs| - 1];
      SequentialIsChunking(maxSize, before);
      ChunkedStep(maxSize, AddAll(maxSize, Empty(), before), before, xs[|xs| - 1]);
      assert before + [xs[|xs| - 1]] == xs;
    }
    QuotientUnique(|xs|, maxSize, |b.batches|);
  }

  lemma ChunkedStep<T>(maxSize: int, b: State<T>, xs: seq<T>, x: T)
    requires maxSize >= 1 && IsChunked(maxSize, b, xs)
    ensures IsChunked(maxSize, AddOne(maxSize, b, x), xs + [x])
  {
    var n := |b.batches|;
    var ys := xs + [x];
    assert Append(b, x).buf == ys[n * maxSize..];
    forall k: nat | k < n
      ensures IsChunk(maxSize, ys, k, b.batches[k])
    {
      assert IsChunk(maxSize, xs, k, b.batches[k]);
    }
    if |ys| == (n + 1) * maxSize {
      assert IsChunk(maxSize, ys, n, ys[n * maxSize..]);
    }
  }

  lemma QuotientUnique(a: nat, m: int, q: nat)
    requires m >= 1 && q * m <= a < (q + 1) * m
    ensures a / m == q && a % m == a - q * m
  {
    if a / m < q {
      Monotone(a / m + 1, q, m);
      assert false;
    } else if a / m > q {
      Monotone(q + 1, a / m, m);
      assert false;
    }
  }

  /** A caller may also flush between adds. */
  datatype Op<T> = AddOp(item: T) | FlushOp

  function Perform<T>(maxSize: int, b: State<T>, ops: seq<Op<T>>): State<T> {
    if ops == [] then b
    else
      var before := Perform(maxSize, b, ops[..|ops| - 1]);
      match ops[|ops| - 1]
      case AddOp(x) => AddOne(maxSize, before, x)
      case FlushOp => Drain(before)
  }

  function Added<T>(ops: seq<Op<T>>): seq<T> {
    if ops == [] then []
    else Added(ops[..|ops| - 1]) + if ops[|ops| - 1].AddOp? then [ops[|ops| - 1].item] else []
  }

  /** With explicit flushes anywhere, batches and buffer still spell the add order,
      no batch is empty, and none exceeds the limit. */
  lemma {:induction false} FlushesKeepOrder<T>(maxSize: int, ops: seq<Op<T>>)
    requires maxSize >= 1
    ensures
      var b := Perform(maxSize, Empty(), ops);
      && History(b) == Added(ops)
      && |b.buf| < maxSize
      && forall batch | batch in b.batches :: 1 <= |batch| <= maxSize
  {
    if ops != [] {
      var before := Perform(maxSize, Empty(), ops[..|ops| - 1]);
      FlushesKeepOrder(maxSize, ops[..|ops| - 1]);
      match ops[|ops| - 1]
      case AddOp(x) =>
        AddOneExtendsHistory(maxSize, before, x);
      case FlushOp =>
        DrainKeepsHistory(before);
    }
  }

  class Batcher<T> {
    const maxSize: int
    var buf: seq<T>
    ghost var batches: seq<seq<T>>

    ghost function View(): State<T>
      reads this
    {
      State(buf, batches)
    }

    constructor (maxSize: int)
      ensures this.maxSize == maxSize && View() == Empty()
    {
      this.maxSize := maxSize;
      buf := [];
      batches := [];
    }

    method Add(x: T)
      modifies this
      ensures View() == AddOne(maxSize, old(View()), x)
    {
      buf := buf + [x];
      var full := |buf| >= maxSize;
      if full {
        Flush();
      }
    }

    method Flush()
      modifies this
      ensures View() == Drain(old(View()))
    {
      if |buf| == 0 {
        return;
      }
      ghost var batch := buf;
      buf := [];
      batches := batches + [batch];
    }
  }
}
