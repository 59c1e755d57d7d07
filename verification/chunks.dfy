/** The size-10 chunking gatherers of `SimpleGathererTest` (its
    non-greedy and greedy tests): the buffer is pushed whenever it holds ten
    elements, and the finisher pushes the leftover only if it is full. */
module Chunks {
  import opened Streams
  import opened Batching

  const ChunkSize := 10

  /** The flush condition of both gatherers. */
  predicate Full(buffer: seq<int>) {
    |buffer| == ChunkSize
  }

  /** The gatherer built from `Gatherer.Integrator.of`. */
  function NonGreedyGatherer(): Gatherer<seq<int>, int, seq<int>> {
    BatchGatherer(Full, Merge(AddAll))
  }

  /** The gatherer built from `Gatherer.Integrator.ofGreedy`: the greedy
      flag only promises the stream that the integrator never short-circuits,
      so the integration logic is the same. */
  function GreedyGatherer(): Gatherer<seq<int>, int, seq<int>> {
    BatchGatherer(Full, Merge(AddAll))
  }

  /** The reference meaning: consecutive ten-element chunks of the input,
      dropping a shorter remainder. */
  function Chunked(xs: seq<int>): (r: seq<seq<int>>)
    ensures |r| == |xs| / ChunkSize
    decreases |xs|
  {
    if |xs| < ChunkSize then [] else [xs[..ChunkSize]] + Chunked(xs[ChunkSize..])
  }

  /** What is left after the last full chunk. */
  function Remainder(xs: seq<int>): (r: seq<int>)
    ensures |r| < ChunkSize
    decreases |xs|
  {
    if |xs| < ChunkSize then xs else Remainder(xs[ChunkSize..])
  }

  /** The chunks followed by the remainder are the input. */
  lemma {:induction false} ChunksThenRemainder(xs: seq<int>)
    ensures Flatten(Chunked(xs)) + Remainder(xs) == xs
    decreases |xs|
  {
    if |xs| >= ChunkSize {
      ChunksThenRemainder(xs[ChunkSize..]);
      assert xs[..ChunkSize] + xs[ChunkSize..] == xs;
    }
  }

  /** The chunks in index form: there are |xs| / 10 of them, the i-th holds
      elements 10i..10i+9, and together they are the input minus its last
      |xs| % 10 elements. */
  lemma {:induction false} ChunkedIndex(xs: seq<int>)
    ensures forall i :: 0 <= i < |Chunked(xs)| ==>
              Chunked(xs)[i] == xs[ChunkSize * i..ChunkSize * i + ChunkSize]
    ensures Flatten(Chunked(xs)) == xs[..|xs| - |xs| % ChunkSize]
    decreases |xs|
  {
    if |xs| >= ChunkSize {
      var rest := xs[ChunkSize..];
      ChunkedIndex(rest);
      assert |xs| / ChunkSize == |rest| / ChunkSize + 1;
      assert |xs| % ChunkSize == |rest| % ChunkSize;
      forall i | 1 <= i < |Chunked(xs)|
        ensures Chunked(xs)[i] == xs[ChunkSize * i..ChunkSize * i + ChunkSize]
      {
        assert Chunked(xs)[i] == Chunked(rest)[i - 1];
      }
      assert xs[..ChunkSize] + rest[..|rest| - |rest| % ChunkSize] == xs[..|xs| - |xs| % ChunkSize];
    }
  }

  /** From an empty buffer, a batch is cut exactly when ten elements have
      arrived. */
  lemma {:induction false} CutAfterTen(xs: seq<int>, start: nat, cur: nat)
    requires start <= cur <= |xs| && cur - start < ChunkSize
    ensures CutEnd(Full, xs, start, cur) == if start + ChunkSize <= |xs| then start + ChunkSize else |xs| + 1
    decreases |xs| - cur
  {
    if cur < |xs| && cur + 1 - start < ChunkSize {
      CutAfterTen(xs, start, cur + 1);
    }
  }

  /** Driving the chunk integrator pushes exactly the reference chunks and
      leaves the remainder of fewer than ten elements in the buffer. */
  lemma {:induction false} RunChunks(xs: seq<int>)
    ensures RunBatches(Full, [], xs) == Drained(Remainder(xs), Chunked(xs), false)
    decreases |xs|
  {
    CutAfterTen(xs, 0, 0);
    assert xs[0..] == xs;
    if |xs| >= ChunkSize {
      CutFrom(Full, xs, 0);
      RunChunks(xs[ChunkSize..]);
    } else {
      NoCutFrom(Full, xs, 0);
    }
  }

  /** Both chunk gatherers gather exactly the reference chunks: the
      finisher drops the partial trailing chunk. */
  lemma GatherIsChunked(xs: seq<int>)
    ensures Gather(NonGreedyGatherer(), xs) == Chunked(xs)
    ensures Gather(GreedyGatherer(), xs) == Chunked(xs)
  {
    RunChunks(xs);
    FinisherNeverEmits(Full, Merge(AddAll), xs);
  }

  /** Gathering a prefix yields a prefix of the chunks: the first k
      elements determine the first k / 10 chunks, which is what lets a
      finite prefix stand for an infinite source. */
  lemma {:induction false} ChunkedPrefix(xs: seq<int>, k: nat)
    requires k <= |xs|
    ensures Chunked(xs[..k]) == Chunked(xs)[..k / ChunkSize]
    decreases k
  {
    if k >= ChunkSize {
      assert xs[..k][..ChunkSize] == xs[..ChunkSize];
      assert xs[..k][ChunkSize..] == xs[ChunkSize..][..k - ChunkSize];
      ChunkedPrefix(xs[ChunkSize..], k - ChunkSize);
      assert k / ChunkSize == (k - ChunkSize) / ChunkSize + 1;
    } else {
      assert k / ChunkSize == 0;
    }
  }

  /** The chunks of 1, 2, ..., m: the i-th is 10i+1..10i+10. */
  lemma ChunksOfNaturals(m: int, i: int)
    requires 0 <= i < |Chunked(RangeClosed(1, m))|
    ensures Chunked(RangeClosed(1, m))[i] == RangeClosed(ChunkSize * i + 1, ChunkSize * i + ChunkSize)
  {
    ChunkedIndex(RangeClosed(1, m));
  }

  /** `Stream.iterate(1, i -> i + 1).gather(g).limit(n)`, on any prefix
      1..m long enough to hold n chunks: the chunks 1..10, 11..20, ...,
      up to 10n - 9..10n, from either gatherer. */
  lemma LimitOfNaturals(n: nat, m: int)
    requires m >= ChunkSize * n
    ensures Limit(Gather(NonGreedyGatherer(), RangeClosed(1, m)), n)
              == seq(n, i => RangeClosed(ChunkSize * i + 1, ChunkSize * i + ChunkSize))
    ensures Limit(Gather(GreedyGatherer(), RangeClosed(1, m)), n)
              == seq(n, i => RangeClosed(ChunkSize * i + 1, ChunkSize * i + ChunkSize))
  {
    var xs := RangeClosed(1, m);
    GatherIsChunked(xs);
    ChunkedIndex(xs);
    assert |xs| / ChunkSize >= n;
    forall i | 0 <= i < n
      ensures Chunked(xs)[i] == RangeClosed(ChunkSize * i + 1, ChunkSize * i + ChunkSize)
    {
      ChunksOfNaturals(m, i);
    }
  }

  /** The non-greedy test's pipeline, `limit(100)`. */
  lemma NonGreedyLimitHundred()
    ensures Limit(Gather(NonGreedyGatherer(), RangeClosed(1, 1000)), 100)
              == seq(100, i => RangeClosed(ChunkSize * i + 1, ChunkSize * i + ChunkSize))
  {
    LimitOfNaturals(100, 1000);
  }

  /** The greedy test's pipeline, `limit(10)`. */
  lemma GreedyLimitTen()
    ensures Limit(Gather(GreedyGatherer(), RangeClosed(1, 100)), 10)
              == seq(10, i => RangeClosed(ChunkSize * i + 1, ChunkSize * i + ChunkSize))
  {
    LimitOfNaturals(10, 100);
  }
}
