/** The prime-sum gatherer of `SimpleGathererTest`, in both of its
    spellings (an anonymous `Gatherer` class and `Gatherer.of`): elements
    are buffered until the buffer's sum is prime or it holds ten elements,
    and then the buffer is pushed as one batch. */
module PrimeSum {
  import opened Primes
  import opened Streams
  import opened Batching

  /** The buffer size that forces a flush whatever the sum. */
  const BatchSize := 10

  /** `state.stream().mapToInt(x -> x).sum()`, without 32-bit wrap-around. */
  function Sum(xs: seq<int>): int {
    if |xs| == 0 then 0 else xs[0] + Sum(xs[1..])
  }

  /** The flush condition, shared by integrator and finisher. */
  predicate Flush(buffer: seq<int>) {
    IsPrime(Sum(buffer)) || |buffer| == BatchSize
  }

  /** The anonymous-class gatherer: no combiner (sequential only). */
  function AnonymousGatherer(): Gatherer<seq<int>, int, seq<int>> {
    BatchGatherer(Flush, Sequential)
  }

  /** The `Gatherer.of` gatherer: the same integrator and finisher, with an
      `addAll` combiner. */
  function OfGatherer(): Gatherer<seq<int>, int, seq<int>> {
    BatchGatherer(Flush, Merge(AddAll))
  }

  /** A fresh buffer does not flush: its sum 0 is not prime and it is not
      full. */
  lemma EmptyDoesNotFlush()
    ensures !Flush([])
  {
  }

  /** A buffer waiting between steps holds fewer than ten elements and its
      sum is not prime (unless it is empty). */
  lemma PendingBuffer(buffer: seq<int>)
    requires Pending(Flush, buffer)
    ensures |buffer| < BatchSize
    ensures |buffer| > 0 ==> !Prime(Sum(buffer))
  {
    if |buffer| >= BatchSize {
      assert |buffer[..BatchSize]| == BatchSize;
      assert Flush(buffer[..BatchSize]);
      assert false;
    }
    if |buffer| > 0 {
      assert buffer[..|buffer|] == buffer;
      IsPrimeIffPrime(Sum(buffer));
    }
  }

  /** One integration step from a buffer of fewer than ten elements: the
      element is appended, and the buffer is either flushed whole (and
      emptied) or kept; the answer is always true, and the buffer left
      behind again holds fewer than ten elements. */
  lemma IntegrateStep(buffer: seq<int>, element: int)
    requires |buffer| < BatchSize
    ensures var r := BatchStep(Flush, buffer, element);
            && r.proceed
            && (Flush(buffer + [element]) ==> r.pushed == [buffer + [element]] && r.state == [])
            && (!Flush(buffer + [element]) ==> r.pushed == [] && r.state == buffer + [element])
            && |r.state| < BatchSize
  {
  }

  /** Every batch the gatherer pushes is non-empty, holds at most ten
      elements, and has a prime sum or exactly ten elements; the batches,
      followed by a dropped tail of fewer than ten elements with a non-prime
      sum, spell out the input in order. */
  lemma GatherPrimeSum(xs: seq<int>)
    ensures var out := Gather(AnonymousGatherer(), xs);
            && (forall b :: b in out ==> 0 < |b| <= BatchSize && (Prime(Sum(b)) || |b| == BatchSize))
            && exists tail :: Flatten(out) + tail == xs && |tail| < BatchSize && (|tail| > 0 ==> !Prime(Sum(tail)))
  {
    EmptyDoesNotFlush();
    GatherBatches(Flush, Sequential, xs);
    var out := Gather(AnonymousGatherer(), xs);
    forall b | b in out
      ensures 0 < |b| <= BatchSize && (Prime(Sum(b)) || |b| == BatchSize)
    {
      PendingBuffer(b[..|b| - 1]);
      IsPrimeIffPrime(Sum(b));
    }
    var tail :| Flatten(out) + tail == xs && Pending(Flush, tail);
    PendingBuffer(tail);
  }

  /** The finisher never pushes anything: the leftover buffer never meets the
      flush condition, so the output is exactly what the integrator pushed. */
  lemma FinisherIsSilent(xs: seq<int>)
    ensures var d := RunBatches(Flush, [], xs);
            && FinishBatch(Flush, d.state) == []
            && Gather(AnonymousGatherer(), xs) == d.out
  {
    EmptyDoesNotFlush();
    FinisherNeverEmits(Flush, Sequential, xs);
  }

  /** `Gatherer.of` with the same integrator and finisher gathers the same
      output as the anonymous class.  The two differ only in the combiner,
      and since only sequential runs are modelled this holds by
      construction (see `Batching.CombinerUnused`). */
  lemma OfAgreesWithAnonymous(xs: seq<int>)
    ensures Gather(OfGatherer(), xs) == Gather(AnonymousGatherer(), xs)
  {
    CombinerUnused(Flush, Merge(AddAll), Sequential, xs);
  }

  /** `IntStream.rangeClosed(1, 50)`. */
  function OneToFifty(): seq<int> {
    RangeClosed(1, 50)
  }

  /** The expected batches of the test. */
  function Expected(): seq<seq<int>> {
    [ [1, 2],
      [3],
      [4, 5, 6, 7, 8, 9, 10, 11, 12, 13],
      [14, 15],
      [16, 17, 18, 19, 20, 21, 22, 23, 24, 25],
      [26, 27],
      [28, 29, 30, 31, 32, 33, 34, 35, 36, 37],
      [38, 39, 40, 41, 42, 43, 44, 45, 46, 47],
      [48, 49] ]
  }

  lemma PeelFirst(a: int, b: int, rest: int)
    requires 2 * rest == b * (b + 1) - (a + 1) * (a + 2)
    ensures 2 * (a + 1) + 2 * rest == b * (b + 1) - a * (a + 1)
  {
    assert (a + 1) * (a + 2) == a * (a + 1) + 2 * (a + 1);
  }

  /** The sum of a slice of 1..n: a + 1, ..., b adds up to
      (b(b+1) - a(a+1)) / 2. */
  lemma {:induction false} SliceSum(n: int, a: nat, b: nat)
    requires a <= b <= n
    ensures 2 * Sum(RangeClosed(1, n)[a..b]) == b * (b + 1) - a * (a + 1)
    decreases b - a
  {
    var xs := RangeClosed(1, n);
    if a < b {
      assert xs[a..b][0] == a + 1;
      assert xs[a..b][1..] == xs[a + 1..b];
      SliceSum(n, a + 1, b);
      assert 2 * Sum(xs[a..b]) == 2 * (a + 1) + 2 * Sum(xs[a + 1..b]);
      PeelFirst(a, b, Sum(xs[a + 1..b]));
    }
  }

  // The run over 1..50 is worked out one batch at a time: `Advance` and
  // `Stop` take the buffer's sum as a literal `total`, so that each
  // `IsPrime(total)` is evaluated on its own, and `CutOne`..`CutNine` and
  // `ExpectedOne`..`ExpectedNine` keep every batch in a proof of its own.

  /** The buffer holding elements s + 1..c + 1 of 1..50 (sum `total`) does
      not flush, so the batch grows past index c. */
  lemma Advance(s: nat, c: nat, total: int)
    requires s <= c < 50 && 2 * total == (c + 1) * (c + 2) - s * (s + 1)
    requires !IsPrime(total) && c + 1 - s != BatchSize
    ensures CutEnd(Flush, OneToFifty(), s, c) == CutEnd(Flush, OneToFifty(), s, c + 1)
  {
    SliceSum(50, s, c + 1);
  }

  /** The buffer holding elements s + 1..c + 1 of 1..50 (sum `total`)
      flushes, so the batch ends after index c. */
  lemma Stop(s: nat, c: nat, total: int)
    requires s <= c < 50 && 2 * total == (c + 1) * (c + 2) - s * (s + 1)
    requires IsPrime(total) || c + 1 - s == BatchSize
    ensures CutEnd(Flush, OneToFifty(), s, c) == c + 1
  {
    SliceSum(50, s, c + 1);
  }

  /** Batch one of 1..50 starts at index 0 and ends before index 2. */
  lemma CutOne()
    ensures CutEnd(Flush, OneToFifty(), 0, 0) == 2
  {
    Stop(0, 1, 3);
    Advance(0, 0, 1);
  }

  /** Batch two of 1..50 starts at index 2 and ends before index 3. */
  lemma CutTwo()
    ensures CutEnd(Flush, OneToFifty(), 2, 2) == 3
  {
    Stop(2, 2, 3);
  }

  /** Batch three of 1..50 starts at index 3 and ends before index 13. */
  lemma CutThree()
    ensures CutEnd(Flush, OneToFifty(), 3, 3) == 13
  {
    Stop(3, 12, 85);
    Advance(3, 11, 72);
    Advance(3, 10, 60);
    Advance(3, 9, 49);
    Advance(3, 8, 39);
    Advance(3, 7, 30);
    Advance(3, 6, 22);
    Advance(3, 5, 15);
    Advance(3, 4, 9);
    Advance(3, 3, 4);
  }

  /** Batch four of 1..50 starts at index 13 and ends before index 15. */
  lemma CutFour()
    ensures CutEnd(Flush, OneToFifty(), 13, 13) == 15
  {
    Stop(13, 14, 29);
    Advance(13, 13, 14);
  }

  /** Batch five of 1..50 starts at index 15 and ends before index 25. */
  lemma CutFive()
    ensures CutEnd(Flush, OneToFifty(), 15, 15) == 25
  {
    Stop(15, 24, 205);
    Advance(15, 23, 180);
    Advance(15, 22, 156);
    Advance(15, 21, 133);
    Advance(15, 20, 111);
    Advance(15, 19, 90);
    Advance(15, 18, 70);
    Advance(15, 17, 51);
    Advance(15, 16, 33);
    Advance(15, 15, 16);
  }

  /** Batch six of 1..50 starts at index 25 and ends before index 27. */
  lemma CutSix()
    ensures CutEnd(Flush, OneToFifty(), 25, 25) == 27
  {
    Stop(25, 26, 53);
    Advance(25, 25, 26);
  }

  /** Batch seven of 1..50 starts at index 27 and ends before index 37. */
  lemma CutSeven()
    ensures CutEnd(Flush, OneToFifty(), 27, 27) == 37
  {
    Stop(27, 36, 325);
    Advance(27, 35, 288);
    Advance(27, 34, 252);
    Advance(27, 33, 217);
    Advance(27, 32, 183);
    Advance(27, 31, 150);
    Advance(27, 30, 118);
    Advance(27, 29, 87);
    Advance(27, 28, 57);
    Advance(27, 27, 28);
  }

  /** Batch eight of 1..50 starts at index 37 and ends before index 47. */
  lemma CutEight()
    ensures CutEnd(Flush, OneToFifty(), 37, 37) == 47
  {
    Stop(37, 46, 425);
    Advance(37, 45, 378);
    Advance(37, 44, 332);
    Advance(37, 43, 287);
    Advance(37, 42, 243);
    Advance(37, 41, 200);
    Advance(37, 40, 158);
    Advance(37, 39, 117);
    Advance(37, 38, 77);
    Advance(37, 37, 38);
  }

  /** Batch nine of 1..50 starts at index 47 and ends before index 49. */
  lemma CutNine()
    ensures CutEnd(Flush, OneToFifty(), 47, 47) == 49
  {
    Stop(47, 48, 97);
    Advance(47, 47, 48);
  }

  /** The last element, 50, starts a batch that is never cut. */
  lemma NoCutAtFifty()
    ensures CutEnd(Flush, OneToFifty(), 49, 49) == 51
  {
    Advance(49, 49, 50);
  }

  /** Where the batches of 1..50 start and end, as indices: batch k is
      elements Bounds[k]..Bounds[k + 1] - 1. */
  const Bounds: seq<nat> := [0, 2, 3, 13, 15, 25, 27, 37, 47, 49]

  /** The batches of 1..50 from the k-th on, as slices of the input. */
  function BatchesFrom(k: nat): (r: seq<seq<int>>)
    requires k < |Bounds|
    ensures |r| == |Bounds| - 1 - k
    decreases |Bounds| - k
  {
    if k == |Bounds| - 1 then []
    else [OneToFifty()[Bounds[k]..Bounds[k + 1]]] + BatchesFrom(k + 1)
  }

  /** The k-th batch of 1..50 is cut where `Bounds` says. */
  lemma CutAt(k: nat)
    requires k < |Bounds| - 1
    ensures CutEnd(Flush, OneToFifty(), Bounds[k], Bounds[k]) == Bounds[k + 1]
  {
    if k == 0 {
      CutOne();
    }
    else if k == 1 {
      CutTwo();
    }
    else if k == 2 {
      CutThree();
    }
    else if k == 3 {
      CutFour();
    }
    else if k == 4 {
      CutFive();
    }
    else if k == 5 {
      CutSix();
    }
    else if k == 6 {
      CutSeven();
    }
    else if k == 7 {
      CutEight();
    } else {
      CutNine();
    }
  }

  /** The run from 50 on: nothing is pushed and 50 stays in the buffer. */
  lemma FromFifty()
    ensures RunBatches(Flush, [], OneToFifty()[49..]) == Drained([50], [], false)
  {
    NoCutAtFifty();
    NoCutFrom(Flush, OneToFifty(), 49);
    assert OneToFifty()[49..] == [50];
  }

  /** The run from the start of the k-th batch pushes exactly the batches
      from the k-th on, and leaves 50 in the buffer. */
  lemma {:induction false} FromBatch(k: nat)
    requires k < |Bounds|
    ensures RunBatches(Flush, [], OneToFifty()[Bounds[k]..]) == Drained([50], BatchesFrom(k), false)
    decreases |Bounds| - k
  {
    if k == |Bounds| - 1 {
      FromFifty();
    } else {
      FromBatch(k + 1);
      CutAt(k);
      CutFrom(Flush, OneToFifty(), Bounds[k]);
    }
  }

  /** The k-th of the batches from j on is the (j + k)-th batch. */
  lemma {:induction false} BatchesFromIndex(j: nat, k: nat)
    requires j + k < |Bounds| - 1
    ensures BatchesFrom(j)[k] == OneToFifty()[Bounds[j + k]..Bounds[j + k + 1]]
    decreases k
  {
    if k > 0 {
      BatchesFromIndex(j + 1, k - 1);
    }
  }

  /** A slice of 1..50 whose elements run from a + 1 to b is the k-th
      expected batch when that batch lists the same run. */
  lemma SliceIsExpected(k: nat, a: nat, b: nat)
    requires k < |Expected()| && a <= b <= 50
    requires |Expected()[k]| == b - a && Expected()[k][0] == a + 1
    requires forall i :: 0 < i < b - a ==> Expected()[k][i] == Expected()[k][i - 1] + 1
    ensures OneToFifty()[a..b] == Expected()[k]
  {
    var batch := Expected()[k];
    forall i | 0 <= i < b - a
      ensures batch[i] == a + 1 + i
    {
      ConsecutiveRun(batch, i);
    }
  }

  lemma {:induction false} ConsecutiveRun(batch: seq<int>, i: nat)
    requires 0 <= i < |batch|
    requires forall j :: 0 < j < |batch| ==> batch[j] == batch[j - 1] + 1
    ensures batch[i] == batch[0] + i
    decreases i
  {
    if i > 0 {
      ConsecutiveRun(batch, i - 1);
    }
  }

  // One lemma per batch, for the same reason as `CutOne`..`CutNine`.
  lemma ExpectedOne()
    ensures BatchesFrom(0)[0] == Expected()[0]
  {
    BatchesFromIndex(0, 0);
    SliceIsExpected(0, 0, 2);
  }

  lemma ExpectedTwo()
    ensures BatchesFrom(0)[1] == Expected()[1]
  {
    BatchesFromIndex(0, 1);
    SliceIsExpected(1, 2, 3);
  }

  lemma ExpectedThree()
    ensures BatchesFrom(0)[2] == Expected()[2]
  {
    BatchesFromIndex(0, 2);
    SliceIsExpected(2, 3, 13);
  }

  lemma ExpectedFour()
    ensures BatchesFrom(0)[3] == Expected()[3]
  {
    BatchesFromIndex(0, 3);
    SliceIsExpected(3, 13, 15);
  }

  lemma ExpectedFive()
    ensures BatchesFrom(0)[4] == Expected()[4]
  {
    BatchesFromIndex(0, 4);
    SliceIsExpected(4, 15, 25);
  }

  lemma ExpectedSix()
    ensures BatchesFrom(0)[5] == Expected()[5]
  {
    BatchesFromIndex(0, 5);
    SliceIsExpected(5, 25, 27);
  }

  lemma ExpectedSeven()
    ensures BatchesFrom(0)[6] == Expected()[6]
  {
    BatchesFromIndex(0, 6);
    SliceIsExpected(6, 27, 37);
  }

  lemma ExpectedEight()
    ensures BatchesFrom(0)[7] == Expected()[7]
  {
    BatchesFromIndex(0, 7);
    SliceIsExpected(7, 37, 47);
  }

  lemma ExpectedNine()
    ensures BatchesFrom(0)[8] == Expected()[8]
  {
    BatchesFromIndex(0, 8);
    SliceIsExpected(8, 47, 49);
  }

  /** The slices named by `Bounds` are the expected batches. */
  lemma BatchesAreExpected()
    ensures BatchesFrom(0) == Expected()
  {
    ExpectedOne();
    ExpectedTwo();
    ExpectedThree();
    ExpectedFour();
    ExpectedFive();
    ExpectedSix();
    ExpectedSeven();
    ExpectedEight();
    ExpectedNine();
  }

  /** The test's scenario: gathering 1..50 yields exactly the nine expected
      batches; 50 is left in the buffer and dropped. */
  lemma GatherOneToFifty()
    ensures Gather(AnonymousGatherer(), OneToFifty()) == Expected()
    ensures RunBatches(Flush, [], OneToFifty()).state == [50]
  {
    FromBatch(0);
    BatchesAreExpected();
    assert OneToFifty()[0..] == OneToFifty();
    FinisherIsSilent(OneToFifty());
  }

  /** The `Gatherer.of` spelling passes the same test. */
  lemma OfGatherOneToFifty()
    ensures Gather(OfGatherer(), OneToFifty()) == Expected()
  {
    OfAgreesWithAnonymous(OneToFifty());
    GatherOneToFifty();
  }
}
