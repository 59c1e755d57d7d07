# Stream gatherers of the JDK 22 preview demos, in Dafny

This project models the sequential logic of the repository's stream-gatherer
examples:

- The prime-sum batching gatherer of `SimpleGathererTest`, in two spellings: an
  anonymous `Gatherer` class and `Gatherer.of`.
  - Integers are appended to a list buffer.
  - When the buffer's sum is prime (by the test's `isPrime`) or the buffer
    holds ten elements, a copy of the buffer is pushed downstream and the
    buffer is cleared.
  - The finisher pushes the leftover buffer only if it meets the same
    condition.
- The ten-element chunking gatherers of the same class, in a non-greedy and a
  greedy version.
- The pair-formatting gatherer of `CustomStreamTest`.
  - Its state is an `AtomicReference<Integer>` that starts out null.
  - For each pair, the integrator reads the cell. If the pair's first
    component differs from what it read, it writes that same value back and
    pushes `first + "-" + second`.

A gatherer here consists of:

- an initial state;
- an integrator, which takes (state, element) and returns a new state, the
  elements it pushed, and its boolean answer;
- a combiner;
- a finisher, from the final state to the elements it pushes.

`stream.gather(g)` collected to a list is the sequential fold of the
integrator over a finite sequence, followed by the finisher (`Streams.Gather`).

Modules:

- `Streams`: gatherers, the sequential fold, `limit`, `IntStream.rangeClosed`.
- `Primes`: `isPrime` and its equivalence with the textbook definition.
- `Batching`: the buffer-until-a-condition gatherer shared by every gatherer of
  `SimpleGathererTest`. The condition is a parameter.
  - Each batch is cut at the first prefix that meets the condition.
  - No element is lost, duplicated or reordered.
  - The finisher never pushes anything once an empty buffer fails the
    condition.
- `PrimeSum` and `Chunks`: the two conditions, with the test scenarios.
- `Decimal`: the decimal text of an `Integer` as string concatenation writes it
  (`Integer.toString`), with a parser as its partner.
- `Pairs`: the formatter and the `AtomicReference` gatherer.

Three modelling decisions follow the code:

- `state.removeAll(downstreamList)` removes every element that occurs in a
  copy of the whole buffer, so it always empties the buffer. A flush is
  modelled as a reset to the empty sequence.
- `atomicReference.set(i)` stores the value just read, so the cell never leaves
  null. The model writes back what it read, and proves that every pair is
  formatted.
- The infinite `Stream.iterate(1, i -> i + 1)` is studied through its finite
  prefixes 1..m. `Chunks.ChunkedPrefix` shows that a prefix determines the
  leading chunks, so any long enough prefix gives the same `limit(n)` result.

## Model

| member | source | states |
|---|---|---|
| Primes.IsPrimeIffPrime | src/test/java/com/evolutionnext/streamgatherers/SimpleGathererTest.java:30-38 | `isPrime(i)` holds exactly when i > 1 and no d with 2 <= d < i divides i, so stopping at odd candidates below the square root loses nothing |
| Primes.IsPrime | src/test/java/com/evolutionnext/streamgatherers/SimpleGathererTest.java:30-38 | `isPrime` branch by branch: false at or below 1, true for 2, false for other even numbers, otherwise the odd trial division; `Primes.IsPrimeIffPrime` proves that this decides primality |
| Primes.TrialDivision | src/test/java/com/evolutionnext/streamgatherers/SimpleGathererTest.java:34-37 | the `for (j = 3; j * j <= i; j += 2)` loop as recursion on j; `Primes.TrialDivisionMeaning` states what it answers |
| Primes.TrialDivisionMeaning | src/test/java/com/evolutionnext/streamgatherers/SimpleGathererTest.java:34-37 | the loop from an odd j >= 3 returns true exactly when no odd d >= j with d * d <= i divides i |
| Streams.RangeClosed | src/test/java/com/evolutionnext/streamgatherers/SimpleGathererTest.java:71 | `IntStream.rangeClosed(lo, hi)`: hi - lo + 1 elements (none when hi < lo), element i being lo + i |
| Streams.Limit | src/test/java/com/evolutionnext/streamgatherers/SimpleGathererTest.java:122 | `limit(n)`: min(n, length) elements, each equal to the source element at the same position |
| Streams.Drive | src/test/java/com/evolutionnext/streamgatherers/SimpleGathererTest.java:71 | the sequential push of the source through the integrator, in encounter order, stopping after the first step that answers false; `Batching.DriveIsRunBatches` and `Pairs.DriveKeepsCell` state what it computes for the gatherers here |
| Streams.Gather | src/test/java/com/evolutionnext/streamgatherers/SimpleGathererTest.java:96 | `gather(g).collect(Collectors.toList())`: the integrator's pushes followed by the finisher's; `Batching.GatherBatches` and `Pairs.GatherFormatsEvery` state what it gathers |
| Batching.BatchStep | src/test/java/com/evolutionnext/streamgatherers/SimpleGathererTest.java:51-58 | one integration step answers true and pushes at most one batch; the pushed batches followed by the new buffer are the old buffer plus the element; a pushed batch meets the condition and leaves the buffer empty; a kept buffer does not meet it |
| Batching.FinishBatch | src/test/java/com/evolutionnext/streamgatherers/SimpleGathererTest.java:63-68 | the finisher pushes the leftover buffer, and nothing else, exactly when it meets the condition |
| Batching.RunBatches | src/test/java/com/evolutionnext/streamgatherers/SimpleGathererTest.java:51-58 | the integration loop of a batching gatherer, written first-order; `Batching.DriveIsRunBatches` proves it is what the stream plumbing computes and `Batching.RunConserves` that its batches and leftover spell out buffer and input |
| Batching.DriveIsRunBatches | src/test/java/com/evolutionnext/streamgatherers/SimpleGathererTest.java:51-58 | feeding the stream through the gatherer plumbing never stops early: every element is integrated |
| Batching.RunConserves | src/test/java/com/evolutionnext/streamgatherers/SimpleGathererTest.java:52-56 | the pushed batches, concatenated, followed by the leftover buffer, are the starting buffer followed by the input, in order |
| Batching.RunCutsFirstReady | src/test/java/com/evolutionnext/streamgatherers/SimpleGathererTest.java:53-56 | every batch is cut at the first moment it met the condition, and the leftover buffer has no non-empty prefix that meets it |
| Batching.RunToCut | src/test/java/com/evolutionnext/streamgatherers/SimpleGathererTest.java:52-57 | when a batch is due at index e, the run pushes exactly the elements from the batch start to e and carries on from an empty buffer |
| Batching.FinisherNeverEmits | src/test/java/com/evolutionnext/streamgatherers/SimpleGathererTest.java:63-68 | if an empty buffer fails the condition, the finisher pushes nothing and the gathered output is exactly what the integrator pushed |
| Batching.GatherBatches | src/test/java/com/evolutionnext/streamgatherers/SimpleGathererTest.java:42-70 | the gathered batches are each cut at the first moment they met the condition, and they spell out the input minus a dropped tail that never met it |
| Batching.CombinerUnused | src/test/java/com/evolutionnext/streamgatherers/SimpleGathererTest.java:87-89 | gatherers differing only in their combiner gather the same output; this holds by construction, because only sequential runs are modelled |
| PrimeSum.Sum | src/test/java/com/evolutionnext/streamgatherers/SimpleGathererTest.java:53 | `state.stream().mapToInt(x -> x).sum()` over unbounded integers; `PrimeSum.SliceSum` gives its closed form on runs of consecutive integers |
| PrimeSum.Flush | src/test/java/com/evolutionnext/streamgatherers/SimpleGathererTest.java:65 | the condition the integrator and finisher share: prime sum or exactly ten elements; `PrimeSum.PendingBuffer` and `PrimeSum.GatherPrimeSum` state its consequences |
| PrimeSum.AnonymousGatherer | src/test/java/com/evolutionnext/streamgatherers/SimpleGathererTest.java:42-70 | the anonymous-class gatherer: empty list, the batching integrator under `Flush`, no combiner, the re-checking finisher; `PrimeSum.GatherPrimeSum` and `PrimeSum.GatherOneToFifty` state what it gathers |
| PrimeSum.OfGatherer | src/test/java/com/evolutionnext/streamgatherers/SimpleGathererTest.java:86-94 | the `Gatherer.of` gatherer with the same integrator and finisher and an `addAll` combiner; `PrimeSum.OfGatherOneToFifty` states what it gathers |
| PrimeSum.EmptyDoesNotFlush | src/test/java/com/evolutionnext/streamgatherers/SimpleGathererTest.java:65 | an empty buffer (sum 0, size 0) does not meet the flush condition |
| PrimeSum.PendingBuffer | src/test/java/com/evolutionnext/streamgatherers/SimpleGathererTest.java:53 | a buffer waiting between steps holds fewer than ten elements and, if non-empty, has a sum that is not prime |
| PrimeSum.IntegrateStep | src/test/java/com/evolutionnext/streamgatherers/SimpleGathererTest.java:52-57 | from a buffer of fewer than ten elements, a step leaves the buffer empty if the grown buffer was pushed whole, and the old buffer plus the element otherwise; either way it again holds fewer than ten elements, and the answer is true |
| PrimeSum.GatherPrimeSum | src/test/java/com/evolutionnext/streamgatherers/SimpleGathererTest.java:52-56 | every batch holds 1 to 10 elements and has a prime sum or exactly ten elements; the batches followed by a dropped tail (under ten elements, sum not prime) are the input |
| PrimeSum.FinisherIsSilent | src/test/java/com/evolutionnext/streamgatherers/SimpleGathererTest.java:63-68 | the finisher never pushes anything, for every input |
| PrimeSum.OfAgreesWithAnonymous | src/test/java/com/evolutionnext/streamgatherers/SimpleGathererTest.java:77-94 | the `Gatherer.of` gatherer gathers the same output as the anonymous-class one on every input; they differ only in the combiner, so this holds by construction of the sequential model |
| PrimeSum.Expected | src/test/java/com/evolutionnext/streamgatherers/SimpleGathererTest.java:18-28 | the `expected` list of nine batches; `PrimeSum.BatchesAreExpected` matches it batch by batch against the slices the run cuts |
| PrimeSum.BatchesAreExpected | src/test/java/com/evolutionnext/streamgatherers/SimpleGathererTest.java:18-28 | the nine slices of 1..50 the run cuts are the test's expected lists |
| PrimeSum.GatherOneToFifty | src/test/java/com/evolutionnext/streamgatherers/SimpleGathererTest.java:71-72 | gathering 1..50 yields exactly the nine expected batches; 50 is left in the buffer and not emitted |
| PrimeSum.OfGatherOneToFifty | src/test/java/com/evolutionnext/streamgatherers/SimpleGathererTest.java:96-98 | the `Gatherer.of` version passes the same expectation |
| Chunks.Full | src/test/java/com/evolutionnext/streamgatherers/SimpleGathererTest.java:105 | the flush condition of both chunk gatherers, `state.size() == 10`; `Chunks.CutAfterTen` states where it cuts |
| Chunks.NonGreedyGatherer | src/test/java/com/evolutionnext/streamgatherers/SimpleGathererTest.java:103-120 | the non-greedy chunk gatherer; `Chunks.GatherIsChunked` states that it gathers exactly the ten-element chunks |
| Chunks.GreedyGatherer | src/test/java/com/evolutionnext/streamgatherers/SimpleGathererTest.java:127-146 | the greedy chunk gatherer, whose integration logic is the same; `Chunks.GatherIsChunked` states the same of it |
| Chunks.CutAfterTen | src/test/java/com/evolutionnext/streamgatherers/SimpleGathererTest.java:104-109 | from an empty buffer a batch is cut exactly when the tenth element arrives, and never if fewer than ten remain |
| Chunks.RunChunks | src/test/java/com/evolutionnext/streamgatherers/SimpleGathererTest.java:103-111 | the integrator pushes exactly the consecutive ten-element chunks of the input and leaves the remainder (under ten elements) in the buffer |
| Chunks.GatherIsChunked | src/test/java/com/evolutionnext/streamgatherers/SimpleGathererTest.java:113-120 | both chunk gatherers gather exactly the consecutive ten-element chunks: the finisher drops a partial trailing chunk |
| Chunks.ChunkedIndex | src/test/java/com/evolutionnext/streamgatherers/SimpleGathererTest.java:105-109 | chunk i is elements 10i..10i+9 of the input, and the chunks together are the input minus its last |xs| % 10 elements |
| Chunks.ChunksThenRemainder | src/test/java/com/evolutionnext/streamgatherers/SimpleGathererTest.java:116-119 | the chunks followed by the leftover the finisher drops are the whole input |
| Chunks.ChunkedPrefix | src/test/java/com/evolutionnext/streamgatherers/SimpleGathererTest.java:122 | gathering the first k elements gives the first k / 10 chunks of gathering more |
| Chunks.LimitOfNaturals | src/test/java/com/evolutionnext/streamgatherers/SimpleGathererTest.java:139-150 | on 1, 2, 3, ..., `gather(g).limit(n)` with either gatherer yields the chunks 10i+1..10i+10 for i < n |
| Chunks.NonGreedyLimitHundred | src/test/java/com/evolutionnext/streamgatherers/SimpleGathererTest.java:122 | the non-greedy pipeline with `limit(100)` yields the hundred chunks 1..10, 11..20, ..., 991..1000 |
| Chunks.GreedyLimitTen | src/test/java/com/evolutionnext/streamgatherers/SimpleGathererTest.java:150 | the greedy pipeline with `limit(10)` yields the ten chunks 1..10, ..., 91..100 |
| Decimal.IntToString | src/test/java/com/evolutionnext/streamgatherers/custom/CustomStreamTest.java:33 | the `Integer.toString` that `x + "-" + y` applies to x: non-empty, starting with '-' exactly for negative x; `Decimal.IntRoundTrip` proves it reads back |
| Decimal.NatToString | src/test/java/com/evolutionnext/streamgatherers/custom/CustomStreamTest.java:33 | the decimal text of a natural number is non-empty, all digits, and starts with '0' only for zero itself |
| Decimal.IntRoundTrip | src/test/java/com/evolutionnext/streamgatherers/custom/CustomStreamTest.java:33 | parsing the decimal text of any integer, negative ones included, gives the integer back |
| Decimal.IntToStringInjective | src/test/java/com/evolutionnext/streamgatherers/custom/CustomStreamTest.java:33 | different integers have different decimal texts |
| Pairs.Format | src/test/java/com/evolutionnext/streamgatherers/custom/CustomStreamTest.java:30-35 | the `biFunction`, the decimal text of x, then "-", then y; `Pairs.FormatRoundTrip` states that it can be read back |
| Pairs.FormatRoundTrip | src/test/java/com/evolutionnext/streamgatherers/custom/CustomStreamTest.java:30-35 | `x + "-" + y` can be read back into (x, y): the last character is y, the one before it is "-", and the rest is the text of x |
| Pairs.FormatInjective | src/test/java/com/evolutionnext/streamgatherers/custom/CustomStreamTest.java:32-34 | different pairs are formatted to different strings |
| Pairs.PairStep | src/test/java/com/evolutionnext/streamgatherers/custom/CustomStreamTest.java:48-55 | one step answers true and leaves the cell holding exactly what was read; it pushes nothing exactly when the pair's first component equals the cell's value, and otherwise one string that reads back as the pair |
| Pairs.PairGatherer | src/test/java/com/evolutionnext/streamgatherers/custom/CustomStreamTest.java:37-60 | the gatherer: a null cell from `AtomicReference::new`, the integrator, no combiner, no finisher; `Pairs.GatherFormatsEvery` states what it gathers |
| Pairs.DriveKeepsCell | src/test/java/com/evolutionnext/streamgatherers/custom/CustomStreamTest.java:49-53 | from any cell value the run never stops early, never changes the cell, and pushes the formatted pairs whose first component differs from the cell, in order |
| Pairs.NothingMatchesNull | src/test/java/com/evolutionnext/streamgatherers/custom/CustomStreamTest.java:50 | no pair's first component equals a null cell, so no pair is filtered out |
| Pairs.GatherFormatsEvery | src/test/java/com/evolutionnext/streamgatherers/custom/CustomStreamTest.java:37-60 | from the initial null cell the output has one string per pair, the i-th being the i-th pair formatted, nothing is pushed at the end, and the cell is still null |
| Pairs.CrossProduct | src/test/java/com/evolutionnext/streamgatherers/custom/CustomStreamTest.java:62 | the `flatMap` source: |xs| * |ys| pairs; `Pairs.CrossProductIndex` states which pair sits at each position |
| Pairs.CrossProductIndex | src/test/java/com/evolutionnext/streamgatherers/custom/CustomStreamTest.java:62 | for all xs and ys, element i * |ys| + j of the flat-mapped source is (xs[i], ys[j]), so every x meets every y with x outer and y inner |
| Pairs.CrossOfTest | src/test/java/com/evolutionnext/streamgatherers/custom/CustomStreamTest.java:62 | the flat-mapped source is (1,'a'), (1,'b'), (2,'a'), (2,'b'), (3,'a'), (3,'b'), with x outer and y inner |
| Pairs.FormatAllOfTest | src/test/java/com/evolutionnext/streamgatherers/custom/CustomStreamTest.java:33 | the six pairs of the test format to "1-a", "1-b", "2-a", "2-b", "3-a", "3-b" |
| Pairs.GatherCrossProduct | src/test/java/com/evolutionnext/streamgatherers/custom/CustomStreamTest.java:62 | the test's pipeline yields "1-a", "1-b", "2-a", "2-b", "3-a", "3-b" |

## Left out

- `ScopedValuesAPI.java` and `Repository.java` only bind a `ScopedValue` around
  calls into the JDK's `ScopedValue` and `StructuredTaskScope`. Those classes
  are not part of this model. The files' own behaviour is forking threads,
  joining and printing.
- `UserInvoices.java` is a record with no behaviour.
- Parallel evaluation is not modelled. The combiners (`addAll` merges) are
  carried in the gatherer values but never applied.
- Laziness and short-circuiting are not modelled: the greedy/non-greedy
  distinction, `downstream.push`'s answer and `isRejecting`. Downstream always
  accepts, and the greedy and non-greedy chunk gatherers have the same
  integration logic.
- Chunks.NonGreedyLimitHundred: states the result on the prefix 1..1000 of the
  infinite source rather than on the infinite stream. `Chunks.ChunkedPrefix`
  shows that longer prefixes give the same leading chunks.
- Chunks.GreedyLimitTen: states the result on the prefix 1..100 of the infinite
  source, for the same reason.
- Java `int` wrap-around is not modelled. Sums, `j * j` and `Integer.toString`
  use unbounded integers. The sums in the test stay far below 2^31.
  `Primes.IsPrimeIffPrime` holds for this unbounded `isPrime`. Java's differs
  from it on some primes above 46339^2 = 2147302921. From j = 46341 the
  product `j * j` wraps, so `j * j <= i` no longer ends the loop. For
  i = 2^31 - 1 it stays true until j == i, where `i % j == 0` makes Java
  answer false for a prime. Composite i agree, since an odd divisor at most
  sqrt(i) is found before any wrap.
- Printing (`System.out.println`, `forEach(System.out::println)`) is left out.
  The model states the lists that would be printed.
- Object identity is not modelled. All four finishers push the state list
  itself rather than a copy (`downstream.push(state)` and
  `downstream.push(integers)` at SimpleGathererTest.java lines 66, 92, 118 and
  144). Lists are values here, so `Batching.FinishBatch` pushes the leftover
  buffer's value.
- Pairs.Pair / Pairs.Format: both components are non-null, and `second` is a
  Unicode scalar value. Dafny's `char` cannot hold a lone surrogate
  (0xD800-0xDFFF), so `x + "-" + '\uD800'` is not modelled. Neither are the
  NullPointerException that a null `first` raises at `element.first().equals(i)`
  or the `"1-null"` that a null `second` formats to.
- PrimeSum.Sum / Chunks.Full: the integer streams are `seq<int>` of non-null
  values. A null `Integer` in the prime-sum stream would raise a
  NullPointerException when `mapToInt(x -> x)` unboxes it; that is not
  modelled.
- The commented-out `testCustomStreamsWithZeroEach` is not part of the model.
