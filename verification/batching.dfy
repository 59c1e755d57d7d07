/** The batching gatherer shape shared by every gatherer of
    `SimpleGathererTest`: the state is a list buffer that starts empty; each
    element is appended, and when the buffer meets the gatherer's condition
    a copy of it is pushed downstream and the buffer is cleared (removing
    every element of a copy of the whole buffer leaves nothing).  The
    finisher pushes the leftover buffer if it meets the same condition.
    The condition is a parameter: prime sum or ten elements, or ten elements
    alone. */
module Batching {
  import opened Streams

  /** One integration step under condition `ready`; the answer is always
      true. */
  function BatchStep<T>(ready: seq<T> -> bool, buffer: seq<T>, element: T): (r: Step<seq<T>, seq<T>>)
    ensures r.proceed
    ensures Flatten(r.pushed) + r.state == buffer + [element]
    ensures |r.pushed| <= 1
    ensures r.pushed != [] ==> r.state == [] && ready(r.pushed[0])
    ensures r.pushed == [] ==> !ready(r.state)
  {
    var grown := buffer + [element];
    if ready(grown) then
      assert Flatten([grown]) == grown + Flatten([]);
      Step([], [grown], true)
    else
      Step(grown, [], true)
  }

  /** The integrator, as the function value a gatherer holds. */
  function Batcher<T>(ready: seq<T> -> bool): (seq<T>, T) -> Step<seq<T>, seq<T>> {
    (buffer, element) => BatchStep(ready, buffer, element)
  }

  /** The finisher: push the leftover buffer if it meets the condition. */
  function FinishBatch<T>(ready: seq<T> -> bool, buffer: seq<T>): (r: seq<seq<T>>)
    ensures r == [] || r == [buffer]
    ensures r != [] <==> ready(buffer)
  {
    if ready(buffer) then [buffer] else []
  }

  function BatchGatherer<T>(ready: seq<T> -> bool, combiner: Combiner<seq<T>>): Gatherer<seq<T>, T, seq<T>> {
    Gatherer([], Batcher(ready), combiner, buffer => FinishBatch(ready, buffer))
  }

  /** `addAll` merge of two partial buffers, the combiner every
      `Gatherer.of` call here passes. */
  function AddAll<T>(left: seq<T>, right: seq<T>): seq<T> {
    left + right
  }

  /** No non-empty prefix of the buffer (the buffer included) meets the
      condition: the buffer is still waiting for its batch to be cut. */
  ghost predicate Pending<T>(ready: seq<T> -> bool, buffer: seq<T>) {
    forall k :: 0 < k <= |buffer| ==> !ready(buffer[..k])
  }

  /** A batch cut at the first moment the condition held: it meets the
      condition and none of its shorter non-empty prefixes did. */
  ghost predicate FirstReady<T>(ready: seq<T> -> bool, batch: seq<T>) {
    |batch| > 0 && ready(batch) && Pending(ready, batch[..|batch| - 1])
  }

  /** A pending buffer stays pending, and a batch pushed from it is cut at
      the first moment it met the condition. */
  lemma StepKeepsPending<T>(ready: seq<T> -> bool, buffer: seq<T>, element: T)
    requires Pending(ready, buffer)
    ensures var r := BatchStep(ready, buffer, element);
            Pending(ready, r.state) && forall b :: b in r.pushed ==> FirstReady(ready, b)
  {
    var grown := buffer + [element];
    assert grown[..|grown| - 1] == buffer;
    assert forall k :: 0 < k <= |buffer| ==> grown[..k] == buffer[..k];
    assert grown[..|grown|] == grown;
  }

  /** The integration loop of a batching gatherer, written first-order:
      the final buffer and every pushed batch. */
  function RunBatches<T>(ready: seq<T> -> bool, buffer: seq<T>, xs: seq<T>): Drained<seq<T>, seq<T>>
    decreases |xs|
  {
    if |xs| == 0 then Drained(buffer, [], false)
    else
      var step := BatchStep(ready, buffer, xs[0]);
      var rest := RunBatches(ready, step.state, xs[1..]);
      Drained(rest.state, step.pushed + rest.out, false)
  }

  /** Driving the integrator through the stream plumbing is the loop above:
      in particular the integrator never asks to stop, so every input
      element is fed. */
  lemma {:induction false} DriveIsRunBatches<T>(ready: seq<T> -> bool, buffer: seq<T>, xs: seq<T>)
    ensures Drive(Batcher(ready), buffer, xs) == RunBatches(ready, buffer, xs)
    ensures !Drive(Batcher(ready), buffer, xs).stopped
    decreases |xs|
  {
    if |xs| > 0 {
      DriveIsRunBatches(ready, BatchStep(ready, buffer, xs[0]).state, xs[1..]);
    }
  }

  /** The pushed batches followed by the leftover buffer spell out the
      starting buffer followed by the input, in order: nothing is lost,
      duplicated or reordered. */
  lemma {:induction false} RunConserves<T>(ready: seq<T> -> bool, buffer: seq<T>, xs: seq<T>)
    ensures var d := RunBatches(ready, buffer, xs);
            Flatten(d.out) + d.state == buffer + xs
    decreases |xs|
  {
    if |xs| > 0 {
      var step := BatchStep(ready, buffer, xs[0]);
      var rest := RunBatches(ready, step.state, xs[1..]);
      RunConserves(ready, step.state, xs[1..]);
      FlattenAppend(step.pushed, rest.out);
      assert [xs[0]] + xs[1..] == xs;
      Splice(buffer, xs[0], xs[1..], Flatten(step.pushed), step.state, Flatten(rest.out), rest.state);
    }
  }

  /** From a pending buffer, every batch is cut at the first moment it met
      the condition, and the leftover buffer is still pending. */
  lemma {:induction false} RunCutsFirstReady<T>(ready: seq<T> -> bool, buffer: seq<T>, xs: seq<T>)
    requires Pending(ready, buffer)
    ensures var d := RunBatches(ready, buffer, xs);
            Pending(ready, d.state) && forall b :: b in d.out ==> FirstReady(ready, b)
    decreases |xs|
  {
    if |xs| > 0 {
      StepKeepsPending(ready, buffer, xs[0]);
      RunCutsFirstReady(ready, BatchStep(ready, buffer, xs[0]).state, xs[1..]);
    }
  }

  /** The finisher never pushes when the empty buffer does not meet the
      condition: whatever is left when the input runs out never met it, so
      trailing elements are dropped and the gathered output is exactly what
      the integrator pushed. */
  lemma FinisherNeverEmits<T>(ready: seq<T> -> bool, combiner: Combiner<seq<T>>, xs: seq<T>)
    requires !ready([])
    ensures var d := RunBatches(ready, [], xs);
            && FinishBatch(ready, d.state) == []
            && Gather(BatchGatherer(ready, combiner), xs) == d.out
  {
    RunCutsFirstReady(ready, [], xs);
    DriveIsRunBatches(ready, [], xs);
    var d := RunBatches(ready, [], xs);
    if |d.state| > 0 {
      assert d.state[..|d.state|] == d.state;
    }
  }

  /** The whole gathered output: batches each cut at the first moment they
      met the condition, whose concatenation is the input minus a dropped
      tail that never met it. */
  lemma GatherBatches<T>(ready: seq<T> -> bool, combiner: Combiner<seq<T>>, xs: seq<T>)
    requires !ready([])
    ensures var out := Gather(BatchGatherer(ready, combiner), xs);
            && (forall b :: b in out ==> FirstReady(ready, b))
            && exists tail :: Flatten(out) + tail == xs && Pending(ready, tail)
  {
    RunCutsFirstReady(ready, [], xs);
    RunConserves(ready, [], xs);
    FinisherNeverEmits(ready, combiner, xs);
    var d := RunBatches(ready, [], xs);
    assert Flatten(Gather(BatchGatherer(ready, combiner), xs)) + d.state == xs && Pending(ready, d.state);
  }

  /** Gatherers that differ only in their combiner gather the same output.
      This holds by construction: only sequential runs are modelled, and
      `Gather` never reads the combiner. */
  lemma CombinerUnused<T>(ready: seq<T> -> bool, c1: Combiner<seq<T>>, c2: Combiner<seq<T>>, xs: seq<T>)
    ensures Gather(BatchGatherer(ready, c1), xs) == Gather(BatchGatherer(ready, c2), xs)
  {
  }

  /** Where the batch that starts at index `start` of `xs` ends (exclusive),
      when the buffer holds xs[start..cur] and xs[cur..] is still to come:
      the first e > cur at which xs[start..e] meets the condition, or
      |xs| + 1 if none does. */
  function CutEnd<T>(ready: seq<T> -> bool, xs: seq<T>, start: nat, cur: nat): (e: nat)
    requires start <= cur <= |xs|
    ensures cur < e <= |xs| + 1
    decreases |xs| - cur
  {
    if cur == |xs| then |xs| + 1
    else if ready(xs[start..cur + 1]) then cur + 1
    else CutEnd(ready, xs, start, cur + 1)
  }

  /** Feeding xs[cur..] to a buffer holding xs[start..cur], when the batch
      is cut at e: the batch xs[start..e] is pushed and the run carries on
      from an empty buffer. */
  lemma {:induction false} RunToCut<T>(ready: seq<T> -> bool, xs: seq<T>, start: nat, cur: nat)
    requires start <= cur <= |xs| && CutEnd(ready, xs, start, cur) <= |xs|
    ensures var e := CutEnd(ready, xs, start, cur);
            var after := RunBatches(ready, [], xs[e..]);
            RunBatches(ready, xs[start..cur], xs[cur..])
              == Drained(after.state, [xs[start..e]] + after.out, false)
    decreases |xs| - cur
  {
    var buffer := xs[start..cur];
    var grown := xs[start..cur + 1];
    assert buffer + [xs[cur..][0]] == grown;
    assert xs[cur..][1..] == xs[cur + 1..];
    if !ready(grown) {
      RunToCut(ready, xs, start, cur + 1);
    }
  }

  /** Feeding xs[cur..] to a buffer holding xs[start..cur], when no cut
      comes: nothing is pushed and everything stays in the buffer. */
  lemma {:induction false} RunWithoutCut<T>(ready: seq<T> -> bool, xs: seq<T>, start: nat, cur: nat)
    requires start <= cur <= |xs| && CutEnd(ready, xs, start, cur) == |xs| + 1
    ensures RunBatches(ready, xs[start..cur], xs[cur..]) == Drained(xs[start..], [], false)
    decreases |xs| - cur
  {
    if cur < |xs| {
      assert xs[start..cur] + [xs[cur..][0]] == xs[start..cur + 1];
      assert xs[cur..][1..] == xs[cur + 1..];
      RunWithoutCut(ready, xs, start, cur + 1);
    } else {
      assert xs[start..cur] == xs[start..];
    }
  }

  /** From an empty buffer at index `start`: the batch xs[start..e] is
      pushed, and the run carries on from xs[e..]. */
  lemma CutFrom<T>(ready: seq<T> -> bool, xs: seq<T>, start: nat)
    requires start <= |xs| && CutEnd(ready, xs, start, start) <= |xs|
    ensures var e := CutEnd(ready, xs, start, start);
            var after := RunBatches(ready, [], xs[e..]);
            RunBatches(ready, [], xs[start..]) == Drained(after.state, [xs[start..e]] + after.out, false)
  {
    assert xs[start..start] == [];
    RunToCut(ready, xs, start, start);
  }

  /** From an empty buffer at index `start`, when no cut comes: the rest of
      the input is left in the buffer. */
  lemma NoCutFrom<T>(ready: seq<T> -> bool, xs: seq<T>, start: nat)
    requires start <= |xs| && CutEnd(ready, xs, start, start) == |xs| + 1
    ensures RunBatches(ready, [], xs[start..]) == Drained(xs[start..], [], false)
  {
    assert xs[start..start] == [];
    RunWithoutCut(ready, xs, start, start);
  }
}
