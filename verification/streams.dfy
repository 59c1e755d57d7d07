/** The sequential part of `Stream.gather`: a gatherer is an initial state,
    an integrator fed one element at a time, and a finisher run on the final
    state.  Streams are finite sequences here; an infinite source is studied
    through its finite prefixes. */
module Streams {

  /** What one call of an integrator leaves behind: the new state, the
      elements it pushed downstream (in push order), and its boolean answer
      (false asks the stream to stop sending elements). */
  datatype Step<S, R> = Step(state: S, pushed: seq<R>, proceed: bool)

  /** How partial states of a parallel run are merged.  Only sequential runs
      are modelled, so the combiner is carried but never applied. */
  datatype Combiner<!S> = Sequential | Merge(merge: (S, S) -> S)

  datatype Gatherer<!S, -T, R> = Gatherer(
    initializer: S,
    integrator: (S, T) -> Step<S, R>,
    combiner: Combiner<S>,
    finisher: S -> seq<R>)

  /** The result of feeding a sequence to an integrator: final state, all
      pushed elements, and whether some integration step asked to stop (the
      elements after that step are never consumed). */
  datatype Drained<S, R> = Drained(state: S, out: seq<R>, stopped: bool)

  /** Feeds `xs` to the integrator in encounter order, stopping after the
      first element whose integration answers false. */
  function Drive<S, T, R>(integrator: (S, T) -> Step<S, R>, state: S, xs: seq<T>): (d: Drained<S, R>)
    decreases |xs|
  {
    if |xs| == 0 then Drained(state, [], false)
    else
      var step := integrator(state, xs[0]);
      if !step.proceed then Drained(step.state, step.pushed, true)
      else
        var rest := Drive(integrator, step.state, xs[1..]);
        Drained(rest.state, step.pushed + rest.out, rest.stopped)
  }

  /** `stream.gather(g)` collected to a list: every element the integrator
      pushed, then whatever the finisher pushes from the final state. */
  function Gather<S, T, R>(g: Gatherer<S, T, R>, xs: seq<T>): seq<R> {
    var d := Drive(g.integrator, g.initializer, xs);
    d.out + g.finisher(d.state)
  }

  /** The finisher a gatherer gets when it does not override one. */
  function NoFinisher<S, R>(s: S): seq<R> {
    []
  }

  /** `limit(n)`: the first n elements, or all of them if there are fewer. */
  function Limit<T>(xs: seq<T>, n: nat): (r: seq<T>)
    ensures |r| == if n <= |xs| then n else |xs|
    ensures forall i :: 0 <= i < |r| ==> r[i] == xs[i]
  {
    if n <= |xs| then xs[..n] else xs
  }

  /** `IntStream.rangeClosed(lo, hi)`: lo, lo + 1, ..., hi, and nothing when
      hi < lo. */
  function RangeClosed(lo: int, hi: int): (r: seq<int>)
    ensures |r| == if hi < lo then 0 else hi - lo + 1
    ensures forall i :: 0 <= i < |r| ==> r[i] == lo + i
  {
    if hi < lo then [] else seq(hi - lo + 1, i => lo + i)
  }

  /** The concatenation of a list of lists. */
  function Flatten<T>(xss: seq<seq<T>>): seq<T> {
    if |xss| == 0 then [] else xss[0] + Flatten(xss[1..])
  }

  lemma {:induction false} FlattenAppend<T>(a: seq<seq<T>>, b: seq<seq<T>>)
    ensures Flatten(a + b) == Flatten(a) + Flatten(b)
    decreases |a|
  {
    if |a| == 0 {
      assert a + b == b;
    } else {
      assert (a + b)[1..] == a[1..] + b;
      FlattenAppend(a[1..], b);
    }
  }

  /** Splicing a step's output in front of the rest of a run: if p + s is
      the buffer grown by x, and q + r is s followed by xs, then (p + q) + r
      is the buffer followed by x and then xs. */
  lemma Splice<T>(buffer: seq<T>, x: T, xs: seq<T>, p: seq<T>, s: seq<T>, q: seq<T>, r: seq<T>)
    requires p + s == buffer + [x]
    requires q + r == s + xs
    ensures (p + q) + r == buffer + ([x] + xs)
  {
    assert (p + q) + r == p + (q + r);
    assert p + (s + xs) == (p + s) + xs;
    assert (buffer + [x]) + xs == buffer + ([x] + xs);
  }
}
