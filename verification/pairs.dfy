/** The pair-formatting gatherer of `CustomStreamTest`: its state is an
    `AtomicReference<Integer>` cell that starts out null; for each pair the
    integrator reads the cell and, when the pair's first component differs
    from what it read, writes the value it read back into the cell and pushes
    `first + "-" + second`.  Because the write-back stores what was just
    read, the cell stays null and every pair is formatted. */
module Pairs {
  import opened Options
  import opened Streams
  import opened Decimal

  /** `MyPair<Integer, Character>`. */
  datatype Pair = Pair(first: int, second: char)

  /** The `biFunction`: `x + "-" + y`. */
  function Format(x: int, y: char): string {
    IntToString(x) + "-" + [y]
  }

  /** Reads back a formatted pair: the last character is the second
      component, the one before it the separator, and the rest the
      integer. */
  function ParsePair(s: string): (r: Option<Pair>)
    ensures r.Some? ==> |s| >= 3 && s[|s| - 2] == '-' && r.value.second == s[|s| - 1]
  {
    if |s| < 3 || s[|s| - 2] != '-' then None
    else match ParseInt(s[..|s| - 2]) {
      case None => None
      case Some(x) => Some(Pair(x, s[|s| - 1]))
    }
  }

  /** Formatting loses nothing: the pair can be read back. */
  lemma FormatRoundTrip(x: int, y: char)
    ensures ParsePair(Format(x, y)) == Some(Pair(x, y))
  {
    var s := Format(x, y);
    assert s[..|s| - 2] == IntToString(x);
    IntRoundTrip(x);
  }

  /** Different pairs are formatted differently. */
  lemma FormatInjective(p: Pair, q: Pair)
    requires Format(p.first, p.second) == Format(q.first, q.second)
    ensures p == q
  {
    FormatRoundTrip(p.first, p.second);
    FormatRoundTrip(q.first, q.second);
  }

  /** `integrate`: the cell (None is null) is read; `first.equals(i)` is
      false for a null i; on a mismatch the read value is stored back and
      the formatted pair is pushed.  The answer is always true. */
  function PairStep(cell: Option<int>, element: Pair): (r: Step<Option<int>, string>)
    ensures r.proceed && r.state == cell
    ensures |r.pushed| <= 1
    ensures r.pushed == [] <==> cell == Some(element.first)
    ensures r.pushed != [] ==> ParsePair(r.pushed[0]) == Some(element)
  {
    var i := cell;
    if !(i.Some? && element.first == i.value) then
      FormatRoundTrip(element.first, element.second);
      Step(i, [Format(element.first, element.second)], true)
    else
      Step(cell, [], true)
  }

  function PairIntegrator(): (Option<int>, Pair) -> Step<Option<int>, string> {
    (cell, element) => PairStep(cell, element)
  }

  /** The gatherer: a null cell to start, no combiner and no finisher. */
  function PairGatherer(): Gatherer<Option<int>, Pair, string> {
    Gatherer(None, PairIntegrator(), Sequential, NoFinisher)
  }

  /** The reference meaning: every pair formatted, in order. */
  function FormatAll(ps: seq<Pair>): (r: seq<string>)
    ensures |r| == |ps|
    decreases |ps|
  {
    if |ps| == 0 then [] else [Format(ps[0].first, ps[0].second)] + FormatAll(ps[1..])
  }

  /** The i-th string is the i-th pair formatted. */
  lemma {:induction false} FormatAllIndex(ps: seq<Pair>, i: nat)
    requires i < |ps|
    ensures FormatAll(ps)[i] == Format(ps[i].first, ps[i].second)
    decreases i
  {
    if i > 0 {
      FormatAllIndex(ps[1..], i - 1);
    }
  }

  /** The pairs whose first component differs from the cell's value. */
  function Mismatched(cell: Option<int>, ps: seq<Pair>): (r: seq<Pair>)
    ensures |r| <= |ps|
    decreases |ps|
  {
    if |ps| == 0 then []
    else if cell.Some? && ps[0].first == cell.value then Mismatched(cell, ps[1..])
    else [ps[0]] + Mismatched(cell, ps[1..])
  }

  /** A null cell matches no pair. */
  lemma {:induction false} NothingMatchesNull(ps: seq<Pair>)
    ensures Mismatched(None, ps) == ps
    decreases |ps|
  {
    if |ps| > 0 {
      NothingMatchesNull(ps[1..]);
      assert [ps[0]] + ps[1..] == ps;
    }
  }

  /** Driving the integrator from any cell: the cell never changes, nothing
      asks to stop, and the output is every pair that mismatched the cell,
      formatted, in order. */
  lemma {:induction false} DriveKeepsCell(cell: Option<int>, ps: seq<Pair>)
    ensures var d := Drive(PairIntegrator(), cell, ps);
            d.state == cell && !d.stopped && d.out == FormatAll(Mismatched(cell, ps))
    decreases |ps|
  {
    if |ps| > 0 {
      DriveKeepsCell(cell, ps[1..]);
      var step := PairStep(cell, ps[0]);
      var rest := Mismatched(cell, ps[1..]);
      if step.pushed == [] {
        assert step.pushed + FormatAll(rest) == FormatAll(rest);
      } else {
        assert ([ps[0]] + rest)[1..] == rest;
      }
    }
  }

  /** The gathered output: one formatted string per pair, in order, and
      nothing more at the end of the stream. */
  lemma GatherFormatsEvery(ps: seq<Pair>)
    ensures var out := Gather(PairGatherer(), ps);
            && |out| == |ps|
            && (forall i :: 0 <= i < |ps| ==> out[i] == Format(ps[i].first, ps[i].second))
            && Drive(PairIntegrator(), None, ps).state == None
  {
    DriveKeepsCell(None, ps);
    NothingMatchesNull(ps);
    forall i | 0 <= i < |ps|
      ensures FormatAll(ps)[i] == Format(ps[i].first, ps[i].second)
    {
      FormatAllIndex(ps, i);
    }
  }

  /** `flatMap(x -> ys.map(y -> new MyPair<>(x, y)))`: x outer, y inner. */
  function CrossProduct(xs: seq<int>, ys: seq<char>): (r: seq<Pair>)
    ensures |r| == |xs| * |ys|
    decreases |xs|
  {
    if |xs| == 0 then []
    else seq(|ys|, j requires 0 <= j < |ys| => Pair(xs[0], ys[j])) + CrossProduct(xs[1..], ys)
  }

  /** Pair number i * |ys| + j of the cross product is (xs[i], ys[j]):
      every x is paired with every y, x outer and y inner. */
  lemma {:induction false} CrossProductIndex(xs: seq<int>, ys: seq<char>, i: nat, j: nat)
    requires i < |xs| && j < |ys|
    ensures i * |ys| + j < |CrossProduct(xs, ys)|
    ensures CrossProduct(xs, ys)[i * |ys| + j] == Pair(xs[i], ys[j])
    decreases i
  {
    MulBelow(i, |xs|, |ys|, j);
    if i > 0 {
      CrossProductIndex(xs[1..], ys, i - 1, j);
      assert i * |ys| + j == |ys| + ((i - 1) * |ys| + j);
    }
  }

  /** i * n + j < m * n when i < m and j < n. */
  lemma MulBelow(i: nat, m: nat, n: nat, j: nat)
    requires i < m && j < n
    ensures i * n + j < m * n
  {
    var k := m - i;
    assert k * n == (k - 1) * n + n;
    assert (k - 1) * n >= 0;
    assert m * n == (i + k) * n == i * n + k * n;
  }

  /** The six pairs of the test, x outer and y inner. */
  lemma CrossOfTest()
    ensures CrossProduct([1, 2, 3], ['a', 'b'])
              == [Pair(1, 'a'), Pair(1, 'b'), Pair(2, 'a'), Pair(2, 'b'), Pair(3, 'a'), Pair(3, 'b')]
  {
    assert CrossProduct([3], ['a', 'b']) == [Pair(3, 'a'), Pair(3, 'b')];
    assert [1, 2, 3][1..] == [2, 3];
    assert [2, 3][1..] == [3];
  }

  /** A one-digit first component is written as that digit. */
  lemma FormatOneDigit(x: int, y: char)
    requires 0 <= x < 10
    ensures Format(x, y) == [DigitChar(x), '-', y]
  {
  }

  /** The six strings of the test. */
  lemma FormatsOfTest()
    ensures Format(1, 'a') == "1-a" && Format(1, 'b') == "1-b"
    ensures Format(2, 'a') == "2-a" && Format(2, 'b') == "2-b"
    ensures Format(3, 'a') == "3-a" && Format(3, 'b') == "3-b"
  {
    FormatOneDigit(1, 'a');
    FormatOneDigit(1, 'b');
    FormatOneDigit(2, 'a');
    FormatOneDigit(2, 'b');
    FormatOneDigit(3, 'a');
    FormatOneDigit(3, 'b');
  }

  /** The six pairs of the test, formatted. */
  lemma FormatAllOfTest()
    ensures FormatAll([Pair(1, 'a'), Pair(1, 'b'), Pair(2, 'a'), Pair(2, 'b'), Pair(3, 'a'), Pair(3, 'b')])
              == ["1-a", "1-b", "2-a", "2-b", "3-a", "3-b"]
  {
    var ps := [Pair(1, 'a'), Pair(1, 'b'), Pair(2, 'a'), Pair(2, 'b'), Pair(3, 'a'), Pair(3, 'b')];
    FormatsOfTest();
    FormatAllIndex(ps, 0);
    FormatAllIndex(ps, 1);
    FormatAllIndex(ps, 2);
    FormatAllIndex(ps, 3);
    FormatAllIndex(ps, 4);
    FormatAllIndex(ps, 5);
  }

  /** The test's scenario: 1..3 crossed with 'a', 'b' gathers to
      "1-a", "1-b", "2-a", "2-b", "3-a", "3-b". */
  lemma GatherCrossProduct()
    ensures Gather(PairGatherer(), CrossProduct([1, 2, 3], ['a', 'b']))
              == ["1-a", "1-b", "2-a", "2-b", "3-a", "3-b"]
  {
    var ps := CrossProduct([1, 2, 3], ['a', 'b']);
    CrossOfTest();
    DriveKeepsCell(None, ps);
    NothingMatchesNull(ps);
    FormatAllOfTest();
  }
}
