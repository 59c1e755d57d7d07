/** Primality as the prime-sum gatherer tests it: trial division by 2 and
    then by odd candidates up to the square root. */
module Primes {

  /** The textbook definition the trial-division test is measured against. */
  ghost predicate Prime(n: int) {
    n > 1 && forall d :: 2 <= d < n ==> n % d != 0
  }

  /** The loop of `isPrime`: tries the odd candidates j, j + 2, ... while
      j * j <= i, and fails on the first one that divides i. */
  function TrialDivision(i: int, j: int): bool
    requires j >= 1
    decreases i - j
  {
    if j * j > i then true
    else if i % j == 0 then false
    else
      MulGrows(j, j);
      TrialDivision(i, j + 2)
  }

  /** `isPrime`: nothing at or below 1 is prime, 2 is, other even numbers
      are not, and an odd number is prime when no odd j >= 3 with
      j * j <= i divides it.  Java's `%` truncates toward zero, which agrees
      with Dafny's for the non-negative operands used here. */
  function IsPrime(i: int): bool {
    if i <= 1 then false
    else if i == 2 then true
    else if i % 2 == 0 then false
    else TrialDivision(i, 3)
  }

  /** No odd d >= j with d * d <= i divides i. */
  ghost predicate NoOddDivisorFrom(i: int, j: int) {
    forall d :: j <= d && d * d <= i && d % 2 == 1 ==> i % d != 0
  }

  lemma MulGrows(a: int, b: int)
    requires a >= 1 && b >= 1
    ensures a <= a * b
  {
    assert a * b == a * (b - 1) + a;
    assert a * (b - 1) >= 0;
  }

  lemma MulMonotone(a: int, b: int)
    requires 0 <= a <= b
    ensures a * a <= b * b
  {
    assert b * b - a * a == (b - a) * (b + a);
    assert (b - a) * (b + a) >= 0;
  }

  /** A multiple of b leaves no remainder on division by b. */
  lemma MultipleMod(a: int, b: int)
    requires b > 0
    ensures (a * b) % b == 0
  {
    var q, r := (a * b) / b, (a * b) % b;
    assert a * b == b * q + r;
    assert b * (a - q) == r;
    if a - q >= 1 {
      MulGrows(b, a - q);
      assert false;
    } else if a - q <= -1 {
      assert b * (q - a) == -r;
      MulGrows(b, q - a);
      assert false;
    }
  }

  /** Any divisor of an odd number is odd. */
  lemma DivisorOfOddIsOdd(i: int, m: int, k: int)
    requires i == m * k && i % 2 == 1
    ensures m % 2 == 1
  {
    if m % 2 == 0 {
      var h := m / 2;
      assert m == 2 * h;
      assert i == (h * k) * 2;
      MultipleMod(h * k, 2);
      assert false;
    }
  }

  /** The loop answers exactly whether an odd divisor at or beyond j exists
      below the square root. */
  lemma {:induction false} TrialDivisionMeaning(i: int, j: int)
    requires j >= 3 && j % 2 == 1
    ensures TrialDivision(i, j) <==> NoOddDivisorFrom(i, j)
    decreases i - j
  {
    if j * j > i {
      forall d | j <= d
        ensures d * d > i
      {
        MulMonotone(j, d);
      }
    } else if i % j == 0 {
      assert !NoOddDivisorFrom(i, j);
    } else {
      MulGrows(j, j);
      TrialDivisionMeaning(i, j + 2);
      if NoOddDivisorFrom(i, j + 2) {
        forall d | j <= d && d * d <= i && d % 2 == 1
          ensures i % d != 0
        {
          if d != j {
            assert j + 2 <= d;
          }
        }
      }
    }
  }

  /** A composite odd i has an odd divisor m >= 3 with m * m <= i. */
  lemma SmallOddDivisor(i: int, d: int) returns (m: int)
    requires i >= 3 && i % 2 == 1 && 2 <= d < i && i % d == 0
    ensures 3 <= m && m * m <= i && m % 2 == 1 && i % m == 0
  {
    var e := i / d;
    assert i == d * e;
    if e <= 1 {
      assert false;
    }
    if d <= e {
      m := d;
      MulMonotone(d, e);
      assert m * m <= d * e by {
        assert d * e - d * d == d * (e - d);
        assert d * (e - d) >= 0;
      }
    } else {
      m := e;
      assert m * m <= d * e by {
        assert d * e - e * e == e * (d - e);
        assert e * (d - e) >= 0;
      }
      MultipleMod(d, e);
    }
    DivisorOfOddIsOdd(i, m, if m == d then e else d);
  }

  /** `isPrime` decides primality: the trial-division shortcut (only 2 and
      odd candidates up to the square root) loses nothing. */
  lemma IsPrimeIffPrime(i: int)
    ensures IsPrime(i) <==> Prime(i)
  {
    if i <= 1 || i == 2 {
    } else if i % 2 == 0 {
      assert !Prime(i) by { assert i % 2 == 0; }
    } else {
      TrialDivisionMeaning(i, 3);
      if TrialDivision(i, 3) {
        forall d | 2 <= d < i
          ensures i % d != 0
        {
          if i % d == 0 {
            var m := SmallOddDivisor(i, d);
            assert false;
          }
        }
      } else {
        var d :| 3 <= d && d * d <= i && d % 2 == 1 && i % d == 0;
        MulGrows(d, d);
        assert d < d * d;
        assert !Prime(i);
      }
    }
  }
}
