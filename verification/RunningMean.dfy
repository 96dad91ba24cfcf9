/**
 The average execution time kept by the bidding service: an integer that is moved towards each
 new value by a division that truncates (services/bidding_service/generate_bids_binary_reactor.cc).
 */
module RunningMean {

  /** Division of C++: it rounds toward zero. */
  function TruncDiv(a: int, n: int): int
    requires n > 0
  {
    if a >= 0 then a / n else -((-a) / n)
  }

  function Moved(avg: int, value: int, n: int): int
    requires n > 0
  {
    avg + TruncDiv(value - avg, n)
  }

  /** The average after some values, from any start. */
  function Average(start: int, values: seq<int>): int {
    if values == [] then start
    else Moved(Average(start, values[..|values| - 1]), values[|values| - 1], |values|)
  }

  function Sum(values: seq<int>): int {
    if values == [] then 0 else Sum(values[..|values| - 1]) + values[|values| - 1]
  }

  /** A step never overshoots the new value. */
  lemma MovedBetween(avg: int, value: int, n: int)
    requires n > 0
    ensures avg <= value ==> avg <= Moved(avg, value, n) <= value
    ensures avg >= value ==> avg >= Moved(avg, value, n) >= value
    ensures n == 1 ==> Moved(avg, value, n) == value
  {
    DivBounds(if value >= avg then value - avg else avg - value, n);
  }

  /** A step goes one part in `n` of the way, rounded toward where it started. */
  lemma MovedRounds(avg: int, value: int, n: int)
    requires n > 0
    ensures value >= avg ==> 0 <= (value - avg) - n * (Moved(avg, value, n) - avg) < n
    ensures value <= avg ==> 0 <= (avg - value) - n * (avg - Moved(avg, value, n)) < n
  {
    DivBounds(if value >= avg then value - avg else avg - value, n);
  }

  lemma {:induction false} TimesAtLeast(n: nat, q: nat)
    requires n >= 1
    ensures n * q >= q
  {
    if n > 1 {
      TimesAtLeast(n - 1, q);
      assert n * q == (n - 1) * q + q;
    }
  }

  lemma DivBounds(a: nat, n: nat)
    requires n > 0
    ensures 0 <= a / n <= a
    ensures n * (a / n) <= a < n * (a / n) + n
  {
    var q, r := a / n, a % n;
    assert a == n * q + r && 0 <= r < n;
    assert q >= 0;
    TimesAtLeast(n, q);
  }

  /** From the first value on, the average is between the smallest and the greatest value seen. */
  lemma {:induction false} AverageBetween(start: int, values: seq<int>, lo: int, hi: int)
    requires values != [] && forall i :: 0 <= i < |values| ==> lo <= values[i] <= hi
    ensures lo <= Average(start, values) <= hi
  {
    var n := |values|;
    MovedBetween(Average(start, values[..n - 1]), values[n - 1], n);
    if n > 1 {
      AverageBetween(start, values[..n - 1], lo, hi);
    }
  }

  /** What one step loses to truncation is less than the number of values. */
  lemma MovedError(avg: int, value: int, n: int)
    requires n > 0
    ensures -n < n * Moved(avg, value, n) - ((n - 1) * avg + value) < n
  {
    var d := value - avg;
    var q := TruncDiv(d, n);
    DivBounds(if d >= 0 then d else -d, n);
    assert -n < n * q - d < n by {
      if d < 0 {
        assert n * q == -(n * ((-d) / n));
      }
    }
    assert n * (avg + q) == n * avg + n * q;
    assert (n - 1) * avg == n * avg - avg;
  }

  lemma NextTriangle(n: int)
    ensures n * (n - 1) == (n - 1) * (n - 2) + 2 * (n - 1)
  {
  }

  /** The products are passed as numbers to keep the reasoning linear. */
  lemma AddErrors(n: int, before: int, after: int, oldBound: int, newBound: int, value: int, sum: int)
    requires -n < after - (before + value) < n
    requires -oldBound <= 2 * (before - sum) <= oldBound && newBound == oldBound + 2 * (n - 1)
    ensures -newBound <= 2 * (after - (sum + value)) <= newBound
  {
  }

  /** The total error grows with the square of the number of values, whatever the average started from. */
  lemma {:induction false} AverageError(start: int, values: seq<int>)
    requires values != []
    ensures var n := |values|;
            -(n * (n - 1)) <= 2 * (n * Average(start, values) - Sum(values)) <= n * (n - 1)
  {
    var n := |values|;
    var avg := Average(start, values[..n - 1]);
    MovedError(avg, values[n - 1], n);
    if n == 1 {
      MovedBetween(avg, values[0], 1);
    } else {
      AverageError(start, values[..n - 1]);
      NextTriangle(n);
      AddErrors(n, (n - 1) * avg, n * Average(start, values), (n - 1) * (n - 2), n * (n - 1), values[n - 1], Sum(values[..n - 1]));
    }
  }

  lemma Step(start: int, values: seq<int>, value: int)
    ensures Average(start, values + [value]) == Moved(Average(start, values), value, |values| + 1)
    ensures Sum(values + [value]) == Sum(values) + value
    ensures Average(start, []) == start && Sum([]) == 0
  {
    hide Moved;
    assert (values + [value])[..|values|] == values;
  }

  /** `top`, `top - 1`, and so on: `n` values. */
  function Falling(top: int, n: nat): (values: seq<int>)
    ensures |values| == n
  {
    if n == 0 then [] else Falling(top, n - 1) + [top - (n - 1)]
  }

  lemma MovedStays(top: int, k: nat)
    ensures Moved(top, top - k, k + 1) == top
  {
    assert k / (k + 1) == 0 by { SmallQuotient(k, k + 1); }
  }

  lemma SmallQuotient(a: nat, n: nat)
    requires a < n
    ensures a / n == 0
  {
  }

  /**
   The bound is met for every number of values: falling by one each time, they keep the average at the first one,
   because truncation loses almost one unit at every step.
   */
  lemma {:induction false} BoundIsTight(start: int, top: int, n: nat)
    requires n >= 1
    ensures Average(start, Falling(top, n)) == top
    ensures 2 * (n * Average(start, Falling(top, n)) - Sum(Falling(top, n))) == n * (n - 1)
  {
    hide Moved, Average, Sum;
    var front, value := Falling(top, n - 1), top - (n - 1);
    Step(start, front, value);
    if n == 1 {
      MovedBetween(Average(start, front), value, 1);
      assert front == [];
      Step(start, [], value);
    } else {
      BoundIsTight(start, top, n - 1);
      MovedStays(top, n - 1);
      NextTriangle(n);
      assert n * top == (n - 1) * top + top;
    }
  }
}
