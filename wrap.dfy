/** Wrap-around arithmetic that turns the carousel's unbounded step counter
    into the index of the testimonial on screen. */
module Wrap {

  /** The displayed index for a raw step counter over `n` testimonials.
      Dafny's `%` is Euclidean, so the result is never negative. */
  function DisplayIndex(raw: int, n: int): (r: nat)
    requires n >= 1
    ensures r < n
  {
    raw % n
  }

  /** A counter that already lies in range is shown as itself. */
  lemma DisplayIndexInRange(raw: int, n: int)
    requires 0 <= raw < n
    ensures DisplayIndex(raw, n) == raw
  {
  }

  /** A multiple of `n` strictly between `-n` and `n` is zero. */
  lemma SmallMultipleIsZero(k: int, n: int)
    requires n >= 1 && -n < k * n < n
    ensures k == 0
  {
  }

  /** Two ways of writing a counter as laps plus a remainder in [0, n)
      agree on the remainder. */
  lemma RemainderUnique(a: int, n: int, q1: int, r1: int, q2: int, r2: int)
    requires n >= 1 && 0 <= r1 < n && 0 <= r2 < n
    requires a == q1 * n + r1 && a == q2 * n + r2
    ensures r1 == r2
  {
    assert (q1 - q2) * n == r2 - r1;
    SmallMultipleIsZero(q1 - q2, n);
  }

  /** Moving the counter by exactly one lap in either direction does not
      change the testimonial shown. */
  lemma DisplayIndexShift(raw: int, n: int)
    requires n >= 1
    ensures DisplayIndex(raw + n, n) == DisplayIndex(raw, n)
    ensures DisplayIndex(raw - n, n) == DisplayIndex(raw, n)
  {
    var q, r := raw / n, raw % n;
    assert raw == q * n + r;
    RemainderUnique(raw + n, n, (raw + n) / n, (raw + n) % n, q + 1, r);
    RemainderUnique(raw - n, n, (raw - n) / n, (raw - n) % n, q - 1, r);
  }

  /** Periodicity: any whole number of laps, forwards or backwards, selects
      the same testimonial. */
  lemma {:induction false} DisplayIndexPeriodic(raw: int, n: int, laps: int)
    requires n >= 1
    ensures DisplayIndex(raw + laps * n, n) == DisplayIndex(raw, n)
    decreases if laps < 0 then -laps else laps
  {
    if laps > 0 {
      DisplayIndexPeriodic(raw, n, laps - 1);
      assert raw + laps * n == (raw + (laps - 1) * n) + n;
      DisplayIndexShift(raw + (laps - 1) * n, n);
    } else if laps < 0 {
      DisplayIndexPeriodic(raw, n, laps + 1);
      assert raw + laps * n == (raw + (laps + 1) * n) - n;
      DisplayIndexShift(raw + (laps + 1) * n, n);
    }
  }

  /** The display index is the unique remainder in [0, n): whenever the
      counter is `laps` whole laps plus `r`, the testimonial shown is `r`. */
  lemma DisplayIndexUnique(raw: int, n: int, laps: int, r: int)
    requires n >= 1 && 0 <= r < n
    requires raw == laps * n + r
    ensures DisplayIndex(raw, n) == r
  {
    DisplayIndexPeriodic(r, n, laps);
    DisplayIndexInRange(r, n);
  }

  /** Whole laps leave no remainder. */
  lemma MultipleHasNoRemainder(k: int, n: int)
    requires n >= 1
    ensures (k * n) % n == 0
  {
    RemainderUnique(k * n, n, (k * n) / n, (k * n) % n, k, 0);
  }

  /** JavaScript's `%`: the remainder truncates toward zero, so it takes the
      sign of the dividend. */
  function TruncatingRemainder(a: int, b: int): (r: int)
    requires b >= 1
    ensures -b < r < b
    ensures a >= 0 ==> r >= 0
    ensures a < 0 ==> r <= 0
    ensures (a - r) % b == 0
  {
    if a >= 0 then
      MultipleHasNoRemainder(a / b, b);
      a % b
    else
      assert a + (-a) % b == (-((-a) / b)) * b;
      MultipleHasNoRemainder(-((-a) / b), b);
      -((-a) % b)
  }

  /** The documented wrap formula of the animation library,
      `min + (((v - min) % range) + range) % range` with `range = max - min`,
      written with JavaScript's truncating remainder. */
  function LibraryWrap(min: int, max: int, v: int): (r: int)
    requires max - min >= 1
    ensures min <= r < max
  {
    var range := max - min;
    min + TruncatingRemainder(TruncatingRemainder(v - min, range) + range, range)
  }

  /** The page calls the library wrap with bounds 0 and the number of
      testimonials; that call agrees with the Euclidean display index for
      every counter value, negative ones included. */
  lemma LibraryWrapIsDisplayIndex(v: int, n: int)
    requires n >= 1
    ensures LibraryWrap(0, n, v) == DisplayIndex(v, n)
  {
    if v >= 0 {
      var r := v % n;
      DisplayIndexShift(r, n);
      DisplayIndexInRange(r, n);
      assert TruncatingRemainder(r + n, n) == (r + n) % n;
    } else {
      var q, s := (-v) / n, (-v) % n;
      assert -v == q * n + s;
      if s == 0 {
        assert v == (-q) * n + 0;
        DisplayIndexUnique(v, n, -q, 0);
        DisplayIndexShift(0, n);
      } else {
        assert v == (-q - 1) * n + (n - s);
        DisplayIndexUnique(v, n, -q - 1, n - s);
        DisplayIndexInRange(n - s, n);
      }
    }
  }
}
