/**
  The cadence arithmetic behind `is_input_step` and `is_training_step`.

  An event (input injection or a training step) has a start offset, a
  delay (the number of extra steps between two firings; 0 means every
  step) and a tracker (the number of firings so far minus one, -1 before
  the first). It is due when the floor quotient of `counter - start` by
  `delay + 1` exceeds the tracker.
*/
module Cadence {

  /** Python's `a // b`: the quotient rounded toward negative infinity. */
  function FloorDiv(a: int, b: int): int
    requires b != 0
  {
    if b > 0 then a / b else (-a) / (-b)
  }

  /** The floor quotient `q` is the one with `b * q` at or below `a` and within `b` of it. */
  lemma FloorDivBounds(a: int, b: int)
    requires b != 0
    ensures b > 0 ==> b * FloorDiv(a, b) <= a < b * FloorDiv(a, b) + b
    ensures b < 0 ==> b * FloorDiv(a, b) >= a > b * FloorDiv(a, b) + b
  {
  }

  /** `(counter - start) // (delay + 1) > tracker`; `delay == -1` divides by zero. */
  predicate IsDue(counter: int, start: int, delay: int, tracker: int)
    requires delay != -1
  {
    FloorDiv(counter - start, delay + 1) > tracker
  }

  /**
    With a non-negative delay an event is due exactly when the counter has
    reached the deadline of the next firing, `start + (tracker + 1) * (delay + 1)`.
  */
  lemma DueIffDeadline(counter: int, start: int, delay: int, tracker: int)
    requires delay >= 0
    ensures IsDue(counter, start, delay, tracker)
        <==> counter >= start + (tracker + 1) * (delay + 1)
  {
    var p, a := delay + 1, counter - start;
    var q := FloorDiv(a, p);
    FloorDivBounds(a, p);
    assert (tracker + 1) * (delay + 1) == p * (tracker + 1);
    if q > tracker {
      MulMonotone(p, tracker + 1, q);
    } else {
      MulMonotone(p, q + 1, tracker + 1);
      assert p * (q + 1) == p * q + p;
    }
  }

  lemma MulMonotone(p: int, x: int, y: int)
    requires p >= 0 && x <= y
    ensures p * x <= p * y
  {
    if p > 0 && x < y {
      MulAtLeast(p, y - x);
      assert p * y == p * x + p * (y - x);
    }
  }

  /** Reference definition: the event fires at `start`, `start + (delay + 1)`, `start + 2 * (delay + 1)`, ... */
  predicate FiresAt(k: int, start: int, delay: nat)
  {
    k >= start && (k - start) % (delay + 1) == 0
  }

  lemma FiresAtMultiples(start: int, delay: nat, j: nat)
    ensures FiresAt(start + j * (delay + 1), start, delay)
  {
    assert (j * (delay + 1)) % (delay + 1) == 0 by {
      DivisionUnique(j * (delay + 1), delay + 1, j, 0);
    }
  }

  lemma FiresOnlyAtMultiples(k: int, start: int, delay: nat)
    requires FiresAt(k, start, delay)
    ensures (k - start) / (delay + 1) >= 0
    ensures k == start + ((k - start) / (delay + 1)) * (delay + 1)
  {
    var m, p := k - start, delay + 1;
    assert m == p * (m / p) + m % p;
  }

  /** The number of steps among 0, 1, ..., n - 1 at which the event fires. */
  function Fired(n: nat, start: int, delay: nat): nat
  {
    if n == 0 then 0
    else Fired(n - 1, start, delay) + (if FiresAt(n - 1, start, delay) then 1 else 0)
  }

  lemma MulAtLeast(p: int, d: int)
    requires p > 0 && d >= 1
    ensures p * d >= p
  {
    assert p * d == p * (d - 1) + p;
  }

  /** Euclidean division has a single quotient and remainder. */
  lemma DivisionUnique(a: int, p: int, q: int, r: int)
    requires p > 0 && 0 <= r < p && a == p * q + r
    ensures a / p == q && a % p == r
  {
    var q', r' := a / p, a % p;
    assert p * q' + r' == p * q + r;
    if q' < q {
      assert p * (q - q') == r' - r;
      MulAtLeast(p, q - q');
    } else if q' > q {
      assert p * (q' - q) == r - r';
      MulAtLeast(p, q' - q);
    }
  }

  /** Moving from `m - 1` to `m` raises the quotient exactly when `p` divides `m`. */
  lemma QuotientStep(m: int, p: int)
    requires p > 0
    ensures m / p == (m - 1) / p + (if m % p == 0 then 1 else 0)
  {
    var q, r := m / p, m % p;
    assert m == p * q + r;
    if r == 0 {
      assert p * (q - 1) == p * q - p;
      DivisionUnique(m - 1, p, q - 1, p - 1);
    } else {
      DivisionUnique(m - 1, p, q, r - 1);
    }
  }

  /** Closed form of the firing count for a non-negative start. */
  lemma {:induction false} FiredClosedForm(n: nat, start: int, delay: nat)
    requires start >= 0
    ensures Fired(n, start, delay)
         == if n <= start then 0 else (n - 1 - start) / (delay + 1) + 1
  {
    if n > 0 {
      FiredClosedForm(n - 1, start, delay);
      if n - 1 == start {
        DivisionUnique(0, delay + 1, 0, 0);
      } else if n - 1 > start {
        QuotientStep(n - 1 - start, delay + 1);
      }
    }
  }

  /**
    If the tracker holds the number of past firings minus one (as it does
    from a fresh start), the event is due at exactly the reference steps.
  */
  lemma DueIffFires(counter: nat, start: int, delay: nat)
    requires start >= 0
    ensures IsDue(counter, start, delay, Fired(counter, start, delay) - 1)
        <==> FiresAt(counter, start, delay)
  {
    var p := delay + 1;
    FiredClosedForm(counter, start, delay);
    if counter < start {
      DueIffDeadline(counter, start, delay, -1);
    } else if counter == start {
      DivisionUnique(0, p, 0, 0);
    } else {
      QuotientStep(counter - start, p);
    }
  }

  /**
    One step keeps the tracker equal to the number of firings minus one:
    it is advanced exactly when the event is due.
  */
  lemma TrackerCountsFirings(counter: nat, start: int, delay: nat, tracker: int)
    requires start >= 0 && tracker == Fired(counter, start, delay) - 1
    ensures (if IsDue(counter, start, delay, tracker) then tracker + 1 else tracker)
         == Fired(counter + 1, start, delay) - 1
  {
    DueIffFires(counter, start, delay);
  }
}
