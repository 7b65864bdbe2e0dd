/**
  The scheduling state of an experiment as a value: the step counter and
  the two trackers, advanced by one `run_step` at a time.
*/
module Schedule {
  import Cadence

  /** The four cadence parameters given to the experiment's constructor. */
  datatype Timing = Timing(inputStart: int, inputDelay: int, trainingStart: int, trainingDelay: int)
  {
    /** Neither divisor `delay + 1` is zero, so both cadence predicates can be evaluated. */
    predicate Defined()
    {
      inputDelay != -1 && trainingDelay != -1
    }
  }

  datatype Sched = Sched(counter: int, inputTracker: int, trainingTracker: int)

  /** The state of a newly built experiment. */
  const Fresh := Sched(0, -1, -1)

  predicate InputDue(tm: Timing, s: Sched)
    requires tm.Defined()
  {
    Cadence.IsDue(s.counter, tm.inputStart, tm.inputDelay, s.inputTracker)
  }

  predicate TrainingDue(tm: Timing, s: Sched)
    requires tm.Defined()
  {
    Cadence.IsDue(s.counter, tm.trainingStart, tm.trainingDelay, s.trainingTracker)
  }

  /** An input-or-training step: the drivers hand such a step its own feed. */
  predicate Due(tm: Timing, s: Sched)
    requires tm.Defined()
  {
    InputDue(tm, s) || TrainingDue(tm, s)
  }

  /**
    The scheduling effect of one `run_step`: the counter advances by one,
    and each tracker advances by one on its due step and stays otherwise.
  */
  function Step(tm: Timing, s: Sched): (r: Sched)
    requires tm.Defined()
    ensures r.counter == s.counter + 1
    ensures r.inputTracker == s.inputTracker || r.inputTracker == s.inputTracker + 1
    ensures r.inputTracker == s.inputTracker + 1 <==> InputDue(tm, s)
    ensures r.trainingTracker == s.trainingTracker || r.trainingTracker == s.trainingTracker + 1
    ensures r.trainingTracker == s.trainingTracker + 1 <==> TrainingDue(tm, s)
  {
    Sched(s.counter + 1,
          if InputDue(tm, s) then s.inputTracker + 1 else s.inputTracker,
          if TrainingDue(tm, s) then s.trainingTracker + 1 else s.trainingTracker)
  }

  /** The state after `n` calls of `run_step`. */
  function Advance(tm: Timing, s: Sched, n: nat): Sched
    requires tm.Defined()
  {
    if n == 0 then s else Step(tm, Advance(tm, s, n - 1))
  }

  /**
    Each tracker whose start and delay are non-negative holds the number of
    firings before the current step minus one.
  */
  ghost predicate Counts(tm: Timing, s: Sched)
  {
    && s.counter >= 0
    && (tm.inputStart >= 0 && tm.inputDelay >= 0 ==>
          s.inputTracker == Cadence.Fired(s.counter, tm.inputStart, tm.inputDelay) - 1)
    && (tm.trainingStart >= 0 && tm.trainingDelay >= 0 ==>
          s.trainingTracker == Cadence.Fired(s.counter, tm.trainingStart, tm.trainingDelay) - 1)
  }

  /** `Counts` holds of a fresh experiment and every step preserves it. */
  lemma StepKeepsCounts(tm: Timing, s: Sched)
    requires tm.Defined() && Counts(tm, s)
    ensures Counts(tm, Step(tm, s))
  {
    if tm.inputStart >= 0 && tm.inputDelay >= 0 {
      Cadence.TrackerCountsFirings(s.counter, tm.inputStart, tm.inputDelay, s.inputTracker);
    }
    if tm.trainingStart >= 0 && tm.trainingDelay >= 0 {
      Cadence.TrackerCountsFirings(s.counter, tm.trainingStart, tm.trainingDelay, s.trainingTracker);
    }
  }

  /**
    With a non-negative delay, a step is an input step exactly when the
    counter has reached the next deadline; under `Counts`, exactly when the
    reference cadence fires. Likewise for training.
  */
  lemma DueForms(tm: Timing, s: Sched)
    requires tm.Defined()
    ensures tm.inputDelay >= 0 ==>
              (InputDue(tm, s) <==> s.counter >= tm.inputStart + (s.inputTracker + 1) * (tm.inputDelay + 1))
    ensures tm.trainingDelay >= 0 ==>
              (TrainingDue(tm, s) <==> s.counter >= tm.trainingStart + (s.trainingTracker + 1) * (tm.trainingDelay + 1))
    ensures Counts(tm, s) && tm.inputStart >= 0 && tm.inputDelay >= 0 ==>
              (InputDue(tm, s) <==> Cadence.FiresAt(s.counter, tm.inputStart, tm.inputDelay))
    ensures Counts(tm, s) && tm.trainingStart >= 0 && tm.trainingDelay >= 0 ==>
              (TrainingDue(tm, s) <==> Cadence.FiresAt(s.counter, tm.trainingStart, tm.trainingDelay))
  {
    if tm.inputDelay >= 0 {
      Cadence.DueIffDeadline(s.counter, tm.inputStart, tm.inputDelay, s.inputTracker);
      if Counts(tm, s) && tm.inputStart >= 0 {
        Cadence.DueIffFires(s.counter, tm.inputStart, tm.inputDelay);
      }
    }
    if tm.trainingDelay >= 0 {
      Cadence.DueIffDeadline(s.counter, tm.trainingStart, tm.trainingDelay, s.trainingTracker);
      if Counts(tm, s) && tm.trainingStart >= 0 {
        Cadence.DueIffFires(s.counter, tm.trainingStart, tm.trainingDelay);
      }
    }
  }

  /** How many of the first `n` steps from `s` are input-or-training steps. */
  function DueCount(tm: Timing, s: Sched, n: nat): nat
    requires tm.Defined()
  {
    if n == 0 then 0
    else DueCount(tm, s, n - 1) + (if Due(tm, Advance(tm, s, n - 1)) then 1 else 0)
  }

  /**
    The `has_input` value each input-or-training step among the first `n`
    writes into the dictionary it consumes, in order: one per consumed
    dictionary.
  */
  function InputFlags(tm: Timing, s: Sched, n: nat): (r: seq<bool>)
    requires tm.Defined()
    ensures |r| == DueCount(tm, s, n)
  {
    if n == 0 then []
    else InputFlags(tm, s, n - 1)
         + (if Due(tm, Advance(tm, s, n - 1)) then [InputDue(tm, Advance(tm, s, n - 1))] else [])
  }

  /**
    The flag of the dictionary consumed by step `i` is the `has_input` value
    that step writes: it sits at that dictionary's index, `DueCount(i)`.
  */
  lemma {:induction false} InputFlagsAt(tm: Timing, s: Sched, n: nat, i: nat)
    requires tm.Defined() && i < n && Due(tm, Advance(tm, s, i))
    ensures DueCount(tm, s, i) < |InputFlags(tm, s, n)|
    ensures InputFlags(tm, s, n)[DueCount(tm, s, i)] == InputDue(tm, Advance(tm, s, i))
  {
    if i < n - 1 {
      InputFlagsAt(tm, s, n - 1, i);
    }
  }

  /**
    `n` steps advance the counter by exactly `n`; each tracker never
    decreases and moves by at most one per step.
  */
  lemma {:induction false} AdvanceBounds(tm: Timing, s: Sched, n: nat)
    requires tm.Defined()
    ensures Advance(tm, s, n).counter == s.counter + n
    ensures s.inputTracker <= Advance(tm, s, n).inputTracker <= s.inputTracker + n
    ensures s.trainingTracker <= Advance(tm, s, n).trainingTracker <= s.trainingTracker + n
  {
    if n > 0 {
      AdvanceBounds(tm, s, n - 1);
    }
  }

  /**
    From a fresh experiment with non-negative starts and delays, each
    tracker holds the number of firings so far minus one, and a step is an
    input (training) step exactly at `start + j * (delay + 1)`.
  */
  lemma {:induction false} FreshRun(tm: Timing, n: nat)
    requires tm.inputStart >= 0 && tm.inputDelay >= 0
    requires tm.trainingStart >= 0 && tm.trainingDelay >= 0
    ensures Advance(tm, Fresh, n)
         == Sched(n, Cadence.Fired(n, tm.inputStart, tm.inputDelay) - 1,
                     Cadence.Fired(n, tm.trainingStart, tm.trainingDelay) - 1)
    ensures InputDue(tm, Advance(tm, Fresh, n)) <==> Cadence.FiresAt(n, tm.inputStart, tm.inputDelay)
    ensures TrainingDue(tm, Advance(tm, Fresh, n)) <==> Cadence.FiresAt(n, tm.trainingStart, tm.trainingDelay)
  {
    if n > 0 {
      FreshRun(tm, n - 1);
    }
    Cadence.DueIffFires(n, tm.inputStart, tm.inputDelay);
    Cadence.DueIffFires(n, tm.trainingStart, tm.trainingDelay);
  }

  lemma {:induction false} DueCountMonotone(tm: Timing, s: Sched, i: nat, j: nat)
    requires tm.Defined() && i <= j
    ensures DueCount(tm, s, i) <= DueCount(tm, s, j) <= j
  {
    if j > 0 {
      DueCountMonotone(tm, s, if i < j then i else j - 1, j - 1);
    }
  }

  /** A due step consumes a feed that no later step consumes again. */
  lemma DueCountStrict(tm: Timing, s: Sched, i: nat, j: nat)
    requires tm.Defined() && i < j && Due(tm, Advance(tm, s, i))
    ensures DueCount(tm, s, i) < DueCount(tm, s, j)
  {
    DueCountMonotone(tm, s, i + 1, j);
  }

  /** Every one of the first `DueCount(n)` feeds is consumed, by a due step among the first `n`. */
  lemma {:induction false} DueStepFor(tm: Timing, s: Sched, n: nat, k: nat) returns (i: nat)
    requires tm.Defined() && k < DueCount(tm, s, n)
    ensures i < n && Due(tm, Advance(tm, s, i)) && DueCount(tm, s, i) == k
  {
    if k < DueCount(tm, s, n - 1) {
      i := DueStepFor(tm, s, n - 1, k);
    } else {
      i := n - 1;
    }
  }
}
