/**
  The calls one `run_step` makes, and the calls a whole run makes, as
  event sequences computed from the scheduling state.
*/
module StepTrace {
  import opened Entities
  import opened OrderedDict
  import opened Schedule

  /** What every step iterates over: the routed outputs, memories, monitors and training ops. */
  datatype Plan = Plan(
    outputs: Dict<Node, Connection>,
    memories: Dict<StateHandle, MemorySpec>,
    monitors: Dict<MonitorKey, MonitorSpec>,
    trainOps: seq<OpId>)

  /** One `session.run` of each routed connection's `assign_output`, in iteration order. */
  function AssignEvents(outputs: Dict<Node, Connection>, feed: FeedMap): seq<Event>
  {
    if |outputs| == 0 then []
    else AssignEvents(outputs[..|outputs| - 1], feed)
         + [RunAssign(outputs[|outputs| - 1].value.assignOutput, feed)]
  }

  function MemoryEvents(memories: Dict<StateHandle, MemorySpec>): seq<Event>
  {
    if |memories| == 0 then []
    else MemoryEvents(memories[..|memories| - 1]) + [UpdateMemory(memories[|memories| - 1].key)]
  }

  function RecordEvents(monitors: Dict<MonitorKey, MonitorSpec>): seq<Event>
  {
    if |monitors| == 0 then []
    else RecordEvents(monitors[..|monitors| - 1]) + [Record(monitors[|monitors| - 1].key)]
  }

  /** The `initialize()` call of every monitor, in iteration order. */
  function InitializeEvents(monitors: Dict<MonitorKey, MonitorSpec>): seq<Event>
  {
    if |monitors| == 0 then []
    else InitializeEvents(monitors[..|monitors| - 1]) + [InitializeMonitor(monitors[|monitors| - 1].key)]
  }

  /** The calls of one `run_step` given the feed it runs with and whether it trains. */
  function StepEvents(p: Plan, feed: FeedMap, training: bool): seq<Event>
  {
    AssignEvents(p.outputs, feed) + MemoryEvents(p.memories) + RecordEvents(p.monitors)
    + (if training then [RunTrain(p.trainOps, feed)] else [])
  }

  lemma {:induction false} AssignEventsAt(outputs: Dict<Node, Connection>, feed: FeedMap)
    ensures |AssignEvents(outputs, feed)| == |outputs|
    ensures forall i :: 0 <= i < |outputs| ==>
              AssignEvents(outputs, feed)[i] == RunAssign(outputs[i].value.assignOutput, feed)
  {
    if |outputs| > 0 {
      AssignEventsAt(outputs[..|outputs| - 1], feed);
    }
  }

  lemma {:induction false} MemoryEventsAt(memories: Dict<StateHandle, MemorySpec>)
    ensures |MemoryEvents(memories)| == |memories|
    ensures forall i :: 0 <= i < |memories| ==> MemoryEvents(memories)[i] == UpdateMemory(memories[i].key)
  {
    if |memories| > 0 {
      MemoryEventsAt(memories[..|memories| - 1]);
    }
  }

  lemma {:induction false} RecordEventsAt(monitors: Dict<MonitorKey, MonitorSpec>)
    ensures |RecordEvents(monitors)| == |monitors|
    ensures forall i :: 0 <= i < |monitors| ==> RecordEvents(monitors)[i] == Record(monitors[i].key)
  {
    if |monitors| > 0 {
      RecordEventsAt(monitors[..|monitors| - 1]);
    }
  }

  /** `initialize_cells` initialises each monitor exactly once, in iteration order. */
  lemma {:induction false} InitializeEventsAt(monitors: Dict<MonitorKey, MonitorSpec>)
    ensures |InitializeEvents(monitors)| == |monitors|
    ensures forall i :: 0 <= i < |monitors| ==> InitializeEvents(monitors)[i] == InitializeMonitor(monitors[i].key)
  {
    if |monitors| > 0 {
      InitializeEventsAt(monitors[..|monitors| - 1]);
    }
  }

  /**
    The order within a step: every output is assigned once, in iteration
    order; then every memory is updated; then every monitor records; then,
    on a training step only, the training ops run once with the same feed.
  */
  lemma StepOrder(p: Plan, feed: FeedMap, training: bool)
    ensures var es := StepEvents(p, feed, training);
      var a, m, r := |p.outputs|, |p.memories|, |p.monitors|;
      && |es| == a + m + r + (if training then 1 else 0)
      && (forall i :: 0 <= i < a ==> es[i] == RunAssign(p.outputs[i].value.assignOutput, feed))
      && (forall i :: 0 <= i < m ==> es[a + i] == UpdateMemory(p.memories[i].key))
      && (forall i :: 0 <= i < r ==> es[a + m + i] == Record(p.monitors[i].key))
      && (training ==> es[a + m + r] == RunTrain(p.trainOps, feed))
  {
    AssignEventsAt(p.outputs, feed);
    MemoryEventsAt(p.memories);
    RecordEventsAt(p.monitors);
  }

  /** Where each step of a run takes its feed dictionary from. */
  datatype Feeding =
    | Bare                                    // run
    | FromList(feeds: seq<FeedMap>)           // run_with_input_list
    | FromGenerator(gen: int -> FeedMap)      // run_with_input_generator

  /**
    The caller's entries of the feed of a step whose `consumed` earlier steps
    took a list entry. A step that is neither an input nor a training step,
    and every step of a bare run, gets the shared default dictionary, whose
    only key is `has_input`. (A list too short for the run is excluded by
    the list driver's precondition; the empty map stands in for it here.)
  */
  function UserFeed(tm: Timing, s: Sched, feeding: Feeding, consumed: nat): FeedMap
    requires tm.Defined()
  {
    if !Due(tm, s) then map[]
    else match feeding
      case Bare => map[]
      case FromList(feeds) => if consumed < |feeds| then feeds[consumed] else map[]
      case FromGenerator(gen) => gen(s.counter)
  }

  /** The feed the step runs with once it has written `has_input`. */
  function StepFeed(tm: Timing, s: Sched, feeding: Feeding, consumed: nat): FeedMap
    requires tm.Defined()
  {
    UserFeed(tm, s, feeding, consumed)[HasInput := Flag(InputDue(tm, s))]
  }

  /** One iteration of a driver's loop: the generator call, if any, then the step. */
  function DriverStep(tm: Timing, p: Plan, s: Sched, feeding: Feeding, consumed: nat): seq<Event>
    requires tm.Defined()
  {
    (if feeding.FromGenerator? && Due(tm, s) then [Generate(s.counter)] else [])
    + StepEvents(p, StepFeed(tm, s, feeding, consumed), TrainingDue(tm, s))
  }

  /** The calls of the first `n` iterations of a driver started in state `s`. */
  function DriverTrace(tm: Timing, p: Plan, s: Sched, n: nat, feeding: Feeding): seq<Event>
    requires tm.Defined()
  {
    if n == 0 then []
    else DriverTrace(tm, p, s, n - 1, feeding)
         + DriverStep(tm, p, Advance(tm, s, n - 1), feeding, DueCount(tm, s, n - 1))
  }

  /**
    One more iteration of `run` appends the calls of one step whose feed
    holds `has_input` alone.
  */
  lemma BareDriverNext(tm: Timing, p: Plan, s: Sched, n: nat)
    requires tm.Defined()
    ensures var t := Advance(tm, s, n);
      DriverTrace(tm, p, s, n + 1, Bare)
      == DriverTrace(tm, p, s, n, Bare)
         + StepEvents(p, map[HasInput := Flag(InputDue(tm, t))], TrainingDue(tm, t))
  {
  }

  /** The step counters at which the generator was called, in call order. */
  function GeneratorCalls(es: seq<Event>): seq<int>
  {
    if |es| == 0 then []
    else GeneratorCalls(es[..|es| - 1])
         + (if es[|es| - 1].Generate? then [es[|es| - 1].counter] else [])
  }

  /** The counters of the due steps among the first `n` from `s`. */
  function DueCounters(tm: Timing, s: Sched, n: nat): seq<int>
    requires tm.Defined()
  {
    if n == 0 then []
    else DueCounters(tm, s, n - 1)
         + (if Due(tm, Advance(tm, s, n - 1)) then [Advance(tm, s, n - 1).counter] else [])
  }

  lemma {:induction false} GeneratorCallsConcat(a: seq<Event>, b: seq<Event>)
    ensures GeneratorCalls(a + b) == GeneratorCalls(a) + GeneratorCalls(b)
  {
    if |b| > 0 {
      assert (a + b)[..|a + b| - 1] == a + b[..|b| - 1];
      GeneratorCallsConcat(a, b[..|b| - 1]);
    } else {
      assert a + b == a;
    }
  }

  lemma {:induction false} NoGeneratorCallInStep(p: Plan, feed: FeedMap, training: bool)
    ensures GeneratorCalls(StepEvents(p, feed, training)) == []
  {
    var es := StepEvents(p, feed, training);
    var a, m := |p.outputs|, |p.memories|;
    StepOrder(p, feed, training);
    forall i | 0 <= i < |es| ensures !es[i].Generate? {
      if a <= i < a + m {
        assert es[a + (i - a)] == UpdateMemory(p.memories[i - a].key);
      } else if a + m <= i < a + m + |p.monitors| {
        assert es[a + m + (i - a - m)] == Record(p.monitors[i - a - m].key);
      }
    }
    NoGeneratorCallIn(es);
  }

  lemma {:induction false} NoGeneratorCallIn(es: seq<Event>)
    requires forall i :: 0 <= i < |es| ==> !es[i].Generate?
    ensures GeneratorCalls(es) == []
  {
    if |es| > 0 {
      NoGeneratorCallIn(es[..|es| - 1]);
    }
  }

  /** One iteration of the generator driver calls the generator iff the step is due. */
  lemma GeneratorCallsInDriverStep(tm: Timing, p: Plan, t: Sched, gen: int -> FeedMap, consumed: nat)
    requires tm.Defined()
    ensures GeneratorCalls(DriverStep(tm, p, t, FromGenerator(gen), consumed))
         == (if Due(tm, t) then [t.counter] else [])
  {
    var pre: seq<Event> := if Due(tm, t) then [Generate(t.counter)] else [];
    var step := StepEvents(p, StepFeed(tm, t, FromGenerator(gen), consumed), TrainingDue(tm, t));
    assert DriverStep(tm, p, t, FromGenerator(gen), consumed) == pre + step;
    GeneratorCallsConcat(pre, step);
    NoGeneratorCallInStep(p, StepFeed(tm, t, FromGenerator(gen), consumed), TrainingDue(tm, t));
    assert GeneratorCalls(pre) == (if Due(tm, t) then [t.counter] else []) by {
      if Due(tm, t) {
        assert pre[..0] == [];
      }
    }
  }

  /**
    `run_with_input_generator` calls the generator once per input-or-training
    step, with that step's counter, and never on another step; so it makes
    `DueCount` calls in all.
  */
  lemma {:induction false} GeneratorCalledOnDueSteps(tm: Timing, p: Plan, s: Sched, n: nat, gen: int -> FeedMap)
    requires tm.Defined()
    ensures GeneratorCalls(DriverTrace(tm, p, s, n, FromGenerator(gen))) == DueCounters(tm, s, n)
    ensures |DueCounters(tm, s, n)| == DueCount(tm, s, n)
  {
    if n > 0 {
      GeneratorCalledOnDueSteps(tm, p, s, n - 1, gen);
      var t := Advance(tm, s, n - 1);
      var last := DriverStep(tm, p, t, FromGenerator(gen), DueCount(tm, s, n - 1));
      GeneratorCallsConcat(DriverTrace(tm, p, s, n - 1, FromGenerator(gen)), last);
      GeneratorCallsInDriverStep(tm, p, t, gen, DueCount(tm, s, n - 1));
    }
  }
}
