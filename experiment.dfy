/**
  `Experiment`: the registry of cell groups, connections, memories and
  monitors, and the scheduler that runs one step after another.

  The engine's work (placeholders, sessions, optimizers, the numbers) is
  not modelled; every call the scheduler makes into the engine or into a
  memory or monitor is appended to the ghost `trace`, so that the order of
  calls can be stated.
*/
module Experiment {
  import opened Entities
  import opened OrderedDict
  import Cadence
  import Schedule
  import Routing
  import StepTrace

  /** A cell group; the scheduler only reads the names of its states. */
  class Cells {
    const amount: int
    var states: map<string, StateHandle>

    constructor (amount: int)
      ensures this.amount == amount && states == map[]
    {
      this.amount := amount;
      states := map[];
    }
  }

  /** A feed dictionary. `run_step` writes into the caller's dictionary in place. */
  class Feed {
    var entries: FeedMap

    constructor (entries: FeedMap)
      ensures this.entries == entries
    {
      this.entries := entries;
    }
  }

  /** The number of iterations of `for step in range(timesteps - 1)`. */
  function Iterations(timesteps: int): nat
  {
    if timesteps > 1 then timesteps - 1 else 0
  }

  /** The current entries of a list of feed dictionaries. */
  function Entries(feeds: seq<Feed>): (r: seq<FeedMap>)
    reads feeds
    ensures |r| == |feeds|
  {
    if |feeds| == 0 then [] else Entries(feeds[..|feeds| - 1]) + [feeds[|feeds| - 1].entries]
  }

  lemma {:induction false} EntriesAt(feeds: seq<Feed>, i: nat)
    requires i < |feeds|
    ensures |Entries(feeds)| == |feeds| && Entries(feeds)[i] == feeds[i].entries
  {
    if i < |feeds| - 1 {
      EntriesAt(feeds[..|feeds| - 1], i);
    } else {
      EntriesLength(feeds[..|feeds| - 1]);
    }
  }

  lemma EntriesAll(feeds: seq<Feed>)
    ensures |Entries(feeds)| == |feeds|
    ensures forall i :: 0 <= i < |feeds| ==> Entries(feeds)[i] == feeds[i].entries
  {
    EntriesLength(feeds);
    forall i | 0 <= i < |feeds| ensures Entries(feeds)[i] == feeds[i].entries {
      EntriesAt(feeds, i);
    }
  }

  lemma {:induction false} EntriesLength(feeds: seq<Feed>)
    ensures |Entries(feeds)| == |feeds|
  {
    if |feeds| > 0 {
      EntriesLength(feeds[..|feeds| - 1]);
    }
  }

  lemma AppendAssoc(a: seq<Event>, b: seq<Event>, c: seq<Event>)
    ensures a + b + c == a + (b + c)
  {
  }

  /** What the user put into each dictionary: everything but `has_input`. */
  function UserParts(ms: seq<FeedMap>): seq<FeedMap>
  {
    seq(|ms|, i requires 0 <= i < |ms| => ms[i] - {HasInput})
  }

  /** No position in `lo..hi` of the list holds the same dictionary as position `i`. */
  predicate NotReusedIn(feeds: seq<Feed>, i: nat, lo: nat, hi: nat)
  {
    i < |feeds| && forall j :: lo <= j < hi && j < |feeds| ==> feeds[j] != feeds[i]
  }

  /**
    The dictionaries of `run_with_input_list` after the steps that consumed
    the first `|flags|` of them, which started as `userFeeds`. A consumed
    dictionary not consumed again later holds its user entries and the
    `has_input` value its step wrote (a dictionary listed twice keeps the
    later write); a dictionary never consumed is as the user left it.
  */
  predicate ListWritten(feeds: seq<Feed>, userFeeds: seq<FeedMap>, flags: seq<bool>)
    reads feeds
  {
    WrittenEntries(feeds, Entries(feeds), userFeeds, flags)
  }

  /** `ListWritten` over a snapshot `es` of the dictionaries' entries. */
  predicate WrittenEntries(feeds: seq<Feed>, es: seq<FeedMap>, userFeeds: seq<FeedMap>, flags: seq<bool>)
  {
    && |flags| <= |feeds| == |es| == |userFeeds|
    && (forall k :: 0 <= k < |flags| && NotReusedIn(feeds, k, k + 1, |flags|) ==>
          es[k] == userFeeds[k][HasInput := Flag(flags[k])])
    && (forall i :: 0 <= i < |feeds| && NotReusedIn(feeds, i, 0, |flags|) ==>
          es[i] == userFeeds[i])
  }

  /**
    A step that writes the next dictionary (when `consumed`) and leaves every
    dictionary other than that one alone keeps `ListWritten`, with the flag
    it wrote appended.
  */
  lemma WrittenStep(feeds: seq<Feed>, before: seq<FeedMap>, after: seq<FeedMap>, userFeeds: seq<FeedMap>,
                    flags: seq<bool>, consumed: bool, f: bool)
    requires WrittenEntries(feeds, before, userFeeds, flags) && |after| == |feeds|
    requires consumed ==> |flags| < |feeds| && after[|flags|] == userFeeds[|flags|][HasInput := Flag(f)]
    requires forall i :: 0 <= i < |feeds| && !(consumed && feeds[i] == feeds[|flags|]) ==> after[i] == before[i]
    ensures WrittenEntries(feeds, after, userFeeds, flags + if consumed then [f] else [])
  {
    var flags' := flags + if consumed then [f] else [];
    forall k | 0 <= k < |flags'| && NotReusedIn(feeds, k, k + 1, |flags'|)
      ensures after[k] == userFeeds[k][HasInput := Flag(flags'[k])]
    {
      if k < |flags| {
        assert NotReusedIn(feeds, k, k + 1, |flags|);
      }
    }
    forall i | 0 <= i < |feeds| && NotReusedIn(feeds, i, 0, |flags'|)
      ensures after[i] == userFeeds[i]
    {
      assert NotReusedIn(feeds, i, 0, |flags|);
    }
  }

  /** Before the first step nothing is consumed and every dictionary is as the user left it. */
  lemma ListWrittenStart(feeds: seq<Feed>)
    ensures ListWritten(feeds, Entries(feeds), [])
  {
  }

  lemma WrittenKeyDropped(a: FeedMap, k: FeedKey, v: FeedValue)
    ensures a[k := v] - {k} == a - {k}
  {
  }

  /** Writing one key erases any difference two dictionaries had under that key. */
  lemma SameBesideKey(a: FeedMap, b: FeedMap, k: FeedKey, v: FeedValue)
    requires a - {k} == b - {k}
    ensures a[k := v] == b[k := v]
  {
    var ma, mb := a[k := v], b[k := v];
    assert ma.Keys == (a - {k}).Keys + {k};
    assert mb.Keys == (b - {k}).Keys + {k};
    forall k' | k' in ma ensures ma[k'] == mb[k'] {
      if k' != k {
        assert a[k'] == (a - {k})[k'];
        assert b[k'] == (b - {k})[k'];
      }
    }
  }

  /** The messages of the lookups' failed assertions. */
  const GroupMissing := "Error: group_cells_name for group_cells does not exist."
  const StateMissing := "Error: state_name for state does not exist."
  const ConnectionMissing := "Error: conn_name for connections does not exist."

  class Experiment {
    const inputStart: int
    const inputDelay: int
    const trainingStart: int
    const trainingDelay: int

    var stepCounter: int
    var inputTracker: int
    var trainingTracker: int

    var cellGroups: map<string, Cells>
    var connections: map<string, Connection>
    var connectionList: seq<Connection>
    var trainableConnections: map<string, Connection>
    var connectionOps: seq<seq<OpId>>
    var inputNameList: seq<string>
    var inputOps: seq<seq<OpId>>
    var trainOps: seq<OpId>
    var trainingLoss: Option<OpId>
    var monitors: Dict<MonitorKey, MonitorSpec>
    var memories: Dict<StateHandle, MemorySpec>
    var experimentOutput: Routing.Output

    /**
      The dictionary `run_step` uses when called without one. Python
      evaluates the default `feed_dict={}` once, so all such calls share it.
    */
    const defaultFeed: Feed

    ghost var trace: seq<Event>

    /** The registries iterated by `run_step` have distinct keys. */
    ghost predicate RegistriesValid()
      reads this`experimentOutput, this`memories, this`monitors
    {
      && OrderedDict.Valid(experimentOutput)
      && OrderedDict.Valid(memories)
      && OrderedDict.Valid(monitors)
    }

    /**
      The trackers count the firings so far, the shared default dictionary
      holds nothing but `has_input`, and the registries have distinct keys.
    */
    ghost predicate Valid()
      reads this`stepCounter, this`inputTracker, this`trainingTracker, this`experimentOutput, this`memories, this`monitors, defaultFeed`entries
    {
      && Schedule.Counts(Timing(), Sched())
      && defaultFeed.entries.Keys <= {HasInput}
      && RegistriesValid()
    }

    function Timing(): Schedule.Timing
    {
      Schedule.Timing(inputStart, inputDelay, trainingStart, trainingDelay)
    }

    function Sched(): Schedule.Sched
      reads this`stepCounter, this`inputTracker, this`trainingTracker
    {
      Schedule.Sched(stepCounter, inputTracker, trainingTracker)
    }

    function CurrentPlan(): StepTrace.Plan
      reads this`experimentOutput, this`memories, this`monitors, this`trainOps
    {
      StepTrace.Plan(experimentOutput, memories, monitors, trainOps)
    }

    constructor (inputStart: int := 0, inputDelay: int := 0, trainingStart: int := 0, trainingDelay: int := 0)
      ensures Valid() && fresh(defaultFeed)
      ensures this.inputStart == inputStart && this.inputDelay == inputDelay
      ensures this.trainingStart == trainingStart && this.trainingDelay == trainingDelay
      ensures Sched() == Schedule.Fresh
      ensures cellGroups == map[] && connections == map[] && trainableConnections == map[]
      ensures connectionList == [] && connectionOps == [] && inputNameList == [] && inputOps == []
      ensures trainOps == [] && trainingLoss == None
      ensures monitors == [] && memories == [] && experimentOutput == []
      ensures trace == []
    {
      this.inputStart := inputStart;
      this.inputDelay := inputDelay;
      this.trainingStart := trainingStart;
      this.trainingDelay := trainingDelay;
      stepCounter := 0;
      inputTracker := -1;
      trainingTracker := -1;
      cellGroups := map[];
      connections := map[];
      connectionList := [];
      trainableConnections := map[];
      connectionOps := [];
      inputNameList := [];
      inputOps := [];
      trainOps := [];
      trainingLoss := None;
      monitors := [];
      memories := [];
      experimentOutput := [];
      defaultFeed := new Feed(map[]);
      trace := [];
    }

    /** `add_input`: the name is remembered; the placeholder itself belongs to the engine. */
    method AddInput(name: string)
      modifies this`inputNameList
      ensures inputNameList == old(inputNameList) + [name]
    {
      inputNameList := inputNameList + [name];
    }

    method AddGroupCells(name: string, amount: int) returns (g: Cells)
      modifies this`cellGroups
      ensures fresh(g) && g.amount == amount && g.states == map[]
      ensures cellGroups == old(cellGroups)[name := g]
      ensures forall state :: CheckGroupCellsState(name, state) == Some(StateMissing)
    {
      g := new Cells(amount);
      cellGroups := cellGroups[name := g];
    }

    method AddCells(name: string, g: Cells) returns (r: Cells)
      modifies this`cellGroups
      ensures r == g && cellGroups == old(cellGroups)[name := g]
      ensures forall state :: CheckGroupCellsState(name, state) == None <==> state in g.states
    {
      cellGroups := cellGroups[name := g];
      r := g;
    }

    /** `add_state_memory`: a memory of the state is registered under the state. */
    method AddStateMemory(state: StateHandle, memorySize: int)
      requires Valid()
      modifies this`memories
      ensures Valid()
      ensures memories == Put(old(memories), state, MemorySpec(state, memorySize))
    {
      memories := Put(memories, state, MemorySpec(state, memorySize));
    }

    method UpdateExperimentOutput(c: Connection)
      requires Valid()
      modifies this`experimentOutput
      ensures Valid()
      ensures experimentOutput == Routing.Route(old(experimentOutput), c)
    {
      Routing.RouteSpec(experimentOutput, c);
      experimentOutput := Routing.Route(experimentOutput, c);
    }

    /**
      `add_connection`: the connection's ops always go on `connection_ops`,
      and then once more, either on `input_ops` (when it reads from an input)
      or again on `connection_ops`. The source's statements touch disjoint
      fields, so their order here does not change the outcome.
    */
    method AddConnection(name: string, c: Connection) returns (r: Connection)
      requires Valid()
      modifies this`connections, this`connectionList, this`connectionOps, this`experimentOutput, this`inputOps
      ensures Valid()
      ensures r == c
      ensures connections == old(connections)[name := c]
      ensures GetConnection(name) == Ok(c)
      ensures connectionList == [c] + old(connectionList)
      ensures connectionOps == old(connectionOps) + [c.listOps]
                               + (if Routing.FromInput(c, inputNameList) then [] else [c.listOps])
      ensures inputOps == old(inputOps) + (if Routing.FromInput(c, inputNameList) then [c.listOps] else [])
      ensures experimentOutput == Routing.Route(old(experimentOutput), c)
    {
      QueueOps(c);
      UpdateExperimentOutput(c);
      connections := connections[name := c];
      connectionList := [c] + connectionList;
      r := c;
    }

    /** The op lists of `add_connection`. */
    method QueueOps(c: Connection)
      modifies this`connectionOps, this`inputOps
      ensures connectionOps == old(connectionOps) + [c.listOps]
                               + (if Routing.FromInput(c, inputNameList) then [] else [c.listOps])
      ensures inputOps == old(inputOps) + (if Routing.FromInput(c, inputNameList) then [c.listOps] else [])
    {
      connectionOps := connectionOps + [c.listOps];
      if Routing.FromInput(c, inputNameList) {
        inputOps := inputOps + [c.listOps];
      } else {
        connectionOps := connectionOps + [c.listOps];
      }
    }

    method AddTrainableConnection(name: string, c: Connection) returns (r: Connection)
      requires Valid()
      modifies this`connections, this`connectionList, this`connectionOps, this`experimentOutput, this`inputOps
      modifies this`trainableConnections
      ensures Valid()
      ensures r == c
      ensures connections == old(connections)[name := c]
      ensures GetConnection(name) == Ok(c)
      ensures connectionList == [c] + old(connectionList)
      ensures connectionOps == old(connectionOps) + [c.listOps]
                               + (if Routing.FromInput(c, inputNameList) then [] else [c.listOps])
      ensures inputOps == old(inputOps) + (if Routing.FromInput(c, inputNameList) then [c.listOps] else [])
      ensures experimentOutput == Routing.Route(old(experimentOutput), c)
      ensures trainableConnections == old(trainableConnections)[name := c]
    {
      r := AddConnection(name, c);
      trainableConnections := trainableConnections[name := c];
    }

    /** `initialize_cells`: the engine's variables, then every monitor in iteration order. */
    method InitializeCells()
      modifies this`trace
      ensures trace == old(trace) + [InitializeVariables] + StepTrace.InitializeEvents(monitors)
    {
      trace := trace + [InitializeVariables];
      var i := 0;
      while i < |monitors|
        invariant 0 <= i <= |monitors|
        invariant trace == old(trace) + [InitializeVariables] + StepTrace.InitializeEvents(monitors[..i])
      {
        assert monitors[..i + 1][..i] == monitors[..i];
        trace := trace + [InitializeMonitor(monitors[i].key)];
        i := i + 1;
      }
      assert monitors[..i] == monitors;
    }

    /**
      `set_training`: the loss is kept; with the Adam optimizer the engine's
      optimizer op joins the training ops. Any other optimizer name leaves
      the op unbound, so the call fails after keeping the loss (`ok` false).
    */
    method SetTraining(loss: OpId, optimizer: string, trainOp: OpId) returns (ok: bool)
      modifies this`trainingLoss, this`trainOps
      ensures ok <==> optimizer == "adam"
      ensures trainingLoss == Some(loss)
      ensures trainOps == old(trainOps) + (if ok then [trainOp] else [])
    {
      trainingLoss := Some(loss);
      ok := optimizer == "adam";
      if ok {
        trainOps := trainOps + [trainOp];
      }
    }

    /**
      `is_input_step`. With a non-negative delay it holds once the counter
      reaches the next deadline; while the tracker counts the firings so far,
      exactly at the steps `start + j * (delay + 1)`.
    */
    predicate IsInputStep(): (due: bool)
      reads this`stepCounter, this`inputTracker
      requires inputDelay != -1
      ensures inputDelay >= 0 ==> (due <==> stepCounter >= inputStart + (inputTracker + 1) * (inputDelay + 1))
      ensures && inputStart >= 0 && inputDelay >= 0 && stepCounter >= 0
              && inputTracker == Cadence.Fired(stepCounter, inputStart, inputDelay) - 1
              ==> (due <==> Cadence.FiresAt(stepCounter, inputStart, inputDelay))
    {
      if inputDelay >= 0 then
        Cadence.DueIffDeadline(stepCounter, inputStart, inputDelay, inputTracker);
        if inputStart >= 0 && stepCounter >= 0 then
          Cadence.DueIffFires(stepCounter, inputStart, inputDelay);
          Cadence.IsDue(stepCounter, inputStart, inputDelay, inputTracker)
        else
          Cadence.IsDue(stepCounter, inputStart, inputDelay, inputTracker)
      else
        Cadence.IsDue(stepCounter, inputStart, inputDelay, inputTracker)
    }

    /**
      `is_training_step`. With a non-negative delay it holds once the counter
      reaches the next deadline; while the tracker counts the firings so far,
      exactly at the steps `start + j * (delay + 1)`.
    */
    predicate IsTrainingStep(): (due: bool)
      reads this`stepCounter, this`trainingTracker
      requires trainingDelay != -1
      ensures trainingDelay >= 0 ==> (due <==> stepCounter >= trainingStart + (trainingTracker + 1) * (trainingDelay + 1))
      ensures && trainingStart >= 0 && trainingDelay >= 0 && stepCounter >= 0
              && trainingTracker == Cadence.Fired(stepCounter, trainingStart, trainingDelay) - 1
              ==> (due <==> Cadence.FiresAt(stepCounter, trainingStart, trainingDelay))
    {
      if trainingDelay >= 0 then
        Cadence.DueIffDeadline(stepCounter, trainingStart, trainingDelay, trainingTracker);
        if trainingStart >= 0 && stepCounter >= 0 then
          Cadence.DueIffFires(stepCounter, trainingStart, trainingDelay);
          Cadence.IsDue(stepCounter, trainingStart, trainingDelay, trainingTracker)
        else
          Cadence.IsDue(stepCounter, trainingStart, trainingDelay, trainingTracker)
      else
        Cadence.IsDue(stepCounter, trainingStart, trainingDelay, trainingTracker)
    }

    /** The loop over `experiment_output` in `run_step`. */
    method AssignOutputs(feed: FeedMap)
      modifies this`trace
      ensures trace == old(trace) + StepTrace.AssignEvents(experimentOutput, feed)
    {
      var i := 0;
      while i < |experimentOutput|
        invariant 0 <= i <= |experimentOutput|
        invariant trace == old(trace) + StepTrace.AssignEvents(experimentOutput[..i], feed)
      {
        assert experimentOutput[..i + 1][..i] == experimentOutput[..i];
        trace := trace + [RunAssign(experimentOutput[i].value.assignOutput, feed)];
        i := i + 1;
      }
      assert experimentOutput[..i] == experimentOutput;
    }

    /** The loop over `memories` in `run_step`. */
    method UpdateMemories()
      modifies this`trace
      ensures trace == old(trace) + StepTrace.MemoryEvents(memories)
    {
      var i := 0;
      while i < |memories|
        invariant 0 <= i <= |memories|
        invariant trace == old(trace) + StepTrace.MemoryEvents(memories[..i])
      {
        assert memories[..i + 1][..i] == memories[..i];
        trace := trace + [UpdateMemory(memories[i].key)];
        i := i + 1;
      }
      assert memories[..i] == memories;
    }

    /** The loop over `monitors` in `run_step`. */
    method RecordMonitors()
      modifies this`trace
      ensures trace == old(trace) + StepTrace.RecordEvents(monitors)
    {
      var i := 0;
      while i < |monitors|
        invariant 0 <= i <= |monitors|
        invariant trace == old(trace) + StepTrace.RecordEvents(monitors[..i])
      {
        assert monitors[..i + 1][..i] == monitors[..i];
        trace := trace + [Record(monitors[i].key)];
        i := i + 1;
      }
      assert monitors[..i] == monitors;
    }

    /** The start of `run_step`: `has_input` says whether this is an input step, which is counted. */
    method MarkInput(feed: Feed)
      requires Timing().Defined()
      modifies this`inputTracker, feed`entries
      ensures feed.entries == old(feed.entries)[HasInput := Flag(old(IsInputStep()))]
      ensures inputTracker == old(inputTracker) + (if old(IsInputStep()) then 1 else 0)
    {
      feed.entries := feed.entries[HasInput := Flag(false)];
      if IsInputStep() {
        feed.entries := feed.entries[HasInput := Flag(true)];
        inputTracker := inputTracker + 1;
      }
    }

    /** The three loops of `run_step`, in their order. */
    method RunLoops(feed: FeedMap)
      modifies this`trace
      ensures trace == old(trace) + (StepTrace.AssignEvents(experimentOutput, feed)
                                     + StepTrace.MemoryEvents(memories) + StepTrace.RecordEvents(monitors))
    {
      AssignOutputs(feed);
      UpdateMemories();
      RecordMonitors();
      AppendAssoc(old(trace), StepTrace.AssignEvents(experimentOutput, feed), StepTrace.MemoryEvents(memories));
      AppendAssoc(old(trace), StepTrace.AssignEvents(experimentOutput, feed) + StepTrace.MemoryEvents(memories),
                  StepTrace.RecordEvents(monitors));
    }

    /**
      `run_step`: write `has_input`, assign every routed output, update every
      memory, let every monitor record, train on a training step, and count
      the step.
    */
    method RunStep(feed: Feed)
      requires Valid() && Timing().Defined()
      modifies this`stepCounter, this`inputTracker, this`trainingTracker, this`trace, feed`entries
      ensures Valid()
      ensures Sched() == Schedule.Step(Timing(), old(Sched()))
      ensures feed.entries == old(feed.entries)[HasInput := Flag(Schedule.InputDue(Timing(), old(Sched())))]
      ensures trace == old(trace) + StepTrace.StepEvents(CurrentPlan(), feed.entries, Schedule.TrainingDue(Timing(), old(Sched())))
    {
      ghost var s := Sched();

      MarkInput(feed);
      assert defaultFeed.entries.Keys <= {HasInput};

      ghost var t0 := trace;
      RunLoops(feed.entries);
      ghost var loops := trace[|t0|..];

      ghost var train: seq<Event> := [];
      if IsTrainingStep() {
        train := [RunTrain(trainOps, feed.entries)];
        trace := trace + [RunTrain(trainOps, feed.entries)];
        trainingTracker := trainingTracker + 1;
      }
      AppendAssoc(t0, loops, train);
      stepCounter := stepCounter + 1;
      assert Sched() == Schedule.Step(Timing(), s);
      Schedule.StepKeepsCounts(Timing(), s);
    }

    /** `run_step()` with no argument: it writes into the shared default dictionary. */
    method RunStepDefault()
      requires Valid() && Timing().Defined()
      modifies this`stepCounter, this`inputTracker, this`trainingTracker, this`trace, defaultFeed`entries
      ensures Valid()
      ensures Sched() == Schedule.Step(Timing(), old(Sched()))
      ensures defaultFeed.entries == map[HasInput := Flag(Schedule.InputDue(Timing(), old(Sched())))]
      ensures trace == old(trace) + StepTrace.StepEvents(CurrentPlan(), defaultFeed.entries,
                                                         Schedule.TrainingDue(Timing(), old(Sched())))
    {
      ghost var before := defaultFeed.entries;
      assert before - {HasInput} == map[];
      RunStep(defaultFeed);
      SameBesideKey(before, map[], HasInput, Flag(Schedule.InputDue(Timing(), old(Sched()))));
    }

    /**
      The due step of `run_with_input_list`: the list's dictionary number
      `k`, which apart from `has_input` still holds what the user put there,
      gets `has_input` written and runs the step.
    */
    method RunStepListed(feeds: seq<Feed>, k: nat, ghost userFeeds: seq<FeedMap>, ghost flags: seq<bool>)
      requires Valid() && Timing().Defined()
      requires k < |feeds| == |userFeeds| && defaultFeed !in feeds
      requires UserParts(Entries(feeds)) == UserParts(userFeeds)
      requires ListWritten(feeds, userFeeds, flags) && |flags| == k
      modifies this`stepCounter, this`inputTracker, this`trainingTracker, this`trace, feeds[k]
      ensures Valid()
      ensures Sched() == Schedule.Step(Timing(), old(Sched()))
      ensures feeds[k].entries == userFeeds[k][HasInput := Flag(Schedule.InputDue(Timing(), old(Sched())))]
      ensures UserParts(Entries(feeds)) == UserParts(userFeeds)
      ensures ListWritten(feeds, userFeeds, flags + [Schedule.InputDue(Timing(), old(Sched()))])
      ensures trace == old(trace) + StepTrace.StepEvents(CurrentPlan(), feeds[k].entries,
                                                         Schedule.TrainingDue(Timing(), old(Sched())))
    {
      var feed := feeds[k];
      ghost var before := Entries(feeds);
      ghost var written := Flag(Schedule.InputDue(Timing(), old(Sched())));
      EntriesAll(feeds);
      assert UserParts(before)[k] == UserParts(userFeeds)[k];
      RunStep(feed);
      SameBesideKey(before[k], userFeeds[k], HasInput, written);
      EntriesAll(feeds);
      forall i | 0 <= i < |feeds| ensures UserParts(Entries(feeds))[i] == UserParts(before)[i] {
        if feeds[i] == feed {
          WrittenKeyDropped(before[i], HasInput, written);
        }
      }
      WrittenStep(feeds, before, Entries(feeds), userFeeds, flags, true, Schedule.InputDue(Timing(), old(Sched())));
    }

    /**
      One iteration of `run_with_input_list`: an input-or-training step
      runs with the next dictionary of the list, any other step with the
      default one.
    */
    method ListIteration(feeds: seq<Feed>, ghost userFeeds: seq<FeedMap>, feedCounter: nat, ghost flags: seq<bool>)
      returns (next: nat)
      requires Valid() && Timing().Defined()
      requires defaultFeed !in feeds && |userFeeds| == |feeds|
      requires Schedule.Due(Timing(), Sched()) ==> feedCounter < |feeds|
      requires UserParts(Entries(feeds)) == UserParts(userFeeds)
      requires ListWritten(feeds, userFeeds, flags) && |flags| == feedCounter
      modifies this`stepCounter, this`inputTracker, this`trainingTracker, this`trace, defaultFeed`entries, feeds
      ensures Valid()
      ensures Sched() == Schedule.Step(Timing(), old(Sched()))
      ensures next == feedCounter + (if Schedule.Due(Timing(), old(Sched())) then 1 else 0)
      ensures Schedule.Due(Timing(), old(Sched())) ==>
                feeds[feedCounter].entries
                == userFeeds[feedCounter][HasInput := Flag(Schedule.InputDue(Timing(), old(Sched())))]
      ensures forall i :: 0 <= i < |feeds| && !(Schedule.Due(Timing(), old(Sched())) && feeds[i] == feeds[feedCounter]) ==>
                feeds[i].entries == old(feeds[i].entries)
      ensures UserParts(Entries(feeds)) == UserParts(userFeeds)
      ensures ListWritten(feeds, userFeeds,
                          flags + if Schedule.Due(Timing(), old(Sched()))
                                  then [Schedule.InputDue(Timing(), old(Sched()))] else [])
      ensures trace == old(trace) + StepTrace.DriverStep(Timing(), CurrentPlan(), old(Sched()),
                                                         StepTrace.FromList(userFeeds), feedCounter)
    {
      ghost var due, written := Schedule.Due(Timing(), Sched()), Schedule.InputDue(Timing(), Sched());
      if IsInputStep() || IsTrainingStep() {
        assert due;
        RunStepListed(feeds, feedCounter, userFeeds, flags);
        next := feedCounter + 1;
      } else {
        assert !due;
        RunStepDefault();
        next := feedCounter;
        assert flags + [] == flags;
      }
    }

    /**
      One iteration of `run_with_input_generator`: an input-or-training step
      first asks the generator for a fresh dictionary, passing the step
      counter; any other step runs with the default dictionary.
    */
    method GeneratorIteration(generator: int -> FeedMap)
      requires Valid() && Timing().Defined()
      modifies this`stepCounter, this`inputTracker, this`trainingTracker, this`trace, defaultFeed`entries
      ensures Valid()
      ensures Sched() == Schedule.Step(Timing(), old(Sched()))
      ensures trace == old(trace) + StepTrace.DriverStep(Timing(), CurrentPlan(), old(Sched()),
                                                         StepTrace.FromGenerator(generator), 0)
    {
      if IsInputStep() || IsTrainingStep() {
        trace := trace + [Generate(stepCounter)];
        var feed := new Feed(generator(stepCounter));
        ghost var t := trace;
        RunStep(feed);
        AppendAssoc(old(trace), [Generate(old(stepCounter))], trace[|t|..]);
      } else {
        RunStepDefault();
      }
    }

    /** `run`: `timesteps - 1` steps, each with the shared default dictionary. */
    method Run(timesteps: int := 10)
      requires Valid() && Timing().Defined()
      modifies this`stepCounter, this`inputTracker, this`trainingTracker, this`trace, defaultFeed`entries
      ensures Valid()
      ensures Sched() == Schedule.Advance(Timing(), old(Sched()), Iterations(timesteps))
      ensures trace == old(trace) + StepTrace.DriverTrace(Timing(), CurrentPlan(), old(Sched()),
                                                          Iterations(timesteps), StepTrace.Bare)
    {
      var step := 0;
      while step < timesteps - 1
        invariant 0 <= step <= Iterations(timesteps)
        invariant Valid()
        invariant Sched() == Schedule.Advance(Timing(), old(Sched()), step)
        invariant trace == old(trace) + StepTrace.DriverTrace(Timing(), CurrentPlan(), old(Sched()),
                                                              step, StepTrace.Bare)
      {
        ghost var t := trace;
        RunStepDefault();
        StepTrace.BareDriverNext(Timing(), CurrentPlan(), old(Sched()), step);
        AppendAssoc(old(trace), t[|old(trace)|..], trace[|t|..]);
        step := step + 1;
      }
      assert step == Iterations(timesteps);
    }

    /**
      Where `run_with_input_list` stands after `step` iterations from `s0`:
      `consumed` entries of the list used, and the calls of those iterations
      appended to `t0`.
    */
    ghost predicate ListRunAt(feeds: seq<Feed>, userFeeds: seq<FeedMap>, s0: Schedule.Sched, t0: seq<Event>,
                              step: nat, consumed: nat)
      requires Timing().Defined()
      reads this`stepCounter, this`inputTracker, this`trainingTracker, this`experimentOutput, this`memories,
            this`monitors, this`trainOps, this`trace, defaultFeed`entries, feeds
    {
      && Valid()
      && Sched() == Schedule.Advance(Timing(), s0, step)
      && consumed == Schedule.DueCount(Timing(), s0, step)
      && trace == t0 + StepTrace.DriverTrace(Timing(), CurrentPlan(), s0, step, StepTrace.FromList(userFeeds))
      && UserParts(Entries(feeds)) == UserParts(userFeeds)
      && ListWritten(feeds, userFeeds, Schedule.InputFlags(Timing(), s0, step))
    }

    /** One more iteration of `run_with_input_list` keeps `ListRunAt`. */
    method ListRunNext(feeds: seq<Feed>, ghost userFeeds: seq<FeedMap>, ghost s0: Schedule.Sched, ghost t0: seq<Event>,
                       ghost step: nat, feedCounter: nat)
      returns (next: nat)
      requires Timing().Defined() && defaultFeed !in feeds && |userFeeds| == |feeds|
      requires ListRunAt(feeds, userFeeds, s0, t0, step, feedCounter)
      requires Schedule.DueCount(Timing(), s0, step + 1) <= |feeds|
      modifies this`stepCounter, this`inputTracker, this`trainingTracker, this`trace, defaultFeed`entries, feeds
      ensures ListRunAt(feeds, userFeeds, s0, t0, step + 1, next)
    {
      ghost var t := trace;
      next := ListIteration(feeds, userFeeds, feedCounter, Schedule.InputFlags(Timing(), s0, step));
      AppendAssoc(t0, t[|t0|..], trace[|t|..]);
    }

    /**
      `run_with_input_list`: an input-or-training step runs with the next
      dictionary of the list, any other step with the default one. The list
      must hold a dictionary for every such step.
    */
    method RunWithInputList(timesteps: int, feeds: seq<Feed>)
      requires Valid() && Timing().Defined()
      requires defaultFeed !in feeds
      requires Schedule.DueCount(Timing(), Sched(), Iterations(timesteps)) <= |feeds|
      modifies this`stepCounter, this`inputTracker, this`trainingTracker, this`trace, defaultFeed`entries, feeds
      ensures Valid()
      ensures Sched() == Schedule.Advance(Timing(), old(Sched()), Iterations(timesteps))
      ensures trace == old(trace) + StepTrace.DriverTrace(Timing(), CurrentPlan(), old(Sched()),
                                                          Iterations(timesteps), StepTrace.FromList(old(Entries(feeds))))
      ensures UserParts(Entries(feeds)) == UserParts(old(Entries(feeds)))
      ensures ListWritten(feeds, old(Entries(feeds)), Schedule.InputFlags(Timing(), old(Sched()), Iterations(timesteps)))
    {
      ghost var userFeeds := Entries(feeds);
      ListWrittenStart(feeds);
      ListRun(timesteps, feeds, userFeeds, old(Sched()), old(trace));
    }

    /** The loop of `run_with_input_list`, from where `ListRunAt` holds with nothing done. */
    method ListRun(timesteps: int, feeds: seq<Feed>, ghost userFeeds: seq<FeedMap>,
                   ghost s0: Schedule.Sched, ghost t0: seq<Event>)
      requires Timing().Defined() && defaultFeed !in feeds && |userFeeds| == |feeds|
      requires Schedule.DueCount(Timing(), s0, Iterations(timesteps)) <= |feeds|
      requires ListRunAt(feeds, userFeeds, s0, t0, 0, 0)
      modifies this`stepCounter, this`inputTracker, this`trainingTracker, this`trace, defaultFeed`entries, feeds
      ensures ListRunAt(feeds, userFeeds, s0, t0, Iterations(timesteps),
                        Schedule.DueCount(Timing(), s0, Iterations(timesteps)))
    {
      var feedCounter: nat := 0;
      var step := 0;
      while step < timesteps - 1
        invariant 0 <= step <= Iterations(timesteps)
        invariant feedCounter <= Schedule.DueCount(Timing(), s0, Iterations(timesteps))
        invariant ListRunAt(feeds, userFeeds, s0, t0, step, feedCounter)
      {
        Schedule.DueCountMonotone(Timing(), s0, step + 1, Iterations(timesteps));
        feedCounter := ListRunNext(feeds, userFeeds, s0, t0, step, feedCounter);
        step := step + 1;
      }
      assert step == Iterations(timesteps);
    }

    /**
      `run_with_input_generator`: an input-or-training step first asks the
      generator for a dictionary, passing the step counter; any other step
      runs with the default dictionary.
    */
    method RunWithInputGenerator(timesteps: int, generator: int -> FeedMap)
      requires Valid() && Timing().Defined()
      modifies this`stepCounter, this`inputTracker, this`trainingTracker, this`trace, defaultFeed`entries
      ensures Valid()
      ensures Sched() == Schedule.Advance(Timing(), old(Sched()), Iterations(timesteps))
      ensures trace == old(trace) + StepTrace.DriverTrace(Timing(), CurrentPlan(), old(Sched()),
                                                          Iterations(timesteps), StepTrace.FromGenerator(generator))
    {
      var step := 0;
      while step < timesteps - 1
        invariant 0 <= step <= Iterations(timesteps)
        invariant Valid()
        invariant Sched() == Schedule.Advance(Timing(), old(Sched()), step)
        invariant trace == old(trace) + StepTrace.DriverTrace(Timing(), CurrentPlan(), old(Sched()),
                                                              step, StepTrace.FromGenerator(generator))
      {
        ghost var done := StepTrace.DriverTrace(Timing(), CurrentPlan(), old(Sched()), step, StepTrace.FromGenerator(generator));
        ghost var t := trace;
        GeneratorIteration(generator);
        AppendAssoc(old(trace), done, trace[|t|..]);
        step := step + 1;
      }
      assert step == Iterations(timesteps);
    }

    /**
      `check_group_cells_state`: `None` when the group is registered and
      has the state, otherwise the message of the first assertion that fails.
    */
    function CheckGroupCellsState(group: string, state: string): (err: Option<string>)
      reads this`cellGroups, cellGroups.Values
      ensures err == None <==> group in cellGroups && state in cellGroups[group].states
      ensures err != None ==> err == Some(GroupMissing) || err == Some(StateMissing)
      ensures err == Some(StateMissing) <==> group in cellGroups && state !in cellGroups[group].states
    {
      if group !in cellGroups then Some(GroupMissing)
      else if state !in cellGroups[group].states then Some(StateMissing)
      else None
    }

    /** `get_group_cells_state`: after the check, the engine evaluates the state. */
    method GetGroupCellsState(group: string, state: string) returns (r: Result<StateHandle>)
      modifies this`trace
      ensures r.Ok? <==> CheckGroupCellsState(group, state) == None
      ensures r.Failure? ==> Some(r.error) == CheckGroupCellsState(group, state) && trace == old(trace)
      ensures r.Ok? ==> r.value == cellGroups[group].states[state] && trace == old(trace) + [Evaluate(r.value)]
    {
      var err := CheckGroupCellsState(group, state);
      if err.Some? {
        return Failure(err.value);
      }
      var handle := cellGroups[group].states[state];
      trace := trace + [Evaluate(handle)];
      r := Ok(handle);
    }

    /**
      `add_monitor`: after the check, a monitor of the state is registered
      under (group, state), replacing any earlier one in its place.
    */
    method AddMonitor(group: string, state: string, timesteps: Option<int> := None) returns (err: Option<string>)
      requires Valid()
      modifies this`monitors
      ensures Valid()
      ensures err == CheckGroupCellsState(group, state)
      ensures err.Some? ==> monitors == old(monitors)
      ensures err.None? ==> monitors == Put(old(monitors), MonitorKey(group, state), MonitorSpec(group, state, timesteps))
      ensures err.None? ==> GetMonitor(group, state) == Ok(MonitorSpec(group, state, timesteps))
    {
      err := CheckGroupCellsState(group, state);
      if err.None? {
        monitors := Put(monitors, MonitorKey(group, state), MonitorSpec(group, state, timesteps));
      }
    }

    /**
      `get_monitor`: after the check, the monitor registered under
      (group, state); a missing one raises KeyError.
    */
    function GetMonitor(group: string, state: string): (r: Result<MonitorSpec>)
      reads this`cellGroups, cellGroups.Values, this`monitors
      ensures r.Ok? <==> CheckGroupCellsState(group, state) == None && Contains(monitors, MonitorKey(group, state))
      ensures r.Ok? ==> Entry(MonitorKey(group, state), r.value) in monitors
      ensures r.Failure? && CheckGroupCellsState(group, state) != None ==> Some(r.error) == CheckGroupCellsState(group, state)
    {
      var key := MonitorKey(group, state);
      match CheckGroupCellsState(group, state)
      case Some(e) => Failure(e)
      case None => if Contains(monitors, key) then Ok(Get(monitors, key)) else Failure("KeyError")
    }

    /** `get_connection`: the connection registered under the name. */
    function GetConnection(name: string): (r: Result<Connection>)
      reads this`connections
      ensures r.Ok? <==> name in connections
      ensures r.Ok? ==> r.value == connections[name]
      ensures r.Failure? ==> r.error == ConnectionMissing
    {
      if name in connections then Ok(connections[name]) else Failure(ConnectionMissing)
    }
  }
}
