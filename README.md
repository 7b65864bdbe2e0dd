# Experiment scheduler of EvoDynamic, in Dafny

EvoDynamic builds cellular-automaton and reservoir experiments on a
graph-execution engine. The engine does all the numeric work; the
`Experiment` class decides what runs, when and in which order. This project
models that scheduler and proves what it promises:

- **Cadence** (`cadence.dfy`). An input or training event is due when
  `(step_counter - start) // (delay + 1) > tracker`. Python's floor
  division is written out, so it also holds for negative offsets and
  divisors. The project proves that a non-negative delay makes the event due
  exactly at its next deadline. It also proves that, with a non-negative
  start and delay, from a fresh tracker the event fires exactly at
  `start, start + (delay + 1), ...` and the tracker holds the number of past
  firings minus one.
- **Scheduling state** (`schedule.dfy`). The step counter and the two
  trackers form a value `Sched`. One `run_step` maps it by `Step`, and `n`
  of them by `Advance`. `DueCount` counts the input-or-training steps, which
  are the steps that consume a feed dictionary.
- **Registries** (`ordered_dict.dfy`, `routing.dfy`). A Python dictionary
  iterates in insertion order, so it is a sequence of entries with distinct
  keys. `update_experiment_output` keeps one routed connection per
  destination group and evicts a relay source. `add_connection` tests the
  part of the source name before the first `:` against the registered
  inputs.
- **Calls made** (`step_trace.dfy`). Every call into the engine, a memory
  or a monitor is an `Event`. `StepEvents` lists the calls of one step and
  `DriverTrace` those of a whole run, for each of the three drivers.
- **The class** (`experiment.dfy`). `Experiment` is a Dafny class with the
  source's fields. Its methods update those fields in place and append
  their calls to a ghost `trace`. A feed dictionary is a `Feed` object,
  because `run_step` writes `has_input` into the caller's dictionary. The
  default dictionary of `run_step(feed_dict={})` is one `Feed` per
  experiment. Each method's postcondition ties the new state and the new
  trace to the functions above. The cadence properties are proved about
  those functions.

Assertion failures in the lookups become `Failure(message)` results carrying
the source's messages.

`add_connection` appends every connection's ops to `connection_ops` before
the input test (line 66 of `evodynamic/experiment/experiment.py`), and then
once more to `input_ops` or to `connection_ops` (lines 68-71). So a
non-input connection's ops appear twice in `connection_ops`.
`AddConnection` states both appends.

## Model

| member | source | states |
|---|---|---|
| Experiment.Experiment.constructor | evodynamic/experiment/experiment.py:10-34 | A new experiment has counter 0, both trackers -1, the given starts and delays, empty registries and op lists, no loss and an empty trace |
| Experiment.Experiment.AddInput | evodynamic/experiment/experiment.py:36-39 | The input's name is appended to the input names; nothing else changes |
| Experiment.Experiment.AddGroupCells | evodynamic/experiment/experiment.py:41-44 | A fresh group with no states is registered under the name, replacing any earlier one, so every state lookup on it reports the missing-state error |
| Experiment.Experiment.AddCells | evodynamic/experiment/experiment.py:46-48 | The given group is registered under the name and returned; a state lookup on it succeeds exactly for the group's states |
| Experiment.Experiment.AddStateMemory | evodynamic/experiment/experiment.py:50-53 | A memory of the state with the given size is registered under the state, keeping its place if it replaces one |
| OrderedDict.Put | evodynamic/experiment/experiment.py:60 | Dictionary assignment: the key maps to the value; every other key keeps its presence and value; an existing key keeps its position and a new key is iterated last |
| OrderedDict.WithoutKeys | evodynamic/experiment/experiment.py:58 | `del`: exactly the deleted keys disappear, and every remaining key keeps its value |
| Experiment.Experiment.UpdateExperimentOutput | evodynamic/experiment/experiment.py:55-60 | The output map becomes the routing rule applied to the old map, and the map keeps distinct keys |
| Routing.Route | evodynamic/experiment/experiment.py:55-60 | The rerouted map keeps distinct keys and binds the destination to the connection |
| Routing.RouteSpec | evodynamic/experiment/experiment.py:55-60 | Afterwards the destination maps to the connection. The source's entry is gone exactly when it was present and the destination was not. Every other entry keeps its key, value and relative order, and a new destination is iterated last |
| Routing.NameBeforeColon | evodynamic/experiment/experiment.py:68 | `split(":")[0]` is a colon-free prefix of the name that ends at the first colon or at the end of the name |
| Routing.FromInputSpec | evodynamic/experiment/experiment.py:68 | A connection reads from an input exactly when some registered input name is a colon-free prefix of the source's name that ends at its first colon or at its end |
| Experiment.Experiment.QueueOps | evodynamic/experiment/experiment.py:66-71 | The ops go on `connection_ops` once; then once on `input_ops` for an input connection, otherwise once more on `connection_ops`; nothing else changes |
| Experiment.Experiment.AddConnection | evodynamic/experiment/experiment.py:62-72 | The connection is stored under the name, so `get_connection` returns it. It is prepended to the connection list. Its ops are appended to `connection_ops`, and then once more to `input_ops` when it reads from a registered input, otherwise to `connection_ops` again. The output map is rerouted |
| Experiment.Experiment.AddTrainableConnection | evodynamic/experiment/experiment.py:74-77 | Everything `add_connection` does, and the connection is also recorded as trainable under the name |
| Experiment.Experiment.InitializeCells | evodynamic/experiment/experiment.py:79-82 | The engine's variable initialisation is called first, then `initialize()` on every monitor in iteration order |
| StepTrace.InitializeEventsAt | evodynamic/experiment/experiment.py:79-82 | After the engine's initialisation, monitor `i` in iteration order is initialised by call `i`, once each and nothing else |
| Experiment.Experiment.SetTraining | evodynamic/experiment/experiment.py:84-98 | The loss is kept. The call succeeds exactly when the optimizer is "adam", and only then does one training op join the list |
| Cadence.FloorDivBounds | evodynamic/experiment/experiment.py:104 | The modelled `//` is Python's floor quotient, for positive and negative divisors alike |
| Cadence.DueIffDeadline | evodynamic/experiment/experiment.py:103-107 | With a non-negative delay, the cadence test holds exactly when the counter has reached `start + (tracker + 1) * (delay + 1)` |
| Cadence.FiresAtMultiples | evodynamic/experiment/experiment.py:103-107 | The reference cadence fires at `start + j * (delay + 1)` for every `j >= 0` |
| Cadence.FiresOnlyAtMultiples | evodynamic/experiment/experiment.py:103-107 | The reference cadence fires at no other step |
| Cadence.FiredClosedForm | evodynamic/experiment/experiment.py:103-107 | Closed form of the number of firings among the first `n` steps |
| Cadence.DueIffFires | evodynamic/experiment/experiment.py:103-107 | With the tracker equal to the firings so far minus one, the cadence test holds exactly at the reference firing steps |
| Cadence.TrackerCountsFirings | evodynamic/experiment/experiment.py:136-151 | Incrementing the tracker exactly on due steps keeps it equal to the firings so far minus one |
| Experiment.Experiment.IsInputStep | evodynamic/experiment/experiment.py:103-104 | With a non-negative delay, `is_input_step` holds exactly when the counter has reached the next input deadline; while the input tracker counts firings, exactly at the reference input steps |
| Experiment.Experiment.IsTrainingStep | evodynamic/experiment/experiment.py:106-107 | The same for `is_training_step`, with the training start, delay and tracker |
| Schedule.DueForms | evodynamic/experiment/experiment.py:103-107 | `is_input_step` and `is_training_step` as deadlines, and as the reference cadence while the trackers count firings |
| Schedule.Step | evodynamic/experiment/experiment.py:134-152 | One `run_step` advances the counter by one; each tracker stays or advances by one, and advances exactly when its event is due at the old state |
| Schedule.StepKeepsCounts | evodynamic/experiment/experiment.py:134-152 | One `run_step` preserves "each tracker counts its firings minus one" |
| Schedule.FreshRun | evodynamic/experiment/experiment.py:25-31 | From a fresh experiment with non-negative starts and delays, after `n` steps the counter is `n` and each tracker is its firings minus one; input and training fire exactly at their reference steps |
| Schedule.AdvanceBounds | evodynamic/experiment/experiment.py:109-112 | `n` steps advance the counter by exactly `n`; each tracker never decreases and moves by at most one per step |
| Schedule.DueCountMonotone | evodynamic/experiment/experiment.py:114-122 | The number of consumed feed dictionaries never decreases and never exceeds the number of steps |
| Schedule.DueCountStrict | evodynamic/experiment/experiment.py:117-119 | An input-or-training step consumes a dictionary that no later step consumes again |
| Schedule.InputFlags | evodynamic/experiment/experiment.py:117-119 | One written `has_input` value per consumed dictionary: `DueCount(n)` values over the first `n` steps |
| Schedule.InputFlagsAt | evodynamic/experiment/experiment.py:117-119 | The flag at index `DueCount(i)`, the dictionary consumed by due step `i`, is the `has_input` value step `i` writes (lines 135-137) |
| Schedule.DueStepFor | evodynamic/experiment/experiment.py:117-119 | Each of the first `DueCount(n)` dictionaries is consumed by an input-or-training step among the first `n`, which is the step that finds the counter at its index |
| StepTrace.StepOrder | evodynamic/experiment/experiment.py:140-151 | Within a step, each routed output is assigned once in iteration order. Then every memory is updated, then every monitor records. On a training step only, the training ops run last, with the same feed |
| Experiment.Experiment.AssignOutputs | evodynamic/experiment/experiment.py:140-141 | The loop runs every routed connection's `assign_output` with the feed, in iteration order |
| Experiment.Experiment.UpdateMemories | evodynamic/experiment/experiment.py:143-144 | The loop updates every memory, in iteration order |
| Experiment.Experiment.RecordMonitors | evodynamic/experiment/experiment.py:146-147 | The loop lets every monitor record, in iteration order |
| Experiment.Experiment.RunLoops | evodynamic/experiment/experiment.py:140-147 | The three loops run in order: outputs, memories, monitors |
| Experiment.Experiment.MarkInput | evodynamic/experiment/experiment.py:135-138 | `has_input` is written in place as true exactly on an input step, overwriting whatever the caller put there; the input tracker advances exactly then |
| Experiment.SameBesideKey | evodynamic/experiment/experiment.py:135-137 | After `has_input` is written, a dictionary depends only on the caller's other keys |
| Experiment.Experiment.RunStep | evodynamic/experiment/experiment.py:134-152 | The counter advances by one, and each tracker by one exactly on its due step. `has_input` is written in place. The calls are the step's calls in the proven order, with the written feed. The trackers keep counting firings |
| Experiment.Experiment.RunStepDefault | evodynamic/experiment/experiment.py:134-135 | Without an argument the step runs with the shared default dictionary, which then holds `has_input` alone |
| Experiment.Experiment.RunStepListed | evodynamic/experiment/experiment.py:118 | A list entry runs the step: it is the user's dictionary plus the `has_input` the step wrote, no other entry's user keys change, and the written-entries invariant gains that flag |
| Experiment.Experiment.ListIteration | evodynamic/experiment/experiment.py:117-121 | A due step consumes the next list entry, writes its `has_input` and advances the feed counter; any other step runs with the default dictionary and leaves the counter. No dictionary but the consumed one changes |
| Experiment.WrittenStep | evodynamic/experiment/experiment.py:117-121 | A step that writes only the next list entry keeps the invariant: each consumed entry not consumed again holds the user's keys and its step's `has_input`, and each unconsumed entry is as the user left it |
| Experiment.Experiment.GeneratorIteration | evodynamic/experiment/experiment.py:126-131 | A due step first calls the generator with the current counter and runs with its result; any other step runs with the default dictionary |
| Experiment.Experiment.Run | evodynamic/experiment/experiment.py:109-112 | Exactly `max(0, timesteps - 1)` steps run, each with the default dictionary; the calls are the driver's trace |
| Experiment.Experiment.RunWithInputList | evodynamic/experiment/experiment.py:114-122 | Exactly `max(0, timesteps - 1)` steps run. The k-th input-or-training step uses list entry k, and other steps use the default dictionary. The entries' user keys are unchanged. Afterwards each consumed entry not listed again later holds the `has_input` its step wrote, and each unconsumed entry is as the user left it |
| Experiment.Experiment.RunWithInputGenerator | evodynamic/experiment/experiment.py:124-132 | Exactly `max(0, timesteps - 1)` steps run; each input-or-training step first calls the generator with its counter |
| StepTrace.GeneratorCallsInDriverStep | evodynamic/experiment/experiment.py:126-128 | One iteration calls the generator once, with the counter, exactly when the step is due |
| StepTrace.GeneratorCalledOnDueSteps | evodynamic/experiment/experiment.py:124-132 | Over a whole run the generator is called exactly on the due steps, with their counters, in order; that is `DueCount` calls |
| Experiment.Experiment.CheckGroupCellsState | evodynamic/experiment/experiment.py:154-159 | No error exactly when the group is registered and has the state. Otherwise the missing-group message, or the missing-state message exactly when the group exists without the state |
| Experiment.Experiment.GetGroupCellsState | evodynamic/experiment/experiment.py:161-164 | On a failed check, that message and no engine call. Otherwise the group's state, evaluated by one engine call |
| Experiment.Experiment.AddMonitor | evodynamic/experiment/experiment.py:166-170 | On a failed check, the message and no change. Otherwise a monitor of (group, state, duration) is registered under the pair, and `get_monitor` then returns it |
| Experiment.Experiment.GetMonitor | evodynamic/experiment/experiment.py:172-175 | Succeeds exactly when the check passes and a monitor is registered under the pair, and returns that monitor. A failed check yields its message |
| Experiment.Experiment.GetConnection | evodynamic/experiment/experiment.py:177-181 | Succeeds exactly for a registered name, returning its connection; otherwise the missing-connection message |

## Left out

- The engine: graph reset, session creation, placeholders, variable initialisation and what `session.run` computes. Engine calls appear only as events in the trace, and a placeholder or op is an opaque number.
- `AddInput` returns no placeholder; the placeholder belongs to the engine.
- `AddStateMemory` does not return the memory's op, and `Memory` itself is not modelled beyond its state and size.
- `Cells`, `Memory` and `Monitor` internals: recording, memory updates and monitor initialisation are logged events only.
- SetTraining: the selection of trainable variables by name and the optimizer are engine work. The optimizer's op is a parameter. The failure on a non-Adam optimizer (an unbound name after a printed message) is the `false` result, with the loss already stored.
- GetGroupCellsState: returns the state's handle; the value the engine evaluates is not modelled.
- GetMonitor: returns the registered monitor's description rather than the data recorded by `Monitor.get()`. A missing pair after a passing check is reported as "KeyError".
- AddConnection: `connection.set_experiment(self)` is a call into `Connection` that is not part of this model. Connections are compared as values, not by identity.
- RunStep: requires `Timing().Defined()`, both delays different from -1. With `input_delay == -1` the source raises ZeroDivisionError in the test of line 136 (the division of line 104), after writing `has_input = False` (line 135). With only `training_delay == -1` it raises in the test of line 149 (the division of line 107), after that step's `has_input` write, assignments, memory updates and records. The drivers Run, RunWithInputList and RunWithInputGenerator carry the same precondition. The list and generator drivers evaluate the due test first (lines 117 and 126), so they raise there before the step when `input_delay == -1`, and also when only `training_delay == -1` and `is_input_step` is false. `IsInputStep` and `IsTrainingStep` each require only their own delay to differ from -1.
- RunStepDefault: the source's default dictionary (`feed_dict={}` at line 134) is created once and shared by every `Experiment` in the process. The model gives each experiment its own, so a `has_input` written by another experiment's step is not modelled. Within one experiment the key is overwritten at every step, so the model agrees there.
- Schedule.FreshRun: the firing steps are stated for non-negative starts and delays only. With a negative start the source's test holds on consecutive steps until the tracker catches up with the floor quotient, and the model states no cadence for that case.
- RunWithInputList: the final state speaks of an entry listed twice only through its last write. When the same dictionary object appears at two positions, the earlier write is overwritten and the model states nothing more about it.
- RunWithInputList: requires a list long enough for every input-or-training step. The source instead raises IndexError at the first step that finds the list exhausted, after running the earlier steps. It also requires that the shared default dictionary is not one of the list's entries.
- RunWithInputGenerator: the generator is a pure function of the step counter; a generator with side effects is not modelled.
- The progress bar (console output), the unused `dt` field, `close()` and `training_loss` beyond being stored.
- Integers are unbounded, as in Python.
