/**
  The values the experiment scheduler passes around. Everything numeric
  belongs to the graph-execution engine and appears here only as an
  opaque identity: operations, state tensors and placeholders.
*/
module Entities {

  datatype Option<T> = None | Some(value: T)

  /** The value of a lookup, or the error `experiment.py` raises instead. */
  datatype Result<T> = Ok(value: T) | Failure(error: string)

  /** An operation of the computation graph. */
  type OpId = nat

  /** A state tensor of a cell group. */
  type StateHandle = nat

  /**
    A source or destination of a connection: a cell group or an input
    placeholder. Its name may carry a `:<suffix>` qualifier ("x:0").
  */
  datatype Node = Node(id: nat, name: string)

  /** A directed connection, its operations and the op that commits its output. */
  datatype Connection = Connection(fromGroup: Node, toGroup: Node, listOps: seq<OpId>, assignOutput: OpId)

  /** Keys of a feed dictionary: the experiment's own `has_input` placeholder or a user placeholder. */
  datatype FeedKey = HasInput | Placeholder(id: nat)

  datatype FeedValue = Flag(b: bool) | Tensor(id: nat)

  type FeedMap = map<FeedKey, FeedValue>

  /** Monitors are registered under the pair (group name, state name). */
  datatype MonitorKey = MonitorKey(group: string, state: string)

  /** What a memory or monitor was built from; its recording itself is not modelled. */
  datatype MemorySpec = MemorySpec(state: StateHandle, size: int)

  datatype MonitorSpec = MonitorSpec(group: string, state: string, duration: Option<int>)

  /** A call the scheduler makes into the engine or into a collaborator, in the order made. */
  datatype Event =
    | RunAssign(op: OpId, feed: FeedMap)          // session.run(assign_output, feed_dict)
    | UpdateMemory(memory: StateHandle)           // update_state_memory()
    | Record(monitor: MonitorKey)                 // record()
    | RunTrain(ops: seq<OpId>, feed: FeedMap)     // session.run(train_ops, feed_dict)
    | Generate(counter: int)                      // generator(step_counter)
    | Evaluate(state: StateHandle)                // session.run(state)
    | InitializeVariables                         // session.run(global_variables_initializer())
    | InitializeMonitor(monitor: MonitorKey)      // initialize()
}
