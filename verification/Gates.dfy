/** The asynchronous database wrappers (heed and redb) as a step machine.

    A writer mutex and a FIFO reader semaphore stand in front of the engine.  A read takes one
    reader permit, a write takes the mutex, and maintenance (`resize`) takes the mutex and
    then every reader permit.  An operation is one such request; a task may own several.  The engine
    is taken at its contract: a write transaction works on a private copy of the committed map, a
    read transaction on the map as it was when it began, and a commit publishes the copy at once. */
module Gates {
  import opened Wrappers
  import opened Stores

  type TaskId = nat
  type OpId = nat
  type Key = nat
  type Value = string
  type Store = map<Key, Value>
  type Item = Put<Key, Value>

  datatype Kind = Read | Write(items: seq<Item>) | Maintain

  /** `Dropped` and `ReaderPermitsFreed` are the moments between two field or local drops: the inner
      transaction is gone but its permit is not, or the reader permits are back but the mutex is not. */
  datatype Phase =
    | WaitWriter
    | WaitReaders
    | Holding
    | Open
    | Dropped
    | Maintaining
    | ReaderPermitsFreed
    | Finished

  /** One request. `view` is the transaction's own map, `base` the number of commits it was opened on,
      `done` the puts made so far, `result` the item count of a successful ingestion. */
  datatype Op = Op(owner: TaskId, kind: Kind, phase: Phase, view: Store, base: nat, done: nat, result: Option<nat>)
  {
    predicate Waiting() { phase.WaitWriter? || phase.WaitReaders? }

    /** The operation owns the writer mutex. */
    predicate HasWriter() {
      match kind
      case Read => false
      case Write(_) => phase.Holding? || phase.Open? || phase.Dropped?
      case Maintain => phase.Holding? || phase.WaitReaders? || phase.Maintaining? || phase.ReaderPermitsFreed?
    }

    /** Reader permits the operation owns. */
    function ReaderPermits(maxReaders: nat): nat {
      match kind
      case Read => if phase.Holding? || phase.Open? || phase.Dropped? then 1 else 0
      case Write(_) => 0
      case Maintain => if phase.Maintaining? then maxReaders else 0
    }

    /** Reader permits it asks for. */
    function ReaderNeed(maxReaders: nat): nat {
      if kind.Maintain? then maxReaders else 1
    }
  }

  /** An ingestion that was committed, and what it put. */
  datatype Landed = Landed(op: OpId, items: seq<Item>)

  /** `readerLog` lists the semaphore requests in order and `granted` how many were served; `commits`
      lists the committed ingestions. */
  datatype State = State(
    maxReaders: nat,
    ops: seq<Op>,
    available: nat,
    readerQueue: seq<OpId>,
    writerQueue: seq<OpId>,
    writer: Option<OpId>,
    committed: Store,
    readerLog: seq<OpId>,
    granted: nat,
    commits: seq<Landed>)

  function Initial(maxReaders: nat, store: Store): State {
    State(maxReaders, [], maxReaders, [], [], None, store, [], 0, [])
  }

  /** What an operation that holds its gate can do next. `ok` is the engine's answer. */
  datatype Action =
    | RequestReaders
    | OpenTxn(ok: bool)
    | PutNext
    | Commit(ok: bool)
    | DropTxn
    | FreePermit
    | EndMaintenance
    | FreeMutex

  datatype Event =
    | Begin(owner: TaskId, kind: Kind)
    | GrantWriter
    | GrantReaders
    | Step(op: OpId, act: Action)

  /** A task runs its operations in turn: while it waits for one, its others make no step. */
  predicate OwnerRuns(s: State, o: OpId)
    requires o < |s.ops|
  {
    forall p :: 0 <= p < |s.ops| && p != o && s.ops[p].owner == s.ops[o].owner ==> !s.ops[p].Waiting()
  }

  predicate CanAct(op: Op, act: Action) {
    match act
    case RequestReaders => op.kind.Maintain? && op.phase.Holding?
    case OpenTxn(_) => !op.kind.Maintain? && op.phase.Holding?
    case PutNext => op.kind.Write? && op.phase.Open? && op.done < |op.kind.items|
    case Commit(_) => op.kind.Write? && op.phase.Open? && op.done == |op.kind.items|
    case DropTxn => op.phase.Open?
    case FreePermit => !op.kind.Maintain? && op.phase.Dropped?
    case EndMaintenance => op.kind.Maintain? && op.phase.Maintaining?
    case FreeMutex => op.kind.Maintain? && op.phase.ReaderPermitsFreed?
  }

  predicate Enabled(s: State, e: Event) {
    match e
    case Begin(owner, _) => forall o :: 0 <= o < |s.ops| && s.ops[o].owner == owner ==> !s.ops[o].Waiting()
    case GrantWriter => s.writer.None? && s.writerQueue != [] && s.writerQueue[0] < |s.ops|
    case GrantReaders =>
      s.readerQueue != [] && s.readerQueue[0] < |s.ops| &&
      s.ops[s.readerQueue[0]].ReaderNeed(s.maxReaders) <= s.available
    case Step(o, act) => o < |s.ops| && CanAct(s.ops[o], act) && OwnerRuns(s, o)
  }

  function Next(s: State, e: Event): State
    requires Enabled(s, e)
  {
    match e
    case Begin(owner, kind) => BeginStep(s, owner, kind)
    case GrantWriter =>
      var o := s.writerQueue[0];
      s.(writer := Some(o), writerQueue := s.writerQueue[1..], ops := s.ops[o := s.ops[o].(phase := Holding)])
    case GrantReaders =>
      var o := s.readerQueue[0];
      var op := s.ops[o];
      s.(available := s.available - op.ReaderNeed(s.maxReaders), readerQueue := s.readerQueue[1..], granted := s.granted + 1,
         ops := s.ops[o := op.(phase := if op.kind.Maintain? then Maintaining else Holding)])
    case Step(o, act) => OpStep(s, o, act)
  }

  function BeginStep(s: State, owner: TaskId, kind: Kind): State {
    var o := |s.ops|;
    var op := Op(owner, kind, if kind.Read? then WaitReaders else WaitWriter, map[], 0, 0, None);
    if kind.Read? then
      s.(ops := s.ops + [op], readerQueue := s.readerQueue + [o], readerLog := s.readerLog + [o])
    else
      s.(ops := s.ops + [op], writerQueue := s.writerQueue + [o])
  }

  function OpStep(s: State, o: OpId, act: Action): State
    requires o < |s.ops| && CanAct(s.ops[o], act)
  {
    var op := s.ops[o];
    var s' := s.(ops := s.ops[o := Act(op, act, s.committed, |s.commits|)]);
    match act
    case RequestReaders => s'.(readerQueue := s.readerQueue + [o], readerLog := s.readerLog + [o])
    case Commit(true) => s'.(committed := op.view, commits := s.commits + [Landed(o, op.kind.items)])
    case FreePermit => if op.kind.Read? then s'.(available := s.available + 1) else s'.(writer := None)
    case EndMaintenance => s'.(available := s.available + s.maxReaders)
    case FreeMutex => s'.(writer := None)
    case _ => s'
  }

  /** What an action does to its own operation. A transaction that fails to open never existed. */
  function Act(op: Op, act: Action, committed: Store, commits: nat): Op
    requires CanAct(op, act)
  {
    match act
    case RequestReaders => op.(phase := WaitReaders)
    case OpenTxn(ok) => if ok then op.(phase := Open, view := committed, base := commits) else op.(phase := Dropped)
    case PutNext => op.(view := PutItem(op.view, op.kind.items[op.done]), done := op.done + 1)
    case Commit(ok) => op.(phase := Dropped, result := if ok then Some(op.done) else None)
    case DropTxn => op.(phase := Dropped)
    case FreePermit => op.(phase := Finished)
    case EndMaintenance => op.(phase := ReaderPermitsFreed)
    case FreeMutex => op.(phase := Finished)
  }

  /** Committed ingestions run one after the other, alone. */
  function Replay(store: Store, commits: seq<Landed>): Store {
    if commits == [] then store else PutAll(Replay(store, commits[..|commits| - 1]), commits[|commits| - 1].items)
  }

  predicate Feasible(s0: State, es: seq<Event>)
    decreases es, 0
  {
    es == [] || (Feasible(s0, es[..|es| - 1]) && Enabled(After(s0, es[..|es| - 1]), es[|es| - 1]))
  }

  function After(s0: State, es: seq<Event>): State
    requires Feasible(s0, es)
    decreases es, 1
  {
    if es == [] then s0 else Next(After(s0, es[..|es| - 1]), es[|es| - 1])
  }
}
