/** Who can wait for ever at the gates: exactly the tasks that ask for a gate inside another one in any
    order but a read inside their own write. */
module GateProgress {
  import opened Wrappers
  import opened Stores
  import opened Gates
  import opened GateSafety

  /** heed refuses to open with no reader slots; redb does not. */
  function OpenHeed(maxReaders: nat, store: Store): Option<State> {
    if maxReaders > 0 then Some(Initial(maxReaders, store)) else None
  }

  function OpenRedb(maxReaders: nat, store: Store): State {
    Initial(maxReaders, store)
  }

  // ---- the lock order ----

  /** A task may read inside its own write. */
  predicate MayNest(held: Op, asked: Op) {
    held.kind.Write? && held.HasWriter() && asked.kind.Read?
  }

  predicate SameTask(s: State, o: OpId, p: OpId)
    requires o < |s.ops| && p < |s.ops|
  {
    o != p && s.ops[o].owner == s.ops[p].owner
  }

  /** A task that waits holds nothing but writes past the mutex, and then it waits for a read. */
  ghost predicate LockOrder(s: State) {
    forall o, p :: 0 <= o < |s.ops| && 0 <= p < |s.ops| && SameTask(s, o, p) && s.ops[o].Waiting() && !s.ops[p].phase.Finished? ==>
      MayNest(s.ops[p], s.ops[o])
  }

  /** Someone waits, and no event but a new request is possible. */
  ghost predicate Stuck(s: State) {
    && (exists o :: 0 <= o < |s.ops| && s.ops[o].Waiting())
    && forall e: Event :: !e.Begin? ==> !Enabled(s, e)
  }

  /** Changing an operation whose task waits for nothing else keeps the order, unless it starts to wait
      while the task has other gates. */
  lemma KeepsLockOrder(s: State, s': State, o: OpId)
    requires LockOrder(s) && o < |s.ops| == |s'.ops| && s'.ops == s.ops[o := s'.ops[o]]
    requires s'.ops[o].owner == s.ops[o].owner && OwnerRuns(s, o)
    requires s'.ops[o].Waiting() ==> forall p :: 0 <= p < |s.ops| && SameTask(s, o, p) ==> s.ops[p].phase.Finished?
    ensures LockOrder(s')
  {
    forall w, p | 0 <= w < |s'.ops| && 0 <= p < |s'.ops| && SameTask(s', w, p) && s'.ops[w].Waiting() && !s'.ops[p].phase.Finished?
      ensures MayNest(s'.ops[p], s'.ops[w])
    {
      if w == o {
        assert SameTask(s, o, p);
      } else {
        assert s.ops[w].owner != s.ops[o].owner;
        assert SameTask(s, w, p);
      }
    }
  }

  /** The task of a waiting operation waits for nothing else. */
  lemma WaitsOnce(s: State, o: OpId)
    requires LockOrder(s) && WriterOk(s) && o < |s.ops| && s.ops[o].Waiting()
    ensures OwnerRuns(s, o)
  {
    forall p | 0 <= p < |s.ops| && p != o && s.ops[p].owner == s.ops[o].owner
      ensures !s.ops[p].Waiting()
    {
      assert SameTask(s, o, p);
      assert PhaseFits(s.ops[p]);
    }
  }

  // ---- somebody can move ----

  /** Past its gates, with a task that is not waiting elsewhere. */
  predicate Ready(s: State, p: OpId) {
    p < |s.ops| && !s.ops[p].Waiting() && !s.ops[p].phase.Finished? && OwnerRuns(s, p)
  }

  /** Maintenance that is about to ask for the reader permits. */
  predicate AboutToWait(op: Op) {
    op.kind.Maintain? && op.phase.Holding?
  }

  /** The next step towards an operation's end. */
  function NextAction(op: Op): Action
    requires PhaseFits(op) && !op.Waiting() && !op.phase.Finished?
  {
    match op.phase
    case Holding => if op.kind.Maintain? then RequestReaders else OpenTxn(true)
    case Open => DropTxn
    case Dropped => FreePermit
    case Maintaining => EndMaintenance
    case _ => FreeMutex
  }

  lemma MoveReady(s: State, p: OpId) returns (e: Event)
    requires WriterOk(s) && LockOrder(s) && Ready(s, p) && !AboutToWait(s.ops[p])
    ensures !e.Begin? && Enabled(s, e) && LockOrder(Next(s, e))
  {
    e := Step(p, NextAction(s.ops[p]));
    KeepsLockOrder(s, Next(s, e), p);
  }

  /** Maintenance may ask for the permits when its task has nothing else that could be dropped first. */
  lemma MoveMaintenance(s: State, p: OpId) returns (e: Event)
    requires WriterOk(s) && LockOrder(s) && Ready(s, p) && AboutToWait(s.ops[p])
    requires forall q :: 0 <= q < |s.ops| && Ready(s, q) ==> AboutToWait(s.ops[q])
    ensures !e.Begin? && Enabled(s, e) && LockOrder(Next(s, e))
  {
    e := Step(p, RequestReaders);
    forall q | 0 <= q < |s.ops| && SameTask(s, p, q)
      ensures s.ops[q].phase.Finished?
    {
      if !s.ops[q].phase.Finished? {
        assert Ready(s, q);
        assert s.ops[p].HasWriter() && s.ops[q].HasWriter();
        assert false;
      }
    }
    KeepsLockOrder(s, Next(s, e), p);
  }

  /** When nobody is ready, whoever is past a gate is a write whose task waits for a read. */
  lemma OnlyWritesAreHeld(s: State, p: OpId) returns (w: OpId)
    requires LockOrder(s) && p < |s.ops| && !s.ops[p].Waiting() && !s.ops[p].phase.Finished? && !Ready(s, p)
    ensures w < |s.ops| && s.ops[w].Waiting() && s.ops[w].kind.Read? && s.ops[p].kind.Write?
  {
    w :| 0 <= w < |s.ops| && w != p && s.ops[w].owner == s.ops[p].owner && s.ops[w].Waiting();
    assert SameTask(s, w, p);
  }

  lemma {:induction false} NoPermitsHeld(ops: seq<Op>, maxReaders: nat)
    requires forall o :: 0 <= o < |ops| ==> ops[o].ReaderPermits(maxReaders) == 0
    ensures PermitsHeld(ops, maxReaders) == 0
  {
    if ops != [] {
      NoPermitsHeld(ops[..|ops| - 1], maxReaders);
    }
  }

  lemma AllPermitsAreFree(s: State)
    requires LockOrder(s) && PermitsOk(s) && forall p :: 0 <= p < |s.ops| ==> !Ready(s, p)
    ensures s.available == s.maxReaders
  {
    forall p | 0 <= p < |s.ops|
      ensures s.ops[p].ReaderPermits(s.maxReaders) == 0
    {
      if !s.ops[p].Waiting() && !s.ops[p].phase.Finished? {
        var w := OnlyWritesAreHeld(s, p);
      }
    }
    NoPermitsHeld(s.ops, s.maxReaders);
  }

  lemma MutexIsFree(s: State)
    requires LockOrder(s) && WriterOk(s) && ReadersOk(s) && s.readerQueue == []
    requires forall p :: 0 <= p < |s.ops| ==> !Ready(s, p)
    ensures s.writer.None?
  {
    if s.writer.Some? {
      var p := s.writer.value;
      assert s.ops[p].HasWriter();
      if !s.ops[p].Waiting() {
        var w := OnlyWritesAreHeld(s, p);
        assert false;
      }
    }
  }

  /** So the gates themselves can move. */
  lemma MoveGates(s: State, o: OpId) returns (e: Event)
    requires PermitsOk(s) && WriterOk(s) && ReadersOk(s) && LockOrder(s) && s.maxReaders > 0
    requires o < |s.ops| && !s.ops[o].phase.Finished? && forall p :: 0 <= p < |s.ops| ==> !Ready(s, p)
    ensures (e.GrantReaders? || e.GrantWriter?) && Enabled(s, e)
  {
    AllPermitsAreFree(s);
    if s.readerQueue != [] {
      assert s.readerQueue[0] == s.readerLog[s.granted];
      e := GrantReaders;
    } else {
      MutexIsFree(s);
      SomeoneAsksForTheMutex(s, o);
      assert s.writerQueue[0] in s.writerQueue;
      e := GrantWriter;
    }
  }

  lemma SomeoneAsksForTheMutex(s: State, o: OpId)
    requires LockOrder(s) && WriterOk(s) && ReadersOk(s) && s.readerQueue == []
    requires o < |s.ops| && !s.ops[o].phase.Finished? && forall p :: 0 <= p < |s.ops| ==> !Ready(s, p)
    ensures s.writerQueue != []
  {
    if !s.ops[o].Waiting() {
      var w := OnlyWritesAreHeld(s, o);
      assert false;
    }
  }

  lemma GrantKeepsLockOrder(s: State, e: Event)
    requires WriterOk(s) && ReadersOk(s) && LockOrder(s) && Enabled(s, e) && (e.GrantReaders? || e.GrantWriter?)
    ensures LockOrder(Next(s, e))
  {
    var o := if e.GrantReaders? then s.readerQueue[0] else s.writerQueue[0];
    if e.GrantReaders? {
      assert o == s.readerLog[s.granted];
    } else {
      assert o in s.writerQueue;
    }
    WaitsOnce(s, o);
    KeepsLockOrder(s, Next(s, e), o);
  }

  /** While anything is unfinished, something can move without breaking the order. */
  lemma SomeoneCanMove(s0: State, s: State, o: OpId) returns (e: Event)
    requires Inv(s0, s) && s.maxReaders > 0 && LockOrder(s)
    requires o < |s.ops| && !s.ops[o].phase.Finished?
    ensures !e.Begin? && Enabled(s, e) && LockOrder(Next(s, e))
  {
    if p :| 0 <= p < |s.ops| && Ready(s, p) && !AboutToWait(s.ops[p]) {
      e := MoveReady(s, p);
    } else if p :| 0 <= p < |s.ops| && Ready(s, p) {
      e := MoveMaintenance(s, p);
    } else {
      e := MoveGates(s, o);
      GrantKeepsLockOrder(s, e);
    }
  }

  /** With a reader slot, no reachable state that keeps the lock order is stuck. */
  lemma NeverStuck(s0: State, s: State)
    requires Reachable(s0, s) && s0.maxReaders > 0 && LockOrder(s)
    ensures !Stuck(s)
  {
    ReachableInv(s0, s);
    if o :| 0 <= o < |s.ops| && s.ops[o].Waiting() {
      var e := SomeoneCanMove(s0, s, o);
    }
  }

  // ---- everybody can finish ----

  /** Steps an operation still has to make, at most. */
  function Left(op: Op): nat {
    match op.phase
    case WaitWriter => if op.kind.Write? then |op.kind.items| + 4 else 6
    case Holding => if op.kind.Write? then |op.kind.items| + 3 else if op.kind.Read? then 3 else 5
    case WaitReaders => 4
    case Open => (if op.kind.Write? && op.done <= |op.kind.items| then |op.kind.items| - op.done else 0) + 2
    case Maintaining => 2
    case Dropped => 1
    case ReaderPermitsFreed => 1
    case Finished => 0
  }

  function Work(ops: seq<Op>): nat {
    if ops == [] then 0 else Work(ops[..|ops| - 1]) + Left(ops[|ops| - 1])
  }

  lemma {:induction false} WorkAfterUpdate(ops: seq<Op>, o: OpId, op: Op)
    requires o < |ops|
    ensures Work(ops[o := op]) + Left(ops[o]) == Work(ops) + Left(op)
  {
    var n := |ops| - 1;
    if o == n {
      assert ops[o := op][..n] == ops[..n];
    } else {
      assert ops[o := op][..n] == ops[..n][o := op];
      WorkAfterUpdate(ops[..n], o, op);
    }
  }

  /** The operation an event other than `Begin` advances. */
  function Subject(s: State, e: Event): OpId
    requires Enabled(s, e) && !e.Begin?
  {
    match e
    case GrantWriter => s.writerQueue[0]
    case GrantReaders => s.readerQueue[0]
    case Step(o, _) => o
  }

  lemma ActAdvances(op: Op, act: Action, committed: Store, commits: nat)
    requires CanAct(op, act)
    ensures Left(Act(op, act, committed, commits)) < Left(op)
  {
  }

  lemma SubjectAdvances(s: State, e: Event)
    requires WriterOk(s) && ReadersOk(s) && Enabled(s, e) && !e.Begin?
    ensures
      var o := Subject(s, e);
      && o < |s.ops| && Next(s, e).ops == s.ops[o := Next(s, e).ops[o]]
      && Left(Next(s, e).ops[o]) < Left(s.ops[o])
  {
    match e
    case GrantWriter => assert s.writerQueue[0] in s.writerQueue;
    case GrantReaders => assert s.readerQueue[0] == s.readerLog[s.granted];
    case Step(o, act) => ActAdvances(s.ops[o], act, s.committed, |s.commits|);
  }

  lemma WorkShrinks(s: State, e: Event)
    requires WriterOk(s) && ReadersOk(s) && Enabled(s, e) && !e.Begin?
    ensures Work(Next(s, e).ops) < Work(s.ops) && |Next(s, e).ops| == |s.ops|
  {
    SubjectAdvances(s, e);
    WorkAfterUpdate(s.ops, Subject(s, e), Next(s, e).ops[Subject(s, e)]);
  }

  predicate NoRequests(es: seq<Event>) {
    forall i :: 0 <= i < |es| ==> !es[i].Begin?
  }

  predicate AllFinished(ops: seq<Op>) {
    forall o :: 0 <= o < |ops| ==> ops[o].phase.Finished?
  }

  /** A run from `s` to `t` in which nothing new is requested. */
  ghost predicate RunsTo(s: State, es: seq<Event>, t: State) {
    Feasible(s, es) && After(s, es) == t && NoRequests(es)
  }

  lemma RunsOn(s: State, es: seq<Event>, t: State, e: Event)
    requires RunsTo(s, es, t) && Enabled(t, e) && !e.Begin?
    ensures RunsTo(s, es + [e], Next(t, e))
  {
    assert (es + [e])[..|es|] == es;
  }

  /** One more step of a run towards the end of everybody. */
  lemma Advance(s0: State, s: State) returns (e: Event)
    requires Inv(s0, s) && s.maxReaders > 0 && LockOrder(s) && !AllFinished(s.ops)
    ensures !e.Begin? && Enabled(s, e) && Inv(s0, Next(s, e)) && LockOrder(Next(s, e))
    ensures Work(Next(s, e).ops) < Work(s.ops) && |Next(s, e).ops| == |s.ops|
    ensures Next(s, e).maxReaders > 0
  {
    var o :| 0 <= o < |s.ops| && !s.ops[o].phase.Finished?;
    e := SomeoneCanMove(s0, s, o);
    InvStep(s0, s, e);
    WorkShrinks(s, e);
  }

  lemma {:induction false} FinishFrom(s0: State, s: State, es: seq<Event>, now: State) returns (all: seq<Event>, end: State)
    requires RunsTo(s, es, now) && Inv(s0, now) && now.maxReaders > 0 && LockOrder(now)
    ensures RunsTo(s, all, end) && AllFinished(end.ops) && |end.ops| == |now.ops|
    decreases Work(now.ops)
  {
    if AllFinished(now.ops) {
      all, end := es, now;
    } else {
      var e := Advance(s0, now);
      RunsOn(s, es, now, e);
      all, end := FinishFrom(s0, s, es + [e], Next(now, e));
    }
  }

  /** From every reachable state that keeps the lock order, every request can be served without any new
      one being made. */
  lemma EverybodyCanFinish(s0: State, s: State) returns (es: seq<Event>, end: State)
    requires Reachable(s0, s) && s0.maxReaders > 0 && LockOrder(s)
    ensures RunsTo(s, es, end) && AllFinished(end.ops) && |end.ops| == |s.ops|
  {
    ReachableInv(s0, s);
    es, end := FinishFrom(s0, s, [], s);
  }

  /** And no run can go on for long without a new request: each step uses up work. */
  lemma {:induction false} RunsWithoutRequestsEnd(s0: State, s: State, es: seq<Event>)
    requires Inv(s0, s) && Feasible(s, es) && NoRequests(es)
    ensures Inv(s0, After(s, es)) && |es| + Work(After(s, es).ops) <= Work(s.ops)
  {
    if es == [] {
    } else {
      var n := |es| - 1;
      RunsWithoutRequestsEnd(s0, s, es[..n]);
      InvStep(s0, After(s, es[..n]), es[n]);
      WorkShrinks(After(s, es[..n]), es[n]);
    }
  }
}
