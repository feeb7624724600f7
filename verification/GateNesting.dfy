/** Which nestings of gates inside one task can get a run stuck: all but a read inside the own write. */
module GateNesting {
  import opened Wrappers
  import opened Stores
  import opened Gates
  import opened GateSafety
  import opened GateProgress

  datatype Gate = ReadGate | WriteGate | MaintainGate

  function GateOf(kind: Kind): Gate {
    match kind
    case Read => ReadGate
    case Write(_) => WriteGate
    case Maintain => MaintainGate
  }

  /** A gate and the one asked for inside it. */
  datatype Nesting = Nesting(held: Gate, asked: Gate)

  const READ_IN_WRITE := Nesting(WriteGate, ReadGate)

  /** A request nests only as allowed in whatever its task has not finished. */
  predicate Allowed(s: State, e: Event, allowed: set<Nesting>) {
    e.Begin? ==>
      forall p :: 0 <= p < |s.ops| && s.ops[p].owner == e.owner && !s.ops[p].phase.Finished? ==>
        Nesting(GateOf(s.ops[p].kind), GateOf(e.kind)) in allowed
  }

  predicate Within(s0: State, es: seq<Event>, allowed: set<Nesting>)
    requires Feasible(s0, es)
    decreases es
  {
    es == [] || (Within(s0, es[..|es| - 1], allowed) && Allowed(After(s0, es[..|es| - 1]), es[|es| - 1], allowed))
  }

  // ---- reading inside the own write ----

  /** Of two unfinished operations of a task the earlier is a write past the mutex and the later a read. */
  ghost predicate NestOrder(s: State) {
    forall p, o :: 0 <= p < o < |s.ops| && SameTask(s, p, o) && !s.ops[p].phase.Finished? && !s.ops[o].phase.Finished? ==>
      MayNest(s.ops[p], s.ops[o])
  }

  lemma NestOrderIsLockOrder(s: State)
    requires NestOrder(s)
    ensures LockOrder(s)
  {
    forall o, p | 0 <= o < |s.ops| && 0 <= p < |s.ops| && SameTask(s, o, p) && s.ops[o].Waiting() && !s.ops[p].phase.Finished?
      ensures MayNest(s.ops[p], s.ops[o])
    {
      assert SameTask(s, p, o);
      assert p < o || MayNest(s.ops[o], s.ops[p]);
    }
  }

  lemma NestOrderBegin(s: State, owner: TaskId, kind: Kind)
    requires NestOrder(s) && WriterOk(s) && Enabled(s, Begin(owner, kind)) && Allowed(s, Begin(owner, kind), {READ_IN_WRITE})
    ensures NestOrder(BeginStep(s, owner, kind))
  {
    var s' := BeginStep(s, owner, kind);
    forall p, o | 0 <= p < o < |s'.ops| && SameTask(s', p, o) && !s'.ops[p].phase.Finished? && !s'.ops[o].phase.Finished?
      ensures MayNest(s'.ops[p], s'.ops[o])
    {
      if o == |s.ops| {
        assert Nesting(GateOf(s.ops[p].kind), GateOf(kind)) in {READ_IN_WRITE};
        assert PhaseFits(s.ops[p]);
      } else {
        assert SameTask(s, p, o);
      }
    }
  }

  /** An operation that keeps its gate until it finishes keeps the order. */
  lemma NestOrderReplace(s: State, s': State, x: OpId)
    requires NestOrder(s) && x < |s.ops| == |s'.ops| && s'.ops == s.ops[x := s'.ops[x]]
    requires s'.ops[x].owner == s.ops[x].owner && s'.ops[x].kind == s.ops[x].kind && !s.ops[x].phase.Finished?
    requires s.ops[x].kind.Write? && s.ops[x].HasWriter() && !s'.ops[x].phase.Finished? ==> s'.ops[x].HasWriter()
    ensures NestOrder(s')
  {
    forall p, o | 0 <= p < o < |s'.ops| && SameTask(s', p, o) && !s'.ops[p].phase.Finished? && !s'.ops[o].phase.Finished?
      ensures MayNest(s'.ops[p], s'.ops[o])
    {
      assert SameTask(s, p, o);
    }
  }

  lemma NestOrderGrantWriter(s: State)
    requires NestOrder(s) && WriterOk(s) && Enabled(s, GrantWriter)
    ensures NestOrder(Next(s, GrantWriter))
  {
    assert s.writerQueue[0] in s.writerQueue;
    NestOrderReplace(s, Next(s, GrantWriter), s.writerQueue[0]);
  }

  lemma NestOrderGrantReaders(s: State)
    requires NestOrder(s) && ReadersOk(s) && Enabled(s, GrantReaders)
    ensures NestOrder(Next(s, GrantReaders))
  {
    assert s.readerQueue[0] == s.readerLog[s.granted];
    NestOrderReplace(s, Next(s, GrantReaders), s.readerQueue[0]);
  }

  lemma NestOrderStep(s: State, e: Event)
    requires NestOrder(s) && WriterOk(s) && ReadersOk(s) && Enabled(s, e) && Allowed(s, e, {READ_IN_WRITE})
    ensures NestOrder(Next(s, e))
  {
    match e
    case Begin(owner, kind) => NestOrderBegin(s, owner, kind);
    case GrantWriter => NestOrderGrantWriter(s);
    case GrantReaders => NestOrderGrantReaders(s);
    case Step(o, act) => NestOrderReplace(s, Next(s, e), o);
  }

  lemma {:induction false} NestOrderAlways(s0: State, es: seq<Event>)
    requires Start(s0) && Feasible(s0, es) && Within(s0, es, {READ_IN_WRITE})
    ensures NestOrder(After(s0, es))
  {
    if es == [] {
    } else {
      var s := After(s0, es[..|es| - 1]);
      NestOrderAlways(s0, es[..|es| - 1]);
      InvAlways(s0, es[..|es| - 1]);
      NestOrderStep(s, es[|es| - 1]);
    }
  }

  lemma {:induction false} WithinMore(s0: State, es: seq<Event>, some: set<Nesting>, more: set<Nesting>)
    requires Feasible(s0, es) && Within(s0, es, some) && some <= more
    ensures Within(s0, es, more)
  {
    if es != [] {
      WithinMore(s0, es[..|es| - 1], some, more);
    }
  }

  /** Runs that nest nothing but a read inside the own write never get stuck. */
  lemma ReadInWriteNeverSticks(s0: State, es: seq<Event>)
    requires Start(s0) && s0.maxReaders > 0 && Feasible(s0, es) && Within(s0, es, {READ_IN_WRITE})
    ensures !Stuck(After(s0, es))
  {
    NestOrderAlways(s0, es);
    NestOrderIsLockOrder(After(s0, es));
    NeverStuck(s0, After(s0, es));
  }

  lemma {:induction false} NestOrderGoesOn(s0: State, s: State, es: seq<Event>)
    requires Inv(s0, s) && NestOrder(s) && Feasible(s, es) && NoRequests(es)
    ensures Inv(s0, After(s, es)) && NestOrder(After(s, es)) && After(s, es).maxReaders == s.maxReaders
  {
    if es != [] {
      var before, e := After(s, es[..|es| - 1]), es[|es| - 1];
      NestOrderGoesOn(s0, s, es[..|es| - 1]);
      InvStep(s0, before, e);
      NestOrderStep(before, e);
    }
  }

  /** Nothing but a new request is possible. */
  ghost predicate Exhausted(s: State) {
    forall e: Event :: !e.Begin? ==> !Enabled(s, e)
  }

  /** However the gates and the tasks go on after permitted nestings: once nothing is asked for any more,
      every run ends within a bounded number of events, and where it ends everybody has finished. */
  lemma EveryRunFinishesEverybody(s0: State, asked: seq<Event>, es: seq<Event>)
    requires Start(s0) && s0.maxReaders > 0 && Feasible(s0, asked) && Within(s0, asked, {READ_IN_WRITE})
    requires Feasible(After(s0, asked), es) && NoRequests(es)
    ensures |es| <= Work(After(s0, asked).ops)
    ensures Exhausted(After(After(s0, asked), es)) ==> AllFinished(After(After(s0, asked), es).ops)
  {
    var s := After(s0, asked);
    InvAlways(s0, asked);
    NestOrderAlways(s0, asked);
    RunsWithoutRequestsEnd(s0, s, es);
    NestOrderGoesOn(s0, s, es);
    ExhaustedMeansFinished(s0, After(s, es));
  }

  lemma ExhaustedMeansFinished(s0: State, s: State)
    requires Inv(s0, s) && NestOrder(s) && s.maxReaders > 0
    ensures Exhausted(s) ==> AllFinished(s.ops)
  {
    if o :| 0 <= o < |s.ops| && !s.ops[o].phase.Finished? {
      NestOrderIsLockOrder(s);
      var e := SomeoneCanMove(s0, s, o);
    }
  }

  // ---- every other nesting ----

  /** A run with its end state and its nestings. */
  ghost predicate Leads(s0: State, es: seq<Event>, s: State, nestings: set<Nesting>) {
    Feasible(s0, es) && After(s0, es) == s && Within(s0, es, nestings)
  }

  lemma Then(s0: State, es: seq<Event>, s: State, e: Event, s': State, nestings: set<Nesting>) returns (longer: seq<Event>)
    requires Leads(s0, es, s, nestings)
    requires Enabled(s, e) && Allowed(s, e, nestings) && Next(s, e) == s'
    ensures longer == es + [e] && Leads(s0, longer, s', nestings)
  {
    longer := es + [e];
    assert longer[..|es|] == es;
  }

  function Asked(owner: TaskId, kind: Kind, phase: Phase): Op {
    Op(owner, kind, phase, map[], 0, 0, None)
  }

  /** Task 0 holds a read. */
  function HeldRead(n: nat, store: Store): State
    requires n > 0
  {
    State(n, [Asked(0, Read, Holding)], n - 1, [], [], None, store, [0], 1, [])
  }

  lemma HoldRead(n: nat, store: Store, nestings: set<Nesting>) returns (es: seq<Event>)
    requires n > 0
    ensures Leads(Initial(n, store), es, HeldRead(n, store), nestings)
  {
    var s0 := Initial(n, store);
    var s1 := State(n, [Asked(0, Read, WaitReaders)], n, [0], [], None, store, [0], 0, []);
    es := Then(s0, [], s0, Begin(0, Read), s1, nestings);
    es := Then(s0, es, s1, GrantReaders, HeldRead(n, store), nestings);
  }

  /** Task 0 holds the mutex for a write or for maintenance. */
  function HeldMutex(n: nat, store: Store, kind: Kind): State {
    State(n, [Asked(0, kind, Holding)], n, [], [], Some(0), store, [], 0, [])
  }

  lemma HoldMutex(n: nat, store: Store, kind: Kind, nestings: set<Nesting>) returns (es: seq<Event>)
    requires !kind.Read?
    ensures Leads(Initial(n, store), es, HeldMutex(n, store, kind), nestings)
  {
    var s0 := Initial(n, store);
    var s1 := State(n, [Asked(0, kind, WaitWriter)], n, [], [0], None, store, [], 0, []);
    es := Then(s0, [], s0, Begin(0, kind), s1, nestings);
    es := Then(s0, es, s1, GrantWriter, HeldMutex(n, store, kind), nestings);
  }

  /** Task 0 runs maintenance. */
  function InMaintenance(n: nat, store: Store): State {
    State(n, [Asked(0, Maintain, Maintaining)], 0, [], [], Some(0), store, [0], 1, [])
  }

  lemma RunMaintenance(n: nat, store: Store, nestings: set<Nesting>) returns (es: seq<Event>)
    ensures Leads(Initial(n, store), es, InMaintenance(n, store), nestings)
  {
    var s0 := Initial(n, store);
    var s1 := State(n, [Asked(0, Maintain, WaitReaders)], n, [0], [], Some(0), store, [0], 0, []);
    es := HoldMutex(n, store, Maintain, nestings);
    es := Then(s0, es, HeldMutex(n, store, Maintain), Step(0, RequestReaders), s1, nestings);
    es := Then(s0, es, s1, GrantReaders, InMaintenance(n, store), nestings);
  }

  /** Task 0 holds a read, and `owner` has got the mutex for maintenance and waits for that read. */
  function MaintenanceWaits(n: nat, store: Store, owner: TaskId): State
    requires n > 0
  {
    State(n, [Asked(0, Read, Holding), Asked(owner, Maintain, WaitReaders)], n - 1, [1], [], Some(1), store, [0, 1], 1, [])
  }

  function MaintenanceAsked(n: nat, store: Store, owner: TaskId): State
    requires n > 0
  {
    State(n, [Asked(0, Read, Holding), Asked(owner, Maintain, WaitWriter)], n - 1, [], [1], None, store, [0], 1, [])
  }

  function MaintenanceHolds(n: nat, store: Store, owner: TaskId): State
    requires n > 0
  {
    State(n, [Asked(0, Read, Holding), Asked(owner, Maintain, Holding)], n - 1, [], [], Some(1), store, [0], 1, [])
  }

  lemma AskForMaintenance(n: nat, store: Store, owner: TaskId, nestings: set<Nesting>) returns (es: seq<Event>)
    requires n > 0 && (owner == 0 ==> Nesting(ReadGate, MaintainGate) in nestings)
    ensures Leads(Initial(n, store), es, MaintenanceAsked(n, store, owner), nestings)
  {
    es := HoldRead(n, store, nestings);
    es := Then(Initial(n, store), es, HeldRead(n, store), Begin(owner, Maintain), MaintenanceAsked(n, store, owner), nestings);
  }

  lemma HoldMaintenance(n: nat, store: Store, owner: TaskId, nestings: set<Nesting>) returns (es: seq<Event>)
    requires n > 0 && (owner == 0 ==> Nesting(ReadGate, MaintainGate) in nestings)
    ensures Leads(Initial(n, store), es, MaintenanceHolds(n, store, owner), nestings)
  {
    es := AskForMaintenance(n, store, owner, nestings);
    es := Then(Initial(n, store), es, MaintenanceAsked(n, store, owner), GrantWriter, MaintenanceHolds(n, store, owner), nestings);
  }

  lemma LetMaintenanceWait(n: nat, store: Store, owner: TaskId, nestings: set<Nesting>) returns (es: seq<Event>)
    requires n > 0 && (owner == 0 ==> Nesting(ReadGate, MaintainGate) in nestings)
    ensures Leads(Initial(n, store), es, MaintenanceWaits(n, store, owner), nestings)
  {
    es := HoldMaintenance(n, store, owner, nestings);
    es := Then(Initial(n, store), es, MaintenanceHolds(n, store, owner), Step(1, RequestReaders), MaintenanceWaits(n, store, owner), nestings);
  }

  /** A task that waits inside a read for its own maintenance. */
  lemma MaintainInReadSticks(n: nat, store: Store)
    requires n > 0
    ensures Stuck(MaintenanceWaits(n, store, 0))
  {
    var s := MaintenanceWaits(n, store, 0);
    assert s.ops[1].Waiting() && s.ops[0].owner == s.ops[1].owner;
  }

  /** With another task's maintenance queued between a read and its task's next request, that request is
      never served. */
  lemma AskBehindMaintenance(n: nat, store: Store, kind: Kind)
    requires n > 0 && !kind.Maintain?
    ensures Stuck(BeginStep(MaintenanceWaits(n, store, 1), 0, kind))
  {
    var s := BeginStep(MaintenanceWaits(n, store, 1), 0, kind);
    assert s.ops[1].Waiting() && s.ops[2].Waiting() && s.ops[0].owner == s.ops[2].owner;
  }

  /** Asking for the mutex inside the mutex. */
  lemma AskMutexTwice(n: nat, store: Store, held: Kind, kind: Kind)
    requires !held.Read? && !kind.Read?
    ensures Stuck(BeginStep(HeldMutex(n, store, held), 0, kind))
  {
    var s := BeginStep(HeldMutex(n, store, held), 0, kind);
    assert s.ops[1].Waiting() && s.ops[0].owner == s.ops[1].owner;
  }

  /** Asking for anything inside one's own maintenance. */
  lemma AskInMaintenance(n: nat, store: Store, kind: Kind)
    ensures Stuck(BeginStep(InMaintenance(n, store), 0, kind))
  {
    var s := BeginStep(InMaintenance(n, store), 0, kind);
    assert s.ops[1].Waiting() && s.ops[0].owner == s.ops[1].owner;
  }

  function KindOf(gate: Gate): Kind {
    match gate
    case ReadGate => Read
    case WriteGate => Write([])
    case MaintainGate => Maintain
  }

  /** Some run that nests only as given ends stuck. */
  ghost predicate Sticks(s0: State, nestings: set<Nesting>) {
    exists es, s :: Leads(s0, es, s, nestings) && Stuck(s)
  }

  lemma MaintainInRead(n: nat, store: Store)
    requires n > 0
    ensures Sticks(Initial(n, store), {Nesting(ReadGate, MaintainGate)})
  {
    var es := LetMaintenanceWait(n, store, 0, {Nesting(ReadGate, MaintainGate)});
    MaintainInReadSticks(n, store);
  }

  /** What a task asks for inside something it holds never comes, if `before` is such that it does not. */
  lemma AskingSticks(s0: State, es: seq<Event>, before: State, nesting: Nesting)
    requires Leads(s0, es, before, {nesting}) && Enabled(before, Begin(0, KindOf(nesting.asked)))
    requires forall p :: 0 <= p < |before.ops| && before.ops[p].owner == 0 ==> GateOf(before.ops[p].kind) == nesting.held
    requires Stuck(BeginStep(before, 0, KindOf(nesting.asked)))
    ensures Sticks(s0, {nesting})
  {
    var longer := Then(s0, es, before, Begin(0, KindOf(nesting.asked)), BeginStep(before, 0, KindOf(nesting.asked)), {nesting});
  }

  lemma ReadOrWriteInRead(n: nat, store: Store, asked: Gate)
    requires n > 0 && !asked.MaintainGate?
    ensures Sticks(Initial(n, store), {Nesting(ReadGate, asked)})
  {
    var es := LetMaintenanceWait(n, store, 1, {Nesting(ReadGate, asked)});
    AskBehindMaintenance(n, store, KindOf(asked));
    AskingSticks(Initial(n, store), es, MaintenanceWaits(n, store, 1), Nesting(ReadGate, asked));
  }

  lemma WriteOrMaintainInWrite(n: nat, store: Store, asked: Gate)
    requires !asked.ReadGate?
    ensures Sticks(Initial(n, store), {Nesting(WriteGate, asked)})
  {
    var es := HoldMutex(n, store, Write([]), {Nesting(WriteGate, asked)});
    AskMutexTwice(n, store, Write([]), KindOf(asked));
    AskingSticks(Initial(n, store), es, HeldMutex(n, store, Write([])), Nesting(WriteGate, asked));
  }

  lemma AnythingInMaintenance(n: nat, store: Store, asked: Gate)
    ensures Sticks(Initial(n, store), {Nesting(MaintainGate, asked)})
  {
    var es := RunMaintenance(n, store, {Nesting(MaintainGate, asked)});
    AskInMaintenance(n, store, KindOf(asked));
    AskingSticks(Initial(n, store), es, InMaintenance(n, store), Nesting(MaintainGate, asked));
  }

  /** For any number of reader slots, every nesting but a read inside the own write sticks in a run that
      nests nothing else. */
  lemma OtherNestingsStick(n: nat, store: Store, nesting: Nesting)
    requires n > 0 && nesting != READ_IN_WRITE
    ensures Sticks(Initial(n, store), {nesting})
  {
    match nesting.held
    case ReadGate =>
      if nesting.asked.MaintainGate? {
        MaintainInRead(n, store);
      } else {
        ReadOrWriteInRead(n, store, nesting.asked);
      }
    case WriteGate => WriteOrMaintainInWrite(n, store, nesting.asked);
    case MaintainGate => AnythingInMaintenance(n, store, nesting.asked);
  }

  /** No run of a database with `n` reader slots gets stuck if its tasks nest as allowed. */
  ghost predicate NeverSticks(n: nat, allowed: set<Nesting>) {
    forall store, es :: Feasible(Initial(n, store), es) && Within(Initial(n, store), es, allowed) ==> !Stuck(After(Initial(n, store), es))
  }

  /** Where maintenance runs beside readers and writers, exactly the sets of nestings without any but a read
      inside the own write are safe, for any number of reader slots. */
  lemma SafeNestingsExactly(n: nat, allowed: set<Nesting>)
    requires n > 0
    ensures NeverSticks(n, allowed) <==> allowed <= {READ_IN_WRITE}
  {
    if allowed <= {READ_IN_WRITE} {
      forall store, es | Feasible(Initial(n, store), es) && Within(Initial(n, store), es, allowed)
        ensures !Stuck(After(Initial(n, store), es))
      {
        WithinMore(Initial(n, store), es, allowed, {READ_IN_WRITE});
        ReadInWriteNeverSticks(Initial(n, store), es);
      }
    } else {
      var nesting :| nesting in allowed && nesting != READ_IN_WRITE;
      var store: Store := map[];
      OtherNestingsStick(n, store, nesting);
      var es, s :| Leads(Initial(n, store), es, s, {nesting}) && Stuck(s);
      WithinMore(Initial(n, store), es, {nesting}, allowed);
    }
  }

  // ---- no reader slots ----

  function FirstReader(store: Store): State {
    State(0, [Asked(0, Read, WaitReaders)], 0, [0], [], None, store, [0], 0, [])
  }

  lemma FirstReaderWaits(store: Store)
    ensures Stuck(FirstReader(store))
  {
    assert FirstReader(store).ops[0].Waiting();
  }

  /** redb opened without reader slots: the first reader waits for ever. heed refuses to open like that. */
  lemma NoReaderSlotsIsStuck(store: Store)
    ensures Sticks(OpenRedb(0, store), {}) && OpenHeed(0, store).None?
  {
    var s0 := OpenRedb(0, store);
    var es := Then(s0, [], s0, Begin(0, Read), FirstReader(store), {});
    FirstReaderWaits(store);
  }
}
