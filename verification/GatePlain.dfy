/** The gates when nobody asks for maintenance beside readers and writers, as in redb, whose compaction takes
    the database exclusively. */
module GatePlain {
  import opened Wrappers
  import opened Stores
  import opened Gates
  import opened GateSafety
  import opened GateProgress
  import opened GateNesting

  const READ_IN_READ := Nesting(ReadGate, ReadGate)
  const WRITE_IN_READ := Nesting(ReadGate, WriteGate)
  const WRITE_IN_WRITE := Nesting(WriteGate, WriteGate)

  predicate NoMaintenance(es: seq<Event>) {
    forall i :: 0 <= i < |es| && es[i].Begin? ==> !es[i].kind.Maintain?
  }

  predicate Plain(s: State) {
    forall o :: 0 <= o < |s.ops| ==> !s.ops[o].kind.Maintain?
  }

  lemma PlainStep(s: State, e: Event)
    requires Plain(s) && WriterOk(s) && ReadersOk(s) && Enabled(s, e) && (e.Begin? ==> !e.kind.Maintain?)
    ensures Plain(Next(s, e))
  {
    if e.GrantWriter? {
      assert s.writerQueue[0] in s.writerQueue;
    } else if e.GrantReaders? {
      assert s.readerQueue[0] == s.readerLog[s.granted];
    }
  }

  lemma {:induction false} PlainAlways(s0: State, es: seq<Event>)
    requires Start(s0) && Feasible(s0, es) && NoMaintenance(es)
    ensures Plain(After(s0, es))
  {
    if es != [] {
      PlainAlways(s0, es[..|es| - 1]);
      InvAlways(s0, es[..|es| - 1]);
      PlainStep(After(s0, es[..|es| - 1]), es[|es| - 1]);
    }
  }

  /** Nestings that involve maintenance do not matter then. */
  lemma {:induction false} WithinPlain(s0: State, es: seq<Event>, allowed: set<Nesting>, enough: set<Nesting>)
    requires Start(s0) && Feasible(s0, es) && NoMaintenance(es) && Within(s0, es, allowed)
    requires forall x :: x in allowed && !x.held.MaintainGate? && !x.asked.MaintainGate? ==> x in enough
    ensures Within(s0, es, enough)
  {
    if es != [] {
      WithinPlain(s0, es[..|es| - 1], allowed, enough);
      PlainAlways(s0, es[..|es| - 1]);
      assert Allowed(After(s0, es[..|es| - 1]), es[|es| - 1], allowed);
    }
  }

  // ---- writing inside the own reads ----

  predicate ReadThenWrite(held: Op, asked: Op) {
    held.kind.Read? && !held.Waiting() && asked.kind.Write?
  }

  /** Of two unfinished operations of a task the earlier is a read that is not waiting and the later a write. */
  ghost predicate ReadsFirst(s: State) {
    forall p, o :: 0 <= p < o < |s.ops| && SameTask(s, p, o) && !s.ops[p].phase.Finished? && !s.ops[o].phase.Finished? ==>
      ReadThenWrite(s.ops[p], s.ops[o])
  }

  lemma ReadsFirstBegin(s: State, owner: TaskId, kind: Kind)
    requires ReadsFirst(s) && Enabled(s, Begin(owner, kind)) && Allowed(s, Begin(owner, kind), {WRITE_IN_READ})
    ensures ReadsFirst(BeginStep(s, owner, kind))
  {
    var s' := BeginStep(s, owner, kind);
    forall p, o | 0 <= p < o < |s'.ops| && SameTask(s', p, o) && !s'.ops[p].phase.Finished? && !s'.ops[o].phase.Finished?
      ensures ReadThenWrite(s'.ops[p], s'.ops[o])
    {
      if o == |s.ops| {
        assert Nesting(GateOf(s.ops[p].kind), GateOf(kind)) in {WRITE_IN_READ};
      } else {
        assert SameTask(s, p, o);
      }
    }
  }

  lemma ReadsFirstReplace(s: State, s': State, x: OpId)
    requires ReadsFirst(s) && x < |s.ops| == |s'.ops| && s'.ops == s.ops[x := s'.ops[x]]
    requires s'.ops[x].owner == s.ops[x].owner && s'.ops[x].kind == s.ops[x].kind
    requires !s.ops[x].phase.Finished? && !s'.ops[x].Waiting()
    ensures ReadsFirst(s')
  {
    forall p, o | 0 <= p < o < |s'.ops| && SameTask(s', p, o) && !s'.ops[p].phase.Finished? && !s'.ops[o].phase.Finished?
      ensures ReadThenWrite(s'.ops[p], s'.ops[o])
    {
      assert SameTask(s, p, o);
    }
  }

  lemma ReadsFirstStep(s: State, e: Event)
    requires ReadsFirst(s) && Plain(s) && WriterOk(s) && ReadersOk(s) && Enabled(s, e) && Allowed(s, e, {WRITE_IN_READ})
    ensures ReadsFirst(Next(s, e))
  {
    match e
    case Begin(owner, kind) => ReadsFirstBegin(s, owner, kind);
    case GrantWriter =>
      assert s.writerQueue[0] in s.writerQueue;
      ReadsFirstReplace(s, Next(s, e), s.writerQueue[0]);
    case GrantReaders =>
      assert s.readerQueue[0] == s.readerLog[s.granted];
      ReadsFirstReplace(s, Next(s, e), s.readerQueue[0]);
    case Step(o, act) => ReadsFirstReplace(s, Next(s, e), o);
  }

  lemma {:induction false} ReadsFirstAlways(s0: State, es: seq<Event>)
    requires Start(s0) && Feasible(s0, es) && NoMaintenance(es) && Within(s0, es, {WRITE_IN_READ})
    ensures ReadsFirst(After(s0, es))
  {
    if es != [] {
      ReadsFirstAlways(s0, es[..|es| - 1]);
      PlainAlways(s0, es[..|es| - 1]);
      InvAlways(s0, es[..|es| - 1]);
      ReadsFirstStep(After(s0, es[..|es| - 1]), es[|es| - 1]);
    }
  }

  /** When nobody is ready, whoever is past a gate is a read whose task waits for the mutex. */
  lemma OnlyReadsAreHeld(s: State, p: OpId) returns (w: OpId)
    requires ReadsFirst(s) && p < |s.ops| && !s.ops[p].Waiting() && !s.ops[p].phase.Finished? && !Ready(s, p)
    ensures w < |s.ops| && s.ops[w].Waiting() && s.ops[w].kind.Write? && s.ops[p].kind.Read?
  {
    w :| 0 <= w < |s.ops| && w != p && s.ops[w].owner == s.ops[p].owner && s.ops[w].Waiting();
    if w < p {
      assert SameTask(s, w, p);
      assert false;
    } else {
      assert SameTask(s, p, w);
    }
  }

  lemma NobodyHoldsTheMutex(s: State)
    requires ReadsFirst(s) && Plain(s) && WriterOk(s) && forall p :: 0 <= p < |s.ops| ==> !Ready(s, p)
    ensures s.writer.None?
  {
    if s.writer.Some? {
      assert s.ops[s.writer.value].HasWriter();
      var w := OnlyReadsAreHeld(s, s.writer.value);
    }
  }

  /** If nobody waits for the mutex either, nobody holds a permit. */
  lemma NobodyHoldsAPermit(s: State)
    requires ReadsFirst(s) && Plain(s) && WriterOk(s) && PermitsOk(s) && s.writerQueue == []
    requires forall p :: 0 <= p < |s.ops| ==> !Ready(s, p)
    ensures s.available == s.maxReaders
  {
    forall p | 0 <= p < |s.ops|
      ensures s.ops[p].ReaderPermits(s.maxReaders) == 0
    {
      if !s.ops[p].Waiting() && !s.ops[p].phase.Finished? {
        var w := OnlyReadsAreHeld(s, p);
        assert false;
      }
    }
    NoPermitsHeld(s.ops, s.maxReaders);
  }

  lemma SomeoneGoesOn(s: State, o: OpId) returns (e: Event)
    requires ReadsFirst(s) && Plain(s) && WriterOk(s) && ReadersOk(s) && PermitsOk(s) && s.maxReaders > 0
    requires o < |s.ops| && s.ops[o].Waiting()
    ensures !e.Begin? && Enabled(s, e)
  {
    if p :| 0 <= p < |s.ops| && Ready(s, p) {
      e := Step(p, NextAction(s.ops[p]));
    } else if s.writerQueue != [] {
      NobodyHoldsTheMutex(s);
      assert s.writerQueue[0] in s.writerQueue;
      e := GrantWriter;
    } else {
      NobodyHoldsAPermit(s);
      assert o in s.readerQueue;
      assert s.readerQueue[0] == s.readerLog[s.granted];
      e := GrantReaders;
    }
  }

  /** Runs without maintenance that nest nothing but a write inside the own read never get stuck. */
  lemma WriteInReadNeverSticks(s0: State, es: seq<Event>)
    requires Start(s0) && s0.maxReaders > 0 && Feasible(s0, es) && NoMaintenance(es) && Within(s0, es, {WRITE_IN_READ})
    ensures !Stuck(After(s0, es))
  {
    var s := After(s0, es);
    InvAlways(s0, es);
    PlainAlways(s0, es);
    ReadsFirstAlways(s0, es);
    if o :| 0 <= o < |s.ops| && s.ops[o].Waiting() {
      var e := SomeoneGoesOn(s, o);
    }
  }

  // ---- the other nestings ----

  ghost predicate LeadsPlainly(s0: State, es: seq<Event>, s: State, nestings: set<Nesting>) {
    Leads(s0, es, s, nestings) && NoMaintenance(es)
  }

  lemma ThenPlainly(s0: State, es: seq<Event>, s: State, e: Event, s': State, nestings: set<Nesting>) returns (longer: seq<Event>)
    requires LeadsPlainly(s0, es, s, nestings) && (e.Begin? ==> !e.kind.Maintain?)
    requires Enabled(s, e) && Allowed(s, e, nestings) && Next(s, e) == s'
    ensures LeadsPlainly(s0, longer, s', nestings)
  {
    longer := Then(s0, es, s, e, s', nestings);
  }

  /** Some run without maintenance that nests only as given ends stuck. */
  ghost predicate SticksPlainly(s0: State, nestings: set<Nesting>) {
    exists es, s :: LeadsPlainly(s0, es, s, nestings) && Stuck(s)
  }

  /** Whose reads they are: all of task 0, or each of a task of its own. */
  function Reader(alone: bool, i: nat): TaskId {
    if alone then 0 else 1 + i
  }

  function Reads(k: nat, alone: bool): seq<Op> {
    seq(k, i requires 0 <= i < k => Asked(Reader(alone, i), Read, Holding))
  }

  function UpTo(k: nat): seq<OpId> {
    seq(k, i requires 0 <= i < k => i)
  }

  /** `k` reads are held. */
  function HeldReads(n: nat, store: Store, k: nat, alone: bool): State
    requires k <= n
  {
    State(n, Reads(k, alone), n - k, [], [], None, store, UpTo(k), k, [])
  }

  lemma OneMoreRead(k: nat, alone: bool)
    ensures Reads(k + 1, alone) == Reads(k, alone) + [Asked(Reader(alone, k), Read, Holding)]
    ensures UpTo(k + 1) == UpTo(k) + [k]
  {
  }

  function ReadAsked(n: nat, store: Store, k: nat, alone: bool): State
    requires k <= n
  {
    State(n, Reads(k, alone) + [Asked(Reader(alone, k), Read, WaitReaders)], n - k, [k], [], None, store, UpTo(k) + [k], k, [])
  }

  lemma AskForRead(n: nat, store: Store, k: nat, alone: bool, es: seq<Event>, nestings: set<Nesting>) returns (longer: seq<Event>)
    requires k <= n && (alone ==> READ_IN_READ in nestings)
    requires LeadsPlainly(Initial(n, store), es, HeldReads(n, store, k, alone), nestings)
    ensures LeadsPlainly(Initial(n, store), longer, ReadAsked(n, store, k, alone), nestings)
  {
    longer := ThenPlainly(Initial(n, store), es, HeldReads(n, store, k, alone), Begin(Reader(alone, k), Read), ReadAsked(n, store, k, alone), nestings);
  }

  lemma GrantRead(n: nat, store: Store, k: nat, alone: bool)
    requires k < n
    ensures Enabled(ReadAsked(n, store, k, alone), GrantReaders)
    ensures Next(ReadAsked(n, store, k, alone), GrantReaders) == HeldReads(n, store, k + 1, alone)
  {
    OneMoreRead(k, alone);
  }

  lemma {:induction false} HoldReads(n: nat, store: Store, k: nat, alone: bool, nestings: set<Nesting>) returns (es: seq<Event>)
    requires k <= n && (alone ==> READ_IN_READ in nestings)
    ensures LeadsPlainly(Initial(n, store), es, HeldReads(n, store, k, alone), nestings)
  {
    if k == 0 {
      es := [];
      assert HeldReads(n, store, 0, alone) == Initial(n, store);
    } else {
      es := HoldReads(n, store, k - 1, alone, nestings);
      es := AskForRead(n, store, k - 1, alone, es, nestings);
      GrantRead(n, store, k - 1, alone);
      es := ThenPlainly(Initial(n, store), es, ReadAsked(n, store, k - 1, alone), GrantReaders, HeldReads(n, store, k, alone), nestings);
    }
  }

  /** A task that holds all the slots and asks for one more. */
  lemma OneReadTooMany(n: nat, store: Store)
    requires n > 0
    ensures Stuck(ReadAsked(n, store, n, true))
  {
    var s := ReadAsked(n, store, n, true);
    assert s.ops[n].Waiting() && s.available == 0;
    assert forall o :: 0 <= o < n ==> s.ops[o].owner == s.ops[n].owner;
  }

  lemma ReadInReadSticks(n: nat, store: Store)
    requires n > 0
    ensures SticksPlainly(Initial(n, store), {READ_IN_READ})
  {
    var es := HoldReads(n, store, n, true, {READ_IN_READ});
    es := AskForRead(n, store, n, true, es, {READ_IN_READ});
    OneReadTooMany(n, store);
  }

  lemma WriteInWriteSticks(n: nat, store: Store)
    ensures SticksPlainly(Initial(n, store), {WRITE_IN_WRITE})
  {
    var s0, nestings := Initial(n, store), {WRITE_IN_WRITE};
    var s1 := State(n, [Asked(0, Write([]), WaitWriter)], n, [], [0], None, store, [], 0, []);
    var s2 := HeldMutex(n, store, Write([]));
    var s3 := BeginStep(s2, 0, Write([]));
    var es := ThenPlainly(s0, [], s0, Begin(0, Write([])), s1, nestings);
    es := ThenPlainly(s0, es, s1, GrantWriter, s2, nestings);
    es := ThenPlainly(s0, es, s2, Begin(0, Write([])), s3, nestings);
    AskMutexTwice(n, store, Write([]), Write([]));
  }

  // ---- both orders together ----

  /** The writes the readers ask for inside their reads. */
  function Writes(j: nat): seq<Op> {
    seq(j, i requires 0 <= i < j => Asked(1 + i, Write([]), WaitWriter))
  }

  function Queued(n: nat, j: nat): seq<OpId> {
    seq(j, i requires 0 <= i < j => n + 1 + i)
  }

  /** Every slot is held by a task of its own, task 0 holds the mutex, and `j` readers wait for it. */
  function Crossed(n: nat, store: Store, j: nat): State {
    State(n, Reads(n, false) + [Asked(0, Write([]), Holding)] + Writes(j), 0, [], Queued(n, j), Some(n), store, UpTo(n), n, [])
  }

  lemma OneMoreWrite(n: nat, j: nat)
    ensures Writes(j + 1) == Writes(j) + [Asked(1 + j, Write([]), WaitWriter)] && Queued(n, j + 1) == Queued(n, j) + [n + 1 + j]
  {
  }

  lemma MutexBesideReads(n: nat, store: Store, nestings: set<Nesting>) returns (es: seq<Event>)
    ensures LeadsPlainly(Initial(n, store), es, Crossed(n, store, 0), nestings)
  {
    var s0 := Initial(n, store);
    var s1 := State(n, Reads(n, false) + [Asked(0, Write([]), WaitWriter)], 0, [], [n], None, store, UpTo(n), n, []);
    es := HoldReads(n, store, n, false, nestings);
    es := ThenPlainly(s0, es, HeldReads(n, store, n, false), Begin(0, Write([])), s1, nestings);
    assert Next(s1, GrantWriter).ops == Reads(n, false) + [Asked(0, Write([]), Holding)] + Writes(0);
    es := ThenPlainly(s0, es, s1, GrantWriter, Crossed(n, store, 0), nestings);
  }

  lemma AskCrossed(n: nat, store: Store, j: nat, nestings: set<Nesting>)
    requires j < n && WRITE_IN_READ in nestings
    ensures
      var e := Begin(1 + j, Write([]));
      Enabled(Crossed(n, store, j), e) && Allowed(Crossed(n, store, j), e, nestings) && Next(Crossed(n, store, j), e) == Crossed(n, store, j + 1)
  {
    var s := Crossed(n, store, j);
    OneMoreWrite(n, j);
    assert |s.ops| == n + 1 + j;
    assert forall o :: 0 <= o < |s.ops| && s.ops[o].owner == 1 + j ==> o == j;
    assert s.ops + [Asked(1 + j, Write([]), WaitWriter)] == Crossed(n, store, j + 1).ops;
  }

  lemma {:induction false} CrossReaders(n: nat, store: Store, j: nat, nestings: set<Nesting>) returns (es: seq<Event>)
    requires j <= n && WRITE_IN_READ in nestings
    ensures LeadsPlainly(Initial(n, store), es, Crossed(n, store, j), nestings)
  {
    if j == 0 {
      es := MutexBesideReads(n, store, nestings);
    } else {
      es := CrossReaders(n, store, j - 1, nestings);
      AskCrossed(n, store, j - 1, nestings);
      es := ThenPlainly(Initial(n, store), es, Crossed(n, store, j - 1), Begin(j, Write([])), Crossed(n, store, j), nestings);
    }
  }

  /** Everybody waits or has a task that waits for something else, and neither gate can be granted. */
  lemma BlockedIsStuck(s: State, waiting: OpId)
    requires waiting < |s.ops| && s.ops[waiting].Waiting()
    requires forall o :: 0 <= o < |s.ops| ==> s.ops[o].Waiting() || !OwnerRuns(s, o)
    requires s.writer.Some? && s.available == 0
    requires s.readerQueue != [] && s.readerQueue[0] < |s.ops| ==> s.ops[s.readerQueue[0]].kind.Read?
    ensures Stuck(s)
  {
  }

  lemma TaskWaits(s: State, o: OpId, w: OpId)
    requires o < |s.ops| && w < |s.ops| && w != o && s.ops[w].owner == s.ops[o].owner && s.ops[w].Waiting()
    ensures !OwnerRuns(s, o)
  {
  }

  /** Then the holder of the mutex asks for a read. */
  lemma CrossedSticks(n: nat, store: Store)
    requires n > 0
    ensures Stuck(BeginStep(Crossed(n, store, n), 0, Read))
  {
    var s, last := BeginStep(Crossed(n, store, n), 0, Read), 2 * n + 1;
    assert |s.ops| == last + 1 && s.ops[last] == Asked(0, Read, WaitReaders);
    forall o | 0 <= o < |s.ops|
      ensures s.ops[o].Waiting() || !OwnerRuns(s, o)
    {
      if o < n {
        assert s.ops[n + 1 + o] == Asked(1 + o, Write([]), WaitWriter);
        TaskWaits(s, o, n + 1 + o);
      } else if o == n {
        TaskWaits(s, n, last);
      }
    }
    BlockedIsStuck(s, last);
  }

  lemma BothOrdersStick(n: nat, store: Store)
    requires n > 0
    ensures SticksPlainly(Initial(n, store), {WRITE_IN_READ, READ_IN_WRITE})
  {
    var nestings, before := {WRITE_IN_READ, READ_IN_WRITE}, Crossed(n, store, n);
    var es := CrossReaders(n, store, n, nestings);
    assert forall o :: 0 <= o < |before.ops| && before.ops[o].owner == 0 ==> o == n;
    es := ThenPlainly(Initial(n, store), es, before, Begin(0, Read), BeginStep(before, 0, Read), nestings);
    CrossedSticks(n, store);
  }

  // ---- exactly the safe sets ----

  /** No run without maintenance of a database with `n` reader slots gets stuck if its tasks nest as allowed. */
  ghost predicate NeverSticksPlainly(n: nat, allowed: set<Nesting>) {
    forall store, es :: Feasible(Initial(n, store), es) && NoMaintenance(es) && Within(Initial(n, store), es, allowed) ==>
      !Stuck(After(Initial(n, store), es))
  }

  lemma StickingIsNotSafe(n: nat, store: Store, some: set<Nesting>, allowed: set<Nesting>)
    requires SticksPlainly(Initial(n, store), some) && some <= allowed
    ensures !NeverSticksPlainly(n, allowed)
  {
    var es, s :| LeadsPlainly(Initial(n, store), es, s, some) && Stuck(s);
    WithinMore(Initial(n, store), es, some, allowed);
  }

  lemma OneOrderIsSafe(n: nat, allowed: set<Nesting>)
    requires n > 0 && READ_IN_READ !in allowed && WRITE_IN_WRITE !in allowed
    requires !(READ_IN_WRITE in allowed && WRITE_IN_READ in allowed)
    ensures NeverSticksPlainly(n, allowed)
  {
    forall store, es | Feasible(Initial(n, store), es) && NoMaintenance(es) && Within(Initial(n, store), es, allowed)
      ensures !Stuck(After(Initial(n, store), es))
    {
      if WRITE_IN_READ in allowed {
        WithinPlain(Initial(n, store), es, allowed, {WRITE_IN_READ});
        WriteInReadNeverSticks(Initial(n, store), es);
      } else {
        WithinPlain(Initial(n, store), es, allowed, {READ_IN_WRITE});
        ReadInWriteNeverSticks(Initial(n, store), es);
      }
    }
  }

  /** Without maintenance, for any number of reader slots: a set of nestings is safe if and only if it has
      neither a read inside a read nor a write inside a write, and not both mixed orders. */
  lemma SafeNestingsWithoutMaintenance(n: nat, allowed: set<Nesting>)
    requires n > 0
    ensures NeverSticksPlainly(n, allowed) <==>
              READ_IN_READ !in allowed && WRITE_IN_WRITE !in allowed && !(READ_IN_WRITE in allowed && WRITE_IN_READ in allowed)
  {
    var store: Store := map[];
    if READ_IN_READ in allowed {
      ReadInReadSticks(n, store);
      StickingIsNotSafe(n, store, {READ_IN_READ}, allowed);
    } else if WRITE_IN_WRITE in allowed {
      WriteInWriteSticks(n, store);
      StickingIsNotSafe(n, store, {WRITE_IN_WRITE}, allowed);
    } else if READ_IN_WRITE in allowed && WRITE_IN_READ in allowed {
      BothOrdersStick(n, store);
      StickingIsNotSafe(n, store, {WRITE_IN_READ, READ_IN_WRITE}, allowed);
    } else {
      OneOrderIsSafe(n, allowed);
    }
  }
}
