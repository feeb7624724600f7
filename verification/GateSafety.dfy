/** What every step of the gates keeps: permits, exclusion, FIFO order, and the serial store. */
module GateSafety {
  import opened Wrappers
  import opened Stores
  import opened Gates

  // ---- permits ----

  /** Reader permits owned by all operations together. */
  function PermitsHeld(ops: seq<Op>, maxReaders: nat): nat {
    if ops == [] then 0
    else PermitsHeld(ops[..|ops| - 1], maxReaders) + ops[|ops| - 1].ReaderPermits(maxReaders)
  }

  lemma {:induction false} PermitsAfterUpdate(ops: seq<Op>, o: OpId, op: Op, maxReaders: nat)
    requires o < |ops|
    ensures PermitsHeld(ops[o := op], maxReaders) + ops[o].ReaderPermits(maxReaders)
         == PermitsHeld(ops, maxReaders) + op.ReaderPermits(maxReaders)
  {
    var n := |ops| - 1;
    if o == n {
      assert ops[o := op][..n] == ops[..n];
    } else {
      assert ops[o := op][..n] == ops[..n][o := op];
      PermitsAfterUpdate(ops[..n], o, op, maxReaders);
    }
  }

  /** The permits of any two operations are part of the total. */
  lemma {:induction false} PermitsOfOne(ops: seq<Op>, o: OpId, maxReaders: nat)
    requires o < |ops|
    ensures ops[o].ReaderPermits(maxReaders) <= PermitsHeld(ops, maxReaders)
  {
    if o < |ops| - 1 {
      PermitsOfOne(ops[..|ops| - 1], o, maxReaders);
    }
  }

  lemma {:induction false} PermitsOfTwo(ops: seq<Op>, o: OpId, p: OpId, maxReaders: nat)
    requires o < p < |ops|
    ensures ops[o].ReaderPermits(maxReaders) + ops[p].ReaderPermits(maxReaders) <= PermitsHeld(ops, maxReaders)
  {
    if p == |ops| - 1 {
      PermitsOfOne(ops[..p], o, maxReaders);
    } else {
      PermitsOfTwo(ops[..|ops| - 1], o, p, maxReaders);
    }
  }

  lemma PermitsAfterAppend(ops: seq<Op>, op: Op, maxReaders: nat)
    ensures PermitsHeld(ops + [op], maxReaders) == PermitsHeld(ops, maxReaders) + op.ReaderPermits(maxReaders)
  {
    assert (ops + [op])[..|ops|] == ops;
  }

  ghost predicate PermitsOk(s: State) {
    s.available + PermitsHeld(s.ops, s.maxReaders) == s.maxReaders
  }

  // ---- the two gates ----

  predicate PhaseFits(op: Op) {
    match op.kind
    case Read => op.phase.WaitReaders? || op.phase.Holding? || op.phase.Open? || op.phase.Dropped? || op.phase.Finished?
    case Write(_) => op.phase.WaitWriter? || op.phase.Holding? || op.phase.Open? || op.phase.Dropped? || op.phase.Finished?
    case Maintain => !op.phase.Open? && !op.phase.Dropped?
  }

  predicate Distinct(q: seq<OpId>) {
    forall i, j :: 0 <= i < j < |q| ==> q[i] != q[j]
  }

  ghost predicate WriterOk(s: State) {
    && (forall o :: 0 <= o < |s.ops| ==>
          PhaseFits(s.ops[o]) &&
          (s.ops[o].HasWriter() <==> s.writer == Some(o)) &&
          (s.ops[o].phase.WaitWriter? <==> o in s.writerQueue))
    && (forall o :: o in s.writerQueue ==> o < |s.ops|)
    && (s.writer.Some? ==> s.writer.value < |s.ops|)
    && Distinct(s.writerQueue)
  }

  /** The semaphore serves its log of requests in order: the first `granted` are served, the rest wait. */
  ghost predicate ReadersOk(s: State) {
    && s.granted <= |s.readerLog|
    && s.readerQueue == s.readerLog[s.granted..]
    && Distinct(s.readerLog)
    && (forall i :: 0 <= i < |s.readerLog| ==>
          s.readerLog[i] < |s.ops| && (s.ops[s.readerLog[i]].phase.WaitReaders? <==> s.granted <= i)
          && (s.ops[s.readerLog[i]].kind.Maintain? ==> !s.ops[s.readerLog[i]].phase.WaitWriter? && !s.ops[s.readerLog[i]].phase.Holding?))
    && (forall o :: 0 <= o < |s.ops| && s.ops[o].phase.WaitReaders? ==> o in s.readerQueue)
  }

  // ---- the store ----

  ghost predicate StoreOk(s0: State, s: State) {
    && s.committed == Replay(s0.committed, s.commits)
    && (forall o :: 0 <= o < |s.ops| ==> OpDataOk(s0, s, s.ops[o]))
  }

  /** A writer's private copy is the committed map with the puts made so far; a reader sees the map
      after some prefix of the commits; a result counts the puts of a committed ingestion. */
  ghost predicate OpDataOk(s0: State, s: State, op: Op) {
    && (op.kind.Write? ==> op.done <= |op.kind.items|)
    && (op.kind.Write? && op.phase.Holding? ==> op.done == 0)
    && (op.kind.Write? && op.phase.WaitWriter? ==> op.done == 0)
    && (op.kind.Write? && op.phase.Open? ==> op.view == PutAll(s.committed, op.kind.items[..op.done]))
    && (op.kind.Read? && op.phase.Open? ==> op.base <= |s.commits| && op.view == Replay(s0.committed, s.commits[..op.base]))
    && (op.result.Some? ==>
          op.kind.Write? && op.result.value == |op.kind.items| && (op.phase.Dropped? || op.phase.Finished?))
  }

  /** `o` is among the committed ingestions. */
  predicate HasLanded(commits: seq<Landed>, o: OpId) {
    exists k :: 0 <= k < |commits| && commits[k].op == o
  }

  /** The commits are the successful ingestions, each once and with its own items. */
  ghost predicate CommitsOk(s: State) {
    && (forall k :: 0 <= k < |s.commits| ==>
          s.commits[k].op < |s.ops| && s.ops[s.commits[k].op].result.Some? &&
          s.ops[s.commits[k].op].kind == Write(s.commits[k].items))
    && (forall j, k :: 0 <= j < k < |s.commits| ==> s.commits[j].op != s.commits[k].op)
    && (forall o :: 0 <= o < |s.ops| && s.ops[o].result.Some? ==>
          HasLanded(s.commits, o) && (s.ops[o].phase.Dropped? || s.ops[o].phase.Finished?))
  }

  ghost predicate Inv(s0: State, s: State) {
    s.maxReaders == s0.maxReaders && PermitsOk(s) && WriterOk(s) && ReadersOk(s) && StoreOk(s0, s) && CommitsOk(s)
  }

  predicate Start(s0: State) {
    s0 == Initial(s0.maxReaders, s0.committed)
  }

  // ---- preservation ----

  lemma PermitsOkOp(s: State, o: OpId, act: Action)
    requires PermitsOk(s) && o < |s.ops| && CanAct(s.ops[o], act)
    ensures PermitsOk(OpStep(s, o, act))
  {
    PermitsAfterUpdate(s.ops, o, Act(s.ops[o], act, s.committed, |s.commits|), s.maxReaders);
  }

  lemma PermitsOkGrantReaders(s: State)
    requires PermitsOk(s) && Enabled(s, GrantReaders)
    requires PhaseFits(s.ops[s.readerQueue[0]]) && s.ops[s.readerQueue[0]].phase.WaitReaders?
    ensures PermitsOk(Next(s, GrantReaders))
  {
    var o := s.readerQueue[0];
    PermitsAfterUpdate(s.ops, o, Next(s, GrantReaders).ops[o], s.maxReaders);
  }

  lemma PermitsOkGrantWriter(s: State)
    requires PermitsOk(s) && Enabled(s, GrantWriter)
    requires PhaseFits(s.ops[s.writerQueue[0]]) && s.ops[s.writerQueue[0]].phase.WaitWriter?
    ensures PermitsOk(Next(s, GrantWriter))
  {
    var o := s.writerQueue[0];
    PermitsAfterUpdate(s.ops, o, Next(s, GrantWriter).ops[o], s.maxReaders);
  }

  lemma PermitsOkBegin(s: State, owner: TaskId, kind: Kind)
    requires PermitsOk(s)
    ensures PermitsOk(BeginStep(s, owner, kind))
  {
    var op := BeginStep(s, owner, kind).ops[|s.ops|];
    assert BeginStep(s, owner, kind).ops == s.ops + [op] && op.ReaderPermits(s.maxReaders) == 0;
    PermitsAfterAppend(s.ops, op, s.maxReaders);
  }

  lemma PermitsOkStep(s: State, e: Event)
    requires PermitsOk(s) && ReadersOk(s) && WriterOk(s) && Enabled(s, e)
    ensures PermitsOk(Next(s, e))
  {
    match e
    case Begin(owner, kind) => PermitsOkBegin(s, owner, kind);
    case GrantWriter =>
      assert s.writerQueue[0] in s.writerQueue;
      PermitsOkGrantWriter(s);
    case GrantReaders =>
      assert s.readerQueue[0] == s.readerLog[s.granted];
      PermitsOkGrantReaders(s);
    case Step(o, act) => PermitsOkOp(s, o, act);
  }

  lemma WriterOkBegin(s: State, owner: TaskId, kind: Kind)
    requires WriterOk(s)
    ensures WriterOk(BeginStep(s, owner, kind))
  {
    assert forall i :: 0 <= i < |s.writerQueue| ==> s.writerQueue[i] in s.writerQueue;
  }

  lemma WriterOkGrant(s: State)
    requires WriterOk(s) && Enabled(s, GrantWriter)
    ensures WriterOk(Next(s, GrantWriter))
  {
    var s' := Next(s, GrantWriter);
    assert s.writerQueue[0] in s.writerQueue;
    assert s.writerQueue == [s.writerQueue[0]] + s'.writerQueue;
    assert forall o :: o in s'.writerQueue <==> o in s.writerQueue && o != s.writerQueue[0];
  }

  lemma WriterOkGrantReaders(s: State)
    requires WriterOk(s) && ReadersOk(s) && Enabled(s, GrantReaders)
    ensures WriterOk(Next(s, GrantReaders))
  {
    assert s.readerQueue[0] == s.readerLog[s.granted];
  }

  lemma WriterOkOp(s: State, o: OpId, act: Action)
    requires WriterOk(s) && Enabled(s, Step(o, act))
    ensures WriterOk(OpStep(s, o, act))
  {
  }

  lemma WriterOkStep(s: State, e: Event)
    requires WriterOk(s) && ReadersOk(s) && Enabled(s, e)
    ensures WriterOk(Next(s, e))
  {
    match e
    case Begin(owner, kind) => WriterOkBegin(s, owner, kind);
    case GrantWriter => WriterOkGrant(s);
    case GrantReaders => WriterOkGrantReaders(s);
    case Step(o, act) => WriterOkOp(s, o, act);
  }

  lemma ReadersOkBegin(s: State, owner: TaskId, kind: Kind)
    requires ReadersOk(s)
    ensures ReadersOk(BeginStep(s, owner, kind))
  {
  }

  lemma ReadersOkGrant(s: State)
    requires ReadersOk(s) && WriterOk(s) && Enabled(s, GrantReaders)
    ensures ReadersOk(Next(s, GrantReaders))
  {
    var s' := Next(s, GrantReaders);
    assert s.readerQueue[0] == s.readerLog[s.granted];
    assert s.readerQueue == [s.readerQueue[0]] + s'.readerQueue;
  }

  lemma ReadersOkRequest(s: State, o: OpId)
    requires ReadersOk(s) && o < |s.ops| && CanAct(s.ops[o], RequestReaders)
    ensures ReadersOk(OpStep(s, o, RequestReaders))
  {
    var s' := OpStep(s, o, RequestReaders);
    assert s'.readerQueue == s'.readerLog[s'.granted..];
    assert s'.readerQueue[|s.readerQueue|] == o;
    forall p | 0 <= p < |s.ops| && s'.ops[p].phase.WaitReaders?
      ensures p in s'.readerQueue
    {
      assert p != o ==> p in s.readerQueue;
    }
  }

  lemma ReadersOkOp(s: State, o: OpId, act: Action)
    requires ReadersOk(s) && o < |s.ops| && CanAct(s.ops[o], act) && !act.RequestReaders?
    ensures ReadersOk(OpStep(s, o, act))
  {
    ReadersOkReplace(s, OpStep(s, o, act), o);
  }

  /** An operation that is not waiting for readers, and past the mutex if it is maintenance, can change. */
  lemma ReadersOkReplace(s: State, s': State, o: OpId)
    requires ReadersOk(s) && o < |s.ops| && !s.ops[o].phase.WaitReaders?
    requires |s'.ops| == |s.ops| && s'.ops == s.ops[o := s'.ops[o]]
    requires s'.readerQueue == s.readerQueue && s'.readerLog == s.readerLog && s'.granted == s.granted
    requires !s'.ops[o].phase.WaitReaders?
    requires s'.ops[o].kind.Maintain? ==> !s'.ops[o].phase.WaitWriter? && !s'.ops[o].phase.Holding?
    ensures ReadersOk(s')
  {
  }

  lemma ReadersOkGrantWriter(s: State)
    requires ReadersOk(s) && WriterOk(s) && Enabled(s, GrantWriter)
    ensures ReadersOk(Next(s, GrantWriter))
  {
    assert s.writerQueue[0] in s.writerQueue;
  }

  lemma ReadersOkStep(s: State, e: Event)
    requires WriterOk(s) && ReadersOk(s) && Enabled(s, e)
    ensures ReadersOk(Next(s, e))
  {
    match e
    case Begin(owner, kind) => ReadersOkBegin(s, owner, kind);
    case GrantWriter => ReadersOkGrantWriter(s);
    case GrantReaders => ReadersOkGrant(s);
    case Step(o, act) => if act.RequestReaders? { ReadersOkRequest(s, o); } else { ReadersOkOp(s, o, act); }
  }

  /** A commit publishes exactly the committed map with all the items put, in order. */
  lemma StoreOkCommit(s0: State, s: State, o: OpId)
    requires StoreOk(s0, s) && WriterOk(s) && o < |s.ops| && CanAct(s.ops[o], Commit(true))
    ensures StoreOk(s0, OpStep(s, o, Commit(true)))
    ensures OpStep(s, o, Commit(true)).committed == PutAll(s.committed, s.ops[o].kind.items)
  {
    var s' := OpStep(s, o, Commit(true));
    var items := s.ops[o].kind.items;
    assert items[..|items|] == items;
    assert s'.commits[..|s.commits|] == s.commits;
    assert s'.commits[|s.commits|].items == items;
    forall p | 0 <= p < |s'.ops|
      ensures OpDataOk(s0, s', s'.ops[p])
    {
      assert OpDataOk(s0, s, s.ops[p]);
      if p != o {
        assert s.ops[o].HasWriter();
        assert !s.ops[p].HasWriter();
        assert s.ops[p].base <= |s.commits| ==> s'.commits[..s.ops[p].base] == s.commits[..s.ops[p].base];
      }
    }
  }

  lemma StoreOkOp(s0: State, s: State, o: OpId, act: Action)
    requires StoreOk(s0, s) && WriterOk(s) && o < |s.ops| && CanAct(s.ops[o], act) && act != Commit(true)
    ensures StoreOk(s0, OpStep(s, o, act))
  {
    var s' := OpStep(s, o, act);
    var op := s.ops[o];
    assert OpDataOk(s0, s, op);
    if act.PutNext? {
      var items := op.kind.items;
      assert items[..op.done + 1][..op.done] == items[..op.done];
      assert items[..op.done + 1][op.done] == items[op.done];
    }
    assert s.commits[..|s.commits|] == s.commits;
    forall p | 0 <= p < |s'.ops|
      ensures OpDataOk(s0, s', s'.ops[p])
    {
      assert OpDataOk(s0, s, s.ops[p]);
    }
  }

  lemma GrantKeepsData(s0: State, s: State, e: Event, p: OpId)
    requires WriterOk(s) && ReadersOk(s) && Enabled(s, e) && !e.Step? && p < |Next(s, e).ops|
    requires p < |s.ops| ==> OpDataOk(s0, s, s.ops[p])
    ensures OpDataOk(s0, Next(s, e), Next(s, e).ops[p])
  {
    if e.GrantWriter? {
      assert s.writerQueue[0] in s.writerQueue;
    } else if e.GrantReaders? {
      assert s.readerQueue[0] == s.readerLog[s.granted];
    }
  }

  lemma StoreOkGrants(s0: State, s: State, e: Event)
    requires StoreOk(s0, s) && WriterOk(s) && ReadersOk(s) && Enabled(s, e) && !e.Step?
    ensures StoreOk(s0, Next(s, e))
  {
    var s' := Next(s, e);
    forall p | 0 <= p < |s'.ops|
      ensures OpDataOk(s0, s', s'.ops[p])
    {
      GrantKeepsData(s0, s, e, p);
    }
  }

  lemma StoreOkStep(s0: State, s: State, e: Event)
    requires StoreOk(s0, s) && WriterOk(s) && ReadersOk(s) && Enabled(s, e)
    ensures StoreOk(s0, Next(s, e))
  {
    if e.Step? {
      if e.act == Commit(true) {
        StoreOkCommit(s0, s, e.op);
      } else {
        StoreOkOp(s0, s, e.op, e.act);
      }
    } else {
      StoreOkGrants(s0, s, e);
    }
  }

  lemma LandedAfter(commits: seq<Landed>, more: Landed, o: OpId)
    ensures HasLanded(commits + [more], o) <==> HasLanded(commits, o) || o == more.op
  {
    var all := commits + [more];
    if k :| 0 <= k < |commits| && commits[k].op == o {
      assert all[k].op == o;
    }
    assert all[|commits|] == more;
  }

  lemma CommitsOkCommit(s: State, o: OpId)
    requires CommitsOk(s) && o < |s.ops| && CanAct(s.ops[o], Commit(true))
    ensures CommitsOk(OpStep(s, o, Commit(true)))
  {
    var s', more := OpStep(s, o, Commit(true)), Landed(o, s.ops[o].kind.items);
    assert s'.commits == s.commits + [more] && s'.ops[o].result.Some?;
    forall p | 0 <= p < |s'.ops| && s'.ops[p].result.Some?
      ensures HasLanded(s'.commits, p)
    {
      LandedAfter(s.commits, more, p);
    }
  }

  /** An event that commits nothing keeps every result. */
  lemma CommitsOkOther(s: State, s': State)
    requires CommitsOk(s) && s'.commits == s.commits && |s.ops| <= |s'.ops|
    requires forall o :: 0 <= o < |s.ops| ==> s'.ops[o].kind == s.ops[o].kind && s'.ops[o].result == s.ops[o].result
    requires forall o :: 0 <= o < |s.ops| && s.ops[o].result.Some? ==> s'.ops[o].phase.Dropped? || s'.ops[o].phase.Finished?
    requires forall o :: |s.ops| <= o < |s'.ops| ==> s'.ops[o].result.None?
    ensures CommitsOk(s')
  {
  }

  lemma CommitsOkOp(s: State, o: OpId, act: Action)
    requires CommitsOk(s) && o < |s.ops| && CanAct(s.ops[o], act) && act != Commit(true)
    ensures CommitsOk(OpStep(s, o, act))
  {
    var op' := Act(s.ops[o], act, s.committed, |s.commits|);
    assert op'.result == s.ops[o].result && op'.kind == s.ops[o].kind;
    CommitsOkOther(s, OpStep(s, o, act));
  }

  lemma CommitsOkGrant(s: State, e: Event)
    requires CommitsOk(s) && WriterOk(s) && ReadersOk(s) && Enabled(s, e) && (e.GrantWriter? || e.GrantReaders?)
    ensures CommitsOk(Next(s, e))
  {
    if e.GrantWriter? {
      assert s.writerQueue[0] in s.writerQueue;
    } else {
      assert s.readerQueue[0] == s.readerLog[s.granted];
    }
    CommitsOkOther(s, Next(s, e));
  }

  lemma CommitsOkStep(s: State, e: Event)
    requires CommitsOk(s) && WriterOk(s) && ReadersOk(s) && Enabled(s, e)
    ensures CommitsOk(Next(s, e))
  {
    match e
    case Begin(owner, kind) => CommitsOkOther(s, BeginStep(s, owner, kind));
    case Step(o, act) => if act == Commit(true) { CommitsOkCommit(s, o); } else { CommitsOkOp(s, o, act); }
    case _ => CommitsOkGrant(s, e);
  }

  lemma MaxReadersStays(s: State, e: Event)
    requires Enabled(s, e)
    ensures Next(s, e).maxReaders == s.maxReaders
  {
  }

  /** Every enabled event keeps the invariant. */
  lemma InvStep(s0: State, s: State, e: Event)
    requires Inv(s0, s) && Enabled(s, e)
    ensures Inv(s0, Next(s, e))
  {
    MaxReadersStays(s, e);
    PermitsOkStep(s, e);
    WriterOkStep(s, e);
    ReadersOkStep(s, e);
    StoreOkStep(s0, s, e);
    CommitsOkStep(s, e);
  }

  lemma {:induction false} InvAlways(s0: State, es: seq<Event>)
    requires Start(s0) && Feasible(s0, es)
    ensures Inv(s0, After(s0, es))
  {
    if es == [] {
    } else {
      InvAlways(s0, es[..|es| - 1]);
      InvStep(s0, After(s0, es[..|es| - 1]), es[|es| - 1]);
    }
  }

  /** A state some run leads to from the opening of the database. */
  ghost predicate Reachable(s0: State, s: State) {
    Start(s0) && exists es :: Feasible(s0, es) && After(s0, es) == s
  }

  lemma ReachableInv(s0: State, s: State)
    requires Reachable(s0, s)
    ensures Inv(s0, s)
  {
    var es :| Feasible(s0, es) && After(s0, es) == s;
    InvAlways(s0, es);
  }
}
