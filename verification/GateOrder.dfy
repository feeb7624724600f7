/** The mutex serves in the order of requests, so the serial order is that order; and what an ingestion that
    has the mutex can still become. */
module GateOrder {
  import opened Wrappers
  import opened Stores
  import opened Gates
  import opened GateSafety
  import opened GateRuns

  // ---- first come, first served ----

  predicate Ascending(q: seq<OpId>) {
    forall i, j :: 0 <= i < j < |q| ==> q[i] < q[j]
  }

  /** Once a request is past the mutex, every earlier one that needs it is over. */
  ghost predicate ServedInOrder(s: State) {
    forall o, p :: 0 <= o < p < |s.ops| && !s.ops[o].kind.Read? && !s.ops[p].kind.Read? && !s.ops[p].phase.WaitWriter? ==>
      s.ops[o].phase.Finished?
  }

  ghost predicate FifoOk(s: State) {
    Ascending(s.writerQueue) && ServedInOrder(s)
  }

  /** A read never waits for the mutex and never has it. */
  lemma PastTheMutex(s: State, o: OpId)
    requires WriterOk(s) && o < |s.ops| && !s.ops[o].kind.Read? && !s.ops[o].phase.WaitWriter? && !s.ops[o].HasWriter()
    ensures s.ops[o].phase.Finished?
  {
    assert PhaseFits(s.ops[o]);
  }

  lemma FifoGrantWriter(s: State)
    requires WriterOk(s) && FifoOk(s) && Enabled(s, GrantWriter)
    ensures FifoOk(Next(s, GrantWriter))
  {
    var s', q := Next(s, GrantWriter), s.writerQueue[0];
    assert q in s.writerQueue;
    forall o, p | 0 <= o < p < |s'.ops| && !s'.ops[o].kind.Read? && !s'.ops[p].kind.Read? && !s'.ops[p].phase.WaitWriter?
      ensures s'.ops[o].phase.Finished?
    {
      if p == q {
        assert o !in s.writerQueue;
        PastTheMutex(s, o);
      } else {
        assert s.ops[o].phase.Finished?;
        assert o != q;
      }
    }
  }

  lemma FifoBegin(s: State, owner: TaskId, kind: Kind)
    requires WriterOk(s) && FifoOk(s)
    ensures FifoOk(BeginStep(s, owner, kind))
  {
    assert forall i :: 0 <= i < |s.writerQueue| ==> s.writerQueue[i] in s.writerQueue;
  }

  /** Steps past the mutex change nothing about it. */
  lemma FifoKeep(s: State, s': State, x: OpId)
    requires FifoOk(s) && s'.writerQueue == s.writerQueue && x < |s.ops| == |s'.ops| && s'.ops == s.ops[x := s'.ops[x]]
    requires s'.ops[x].kind == s.ops[x].kind && !s.ops[x].phase.Finished? && (s.ops[x].kind.Read? || !s.ops[x].phase.WaitWriter?)
    ensures FifoOk(s')
  {
    forall o, p | 0 <= o < p < |s'.ops| && !s'.ops[o].kind.Read? && !s'.ops[p].kind.Read? && !s'.ops[p].phase.WaitWriter?
      ensures s'.ops[o].phase.Finished?
    {
      assert s.ops[o].phase.Finished?;
    }
  }

  lemma FifoGrantReaders(s: State)
    requires ReadersOk(s) && FifoOk(s) && Enabled(s, GrantReaders)
    ensures FifoOk(Next(s, GrantReaders))
  {
    assert s.readerQueue[0] == s.readerLog[s.granted];
    FifoKeep(s, Next(s, GrantReaders), s.readerQueue[0]);
  }

  lemma FifoOp(s: State, o: OpId, act: Action)
    requires FifoOk(s) && Enabled(s, Step(o, act))
    ensures FifoOk(OpStep(s, o, act))
  {
    FifoKeep(s, OpStep(s, o, act), o);
  }

  lemma FifoStep(s: State, e: Event)
    requires WriterOk(s) && ReadersOk(s) && FifoOk(s) && Enabled(s, e)
    ensures FifoOk(Next(s, e))
  {
    match e
    case Begin(owner, kind) => FifoBegin(s, owner, kind);
    case GrantWriter => FifoGrantWriter(s);
    case GrantReaders => FifoGrantReaders(s);
    case Step(o, act) => FifoOp(s, o, act);
  }

  // ---- the serial order ----

  ghost predicate CommitsAscend(s: State) {
    forall j, k :: 0 <= j < k < |s.commits| ==> s.commits[j].op < s.commits[k].op
  }

  lemma CommitComesLast(s: State, w: OpId, k: nat)
    requires WriterOk(s) && CommitsOk(s) && FifoOk(s) && w < |s.ops| && s.ops[w].kind.Write? && s.ops[w].phase.Open? && k < |s.commits|
    ensures s.commits[k].op < w
  {
    var c := s.commits[k].op;
    assert s.ops[c].result.Some? && s.ops[c].kind.Write?;
    assert s.ops[c].phase.Dropped? || s.ops[c].phase.Finished?;
  }

  lemma CommitsAscendStep(s: State, e: Event)
    requires WriterOk(s) && CommitsOk(s) && FifoOk(s) && CommitsAscend(s) && Enabled(s, e)
    ensures CommitsAscend(Next(s, e))
  {
    if e.Step? && e.act == Commit(true) {
      forall k | 0 <= k < |s.commits|
        ensures s.commits[k].op < e.op
      {
        CommitComesLast(s, e.op, k);
      }
    } else {
      assert Next(s, e).commits == s.commits;
    }
  }

  lemma {:induction false} OrderAlways(s0: State, es: seq<Event>)
    requires Start(s0) && Feasible(s0, es)
    ensures FifoOk(After(s0, es)) && CommitsAscend(After(s0, es))
  {
    if es != [] {
      var s, e := After(s0, es[..|es| - 1]), es[|es| - 1];
      OrderAlways(s0, es[..|es| - 1]);
      InvAlways(s0, es[..|es| - 1]);
      FifoStep(s, e);
      CommitsAscendStep(s, e);
    }
  }

  /** Operations are numbered in the order of their requests. In every run the mutex is given in that order, each
      time after the one before is over, so the serial order of the ingestions is the order of their requests. */
  lemma SerialOrderIsRequestOrder(s0: State, s: State, o: OpId, p: OpId, j: nat, k: nat)
    requires Reachable(s0, s)
    ensures o < p < |s.ops| && !s.ops[o].kind.Read? && !s.ops[p].kind.Read? && !s.ops[p].phase.WaitWriter? ==> s.ops[o].phase.Finished?
    ensures j < |s.commits| && k < |s.commits| ==> (j < k <==> s.commits[j].op < s.commits[k].op)
  {
    var es :| Feasible(s0, es) && After(s0, es) == s;
    OrderAlways(s0, es);
    if k < j < |s.commits| {
      assert s.commits[k].op < s.commits[j].op;
    }
  }

  // ---- what an ingestion with the mutex can become ----

  lemma Extend(s0: State, es: seq<Event>, e: Event)
    requires Feasible(s0, es) && Enabled(After(s0, es), e)
    ensures Feasible(s0, es + [e]) && After(s0, es + [e]) == Next(After(s0, es), e)
  {
    assert (es + [e])[..|es|] == es;
  }

  /** An ingestion in the middle of its transaction, its task waiting for nothing. */
  predicate Ingesting(s: State, o: OpId, items: seq<Item>, left: nat) {
    o < |s.ops| && s.ops[o].kind == Write(items) && s.ops[o].phase.Open? && s.ops[o].done + left == |items| && OwnerRuns(s, o)
  }

  lemma PutOne(s: State, o: OpId, items: seq<Item>, left: nat)
    requires Ingesting(s, o, items, left) && left > 0
    ensures Enabled(s, Step(o, PutNext)) && Ingesting(Next(s, Step(o, PutNext)), o, items, left - 1)
    ensures Next(s, Step(o, PutNext)).committed == s.committed
  {
  }

  /** It can put all the items that are left, commit them, and report their number; the store then is what it was
      with all of its items put. */
  lemma {:induction false} IngestionCanSucceed(s0: State, es: seq<Event>, o: OpId, items: seq<Item>, left: nat) returns (longer: seq<Event>)
    requires Start(s0) && Feasible(s0, es) && Ingesting(After(s0, es), o, items, left)
    ensures Feasible(s0, longer) && es <= longer && o < |After(s0, longer).ops|
    ensures After(s0, longer).committed == PutAll(After(s0, es).committed, items)
    ensures After(s0, longer).ops[o].result == Some(|items|)
    decreases left
  {
    var s := After(s0, es);
    if left > 0 {
      PutOne(s, o, items, left);
      Extend(s0, es, Step(o, PutNext));
      longer := IngestionCanSucceed(s0, es + [Step(o, PutNext)], o, items, left - 1);
    } else {
      var commit := Step(o, Commit(true));
      Extend(s0, es, commit);
      InvAlways(s0, es);
      StoreOkCommit(s0, s, o);
      longer := es + [commit];
    }
  }

  /** And at any point it can be given up: the mutex is free again, and the store is as it was. */
  lemma IngestionCanBeGivenUp(s0: State, es: seq<Event>, o: OpId, items: seq<Item>, left: nat)
    requires Start(s0) && Feasible(s0, es) && Ingesting(After(s0, es), o, items, left)
    ensures
      var longer := es + [Step(o, DropTxn)] + [Step(o, FreePermit)];
      && Feasible(s0, longer) && After(s0, longer).committed == After(s0, es).committed && After(s0, longer).writer.None?
      && o < |After(s0, longer).ops| && After(s0, longer).ops[o].phase.Finished? && After(s0, longer).ops[o].result.None?
  {
    InvAlways(s0, es);
    Extend(s0, es, Step(o, DropTxn));
    var s := After(s0, es + [Step(o, DropTxn)]);
    assert OwnerRuns(s, o);
    Extend(s0, es + [Step(o, DropTxn)], Step(o, FreePermit));
  }

  /** A read that opens sees the store as it is, and keeps seeing it whatever is committed meanwhile. */
  lemma ReadOpensOnTheStore(s: State, o: OpId)
    requires Enabled(s, Step(o, OpenTxn(true))) && s.ops[o].kind.Read?
    ensures Next(s, Step(o, OpenTxn(true))).ops[o].view == s.committed && Next(s, Step(o, OpenTxn(true))).ops[o].phase.Open?
  {
  }

  lemma OpenReadStays(s: State, o: OpId, e: Event)
    requires Enabled(s, e) && WriterOk(s) && ReadersOk(s) && o < |s.ops| && s.ops[o].kind.Read? && s.ops[o].phase.Open?
    ensures e != Step(o, DropTxn) ==> Next(s, e).ops[o] == s.ops[o]
  {
    if e.GrantWriter? {
      assert s.writerQueue[0] in s.writerQueue;
    } else if e.GrantReaders? {
      assert s.readerQueue[0] == s.readerLog[s.granted];
    }
  }
}
