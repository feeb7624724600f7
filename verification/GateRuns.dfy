/** The promises of the database wrappers, over every interleaving of readers, ingestions and
    maintenance. */
module GateRuns {
  import opened Wrappers
  import opened Stores
  import opened Gates
  import opened GateSafety

  // ---- exclusion ----

  /** Read transactions that own a permit. */
  function ActiveReaders(ops: seq<Op>): nat {
    if ops == [] then 0
    else
      var last := ops[|ops| - 1];
      ActiveReaders(ops[..|ops| - 1]) + (if last.kind.Read? && last.ReaderPermits(0) == 1 then 1 else 0)
  }

  lemma {:induction false} ActiveReadersHoldPermits(ops: seq<Op>, maxReaders: nat)
    ensures ActiveReaders(ops) <= PermitsHeld(ops, maxReaders)
  {
    if ops == [] {
    } else {
      ActiveReadersHoldPermits(ops[..|ops| - 1], maxReaders);
    }
  }

  /** Permits are conserved, readers never exceed the limit, and the writer mutex has one owner. */
  lemma GatesAreConserved(s0: State, s: State)
    requires Reachable(s0, s)
    ensures
      && s.available + PermitsHeld(s.ops, s0.maxReaders) == s0.maxReaders
      && ActiveReaders(s.ops) <= s0.maxReaders
      && forall o, p :: 0 <= o < |s.ops| && 0 <= p < |s.ops| && s.ops[o].HasWriter() && s.ops[p].HasWriter() ==> o == p
  {
    ReachableInv(s0, s);
    ActiveReadersHoldPermits(s.ops, s0.maxReaders);
  }

  lemma MaintenanceExcludes(s: State, m: OpId, o: OpId)
    requires PermitsOk(s) && WriterOk(s) && m < |s.ops| && o < |s.ops| && o != m && s.ops[m].phase.Maintaining?
    ensures !s.ops[o].HasWriter() && s.ops[o].ReaderPermits(s.maxReaders) == 0
    ensures !s.ops[o].phase.Open? && !s.ops[o].phase.Dropped?
  {
    assert s.ops[m].HasWriter();
    PermitsOfTwo(s.ops, if m < o then m else o, if m < o then o else m, s.maxReaders);
  }

  /** While `resize` runs, no transaction is alive and nobody else owns a permit or the
      mutex. The drop order matters: a permit outlives the transaction it guards. */
  lemma NoTransactionDuringMaintenance(s0: State, s: State, m: OpId, o: OpId)
    requires Reachable(s0, s)
    requires m < |s.ops| && o < |s.ops| && o != m && s.ops[m].phase.Maintaining?
    ensures
      var op := s.ops[o];
      !op.phase.Open? && !op.phase.Dropped? && !op.HasWriter() && op.ReaderPermits(s0.maxReaders) == 0
  {
    ReachableInv(s0, s);
    MaintenanceExcludes(s, m, o);
  }

  // ---- fairness ----

  /** A reader queued after a maintenance request owns a permit only once that maintenance has given
      its permits back. */
  lemma ReaderQueuedLaterWaits(s0: State, s: State, i: nat, j: nat)
    requires Reachable(s0, s)
    requires i < j < |s.readerLog|
    ensures
      s.readerLog[i] < |s.ops| && s.readerLog[j] < |s.ops| &&
      var z, r := s.ops[s.readerLog[i]], s.ops[s.readerLog[j]];
      z.kind.Maintain? && r.ReaderPermits(s0.maxReaders) > 0 ==> z.phase.ReaderPermitsFreed? || z.phase.Finished?
  {
    ReachableInv(s0, s);
    LaterRequestWaits(s, i, j);
  }

  lemma LaterRequestWaits(s: State, i: nat, j: nat)
    requires PermitsOk(s) && WriterOk(s) && ReadersOk(s) && i < j < |s.readerLog|
    ensures
      var z, r := s.ops[s.readerLog[i]], s.ops[s.readerLog[j]];
      z.kind.Maintain? && r.ReaderPermits(s.maxReaders) > 0 ==> z.phase.ReaderPermitsFreed? || z.phase.Finished?
  {
    var a, b := s.readerLog[i], s.readerLog[j];
    assert a != b;
    if s.ops[a].kind.Maintain? && s.ops[b].ReaderPermits(s.maxReaders) > 0 {
      assert !s.ops[b].phase.WaitReaders?;
      assert !s.ops[a].phase.WaitReaders?;
      if s.ops[a].phase.Maintaining? {
        MaintenanceExcludes(s, a, b);
      }
    }
  }

  // ---- serial store ----

  /** The serial order: `commits` lists the successful ingestions, each exactly once and with its own
      items, and no failed one; the store is what they produce one after the other; every open reader
      sees the store after a prefix of them; a successful ingestion returns the number of its items,
      equal keys included. */
  lemma RunsAreSerial(s0: State, s: State, o: OpId)
    requires Reachable(s0, s) && o < |s.ops|
    ensures CommitsAreTheSuccesses(s) && s.committed == Replay(s0.committed, s.commits)
    ensures
      var op := s.ops[o];
      && (op.kind.Read? && op.phase.Open? ==> op.base <= |s.commits| && op.view == Replay(s0.committed, s.commits[..op.base]))
      && (op.result.Some? ==> op.kind.Write? && op.result.value == |op.kind.items|)
  {
    ReachableInv(s0, s);
    assert OpDataOk(s0, s, s.ops[o]);
  }

  ghost predicate CommitsAreTheSuccesses(s: State) {
    && (forall o :: 0 <= o < |s.ops| ==> (HasLanded(s.commits, o) <==> s.ops[o].result.Some?))
    && (forall j, k :: 0 <= j < k < |s.commits| ==> s.commits[j].op != s.commits[k].op)
    && (forall k :: 0 <= k < |s.commits| ==>
          s.commits[k].op < |s.ops| && s.ops[s.commits[k].op].kind == Write(s.commits[k].items))
  }

  // ---- real time ----

  lemma {:induction false} FeasiblePrefix(s0: State, es: seq<Event>, i: nat)
    requires Feasible(s0, es) && i <= |es|
    ensures Feasible(s0, es[..i])
  {
    if i == |es| {
      assert es[..i] == es;
    } else {
      FeasiblePrefix(s0, es[..|es| - 1], i);
      assert es[..|es| - 1][..i] == es[..i];
    }
  }

  /** The state a run passes through after `i` events. */
  function StateAt(s0: State, es: seq<Event>, i: nat): State
    requires Feasible(s0, es) && i <= |es|
  {
    FeasiblePrefix(s0, es, i);
    After(s0, es[..i])
  }

  /** Commits are only appended, and a reader requested after `s1` opens on at least the commits of `s1`. */
  ghost predicate Later(s1: State, s: State) {
    && |s1.ops| <= |s.ops| && s1.commits <= s.commits
    && forall o :: |s1.ops| <= o < |s.ops| && s.ops[o].kind.Read? && s.ops[o].phase.Open? ==> |s1.commits| <= s.ops[o].base
  }

  lemma LaterOp(s1: State, s: State, o: OpId, act: Action)
    requires Later(s1, s) && o < |s.ops| && CanAct(s.ops[o], act)
    ensures Later(s1, OpStep(s, o, act))
  {
    var op := Act(s.ops[o], act, s.committed, |s.commits|);
    assert op.phase.Open? && op.kind.Read? ==> op.base == |s.commits|;
  }

  lemma LaterStep(s1: State, s: State, e: Event)
    requires Later(s1, s) && Enabled(s, e)
    ensures Later(s1, Next(s, e))
  {
    match e
    case Step(o, act) => LaterOp(s1, s, o, act);
    case _ =>
  }

  lemma {:induction false} LaterAlways(s0: State, es: seq<Event>, i: nat)
    requires Feasible(s0, es) && i <= |es|
    ensures Later(StateAt(s0, es, i), After(s0, es))
  {
    if i == |es| {
      assert es[..i] == es;
    } else {
      var n := |es| - 1;
      LaterAlways(s0, es[..n], i);
      FeasiblePrefix(s0, es, i);
      assert es[..n][..i] == es[..i];
      LaterStep(StateAt(s0, es, i), After(s0, es[..n]), es[n]);
    }
  }

  /** An ingestion that had succeeded before another one was requested comes before it. */
  lemma EarlierIngestionComesFirst(s0: State, es: seq<Event>, i: nat, a: OpId, b: OpId) returns (j: nat, k: nat)
    requires Start(s0) && Feasible(s0, es) && i <= |es|
    requires a < |StateAt(s0, es, i).ops| && StateAt(s0, es, i).ops[a].result.Some?
    requires |StateAt(s0, es, i).ops| <= b < |After(s0, es).ops| && After(s0, es).ops[b].result.Some?
    ensures
      var commits := After(s0, es).commits;
      j < k < |commits| && commits[j].op == a && commits[k].op == b
  {
    var s1, s := StateAt(s0, es, i), After(s0, es);
    FeasiblePrefix(s0, es, i);
    InvAlways(s0, es[..i]);
    InvAlways(s0, es);
    LaterAlways(s0, es, i);
    j, k := OrderedCommits(s1, s, a, b);
  }

  lemma OrderedCommits(s1: State, s: State, a: OpId, b: OpId) returns (j: nat, k: nat)
    requires CommitsOk(s1) && CommitsOk(s) && Later(s1, s)
    requires a < |s1.ops| <= b < |s.ops| && s1.ops[a].result.Some? && s.ops[b].result.Some?
    ensures j < k < |s.commits| && s.commits[j].op == a && s.commits[k].op == b
  {
    assert HasLanded(s1.commits, a) && HasLanded(s.commits, b);
    j :| 0 <= j < |s1.commits| && s1.commits[j].op == a;
    k :| 0 <= k < |s.commits| && s.commits[k].op == b;
    assert s.commits[j] == s1.commits[j];
  }

  /** A reader is never staler than its request: it sees everything committed before it asked. */
  lemma ReadersAreFresh(s0: State, es: seq<Event>, i: nat, o: OpId)
    requires Start(s0) && Feasible(s0, es) && i <= |es|
    requires |StateAt(s0, es, i).ops| <= o < |After(s0, es).ops|
    requires After(s0, es).ops[o].kind.Read? && After(s0, es).ops[o].phase.Open?
    ensures
      var s := After(s0, es);
      && StateAt(s0, es, i).commits <= s.commits
      && |StateAt(s0, es, i).commits| <= s.ops[o].base <= |s.commits|
      && s.ops[o].view == Replay(s0.committed, s.commits[..s.ops[o].base])
  {
    LaterAlways(s0, es, i);
    InvAlways(s0, es);
    assert OpDataOk(s0, After(s0, es), After(s0, es).ops[o]);
  }

  /** The only event that changes the store is a successful commit, and it applies the ingestion's
      puts all at once to the store as it then is; a failed ingestion changes nothing. */
  lemma OnlyCommitsChangeTheStore(s0: State, s: State, e: Event)
    requires Reachable(s0, s) && Enabled(s, e)
    ensures
      Next(s, e).committed ==
        if e.Step? && e.act == Commit(true) then PutAll(s.committed, s.ops[e.op].kind.items) else s.committed
  {
    ReachableInv(s0, s);
    if e.Step? && e.act == Commit(true) {
      StoreOkCommit(s0, s, e.op);
    }
  }
}
