/** What the publisher can always reach, and what it never takes away. */
module PublisherRuns {
  import opened Snapshots
  import opened Publisher
  import opened PublisherSafety

  // ---- nothing disappears ----

  /** Every path of `a` is still one of `b`. */
  predicate KeepsPaths(a: Directory, b: Directory) {
    forall p :: p in a ==> p in b
  }

  lemma PathsStay(t: Tools, s: State, e: Event)
    requires Enabled(t, s, e)
    ensures KeepsPaths(s.fs, Next(t, s, e).fs)
  {
    if e.PublishGeneration? && !Exists(s.fs, Id(t, s.pc.report)) {
      MoveInIs(s.fs, Id(t, s.pc.report), Final(t, s.pc.report));
    }
  }

  /** No file is ever removed, the index page least of all: once there is one, there is one after every step of
      every run, crashes included. */
  lemma {:induction false} NothingDisappears(t: Tools, es: seq<Event>, i: nat)
    requires Feasible(t, es) && i <= |es|
    ensures Feasible(t, es[..i]) && KeepsPaths(After(t, es[..i]).fs, After(t, es).fs)
  {
    FeasiblePrefix(t, es, i);
    if i == |es| {
      assert es[..i] == es;
    } else {
      var before := es[..|es| - 1];
      NothingDisappears(t, before, i);
      assert before[..i] == es[..i];
      PathsStay(t, After(t, before), es[|es| - 1]);
    }
  }

  // ---- every export can be completed ----

  lemma Extend(t: Tools, es: seq<Event>, e: Event)
    requires Feasible(t, es) && Enabled(t, After(t, es), e)
    ensures Feasible(t, es + [e]) && After(t, es + [e]) == Next(t, After(t, es), e)
  {
    assert (es + [e])[..|es|] == es;
  }

  /** Whatever was going on, the next process finds no export running. */
  lemma GiveUp(t: Tools, es: seq<Event>) returns (longer: seq<Event>)
    requires Feasible(t, es)
    ensures es <= longer && Feasible(t, longer) && After(t, longer) == After(t, es).(pc := NoExport)
  {
    longer := es;
    if !After(t, es).pc.NoExport? {
      Extend(t, es, Crash);
      longer := es + [Crash];
    }
  }

  /** A staged report gets its generation: none has its id yet, or an equal one does. */
  lemma Publish(t: Tools, es: seq<Event>, r: Report) returns (longer: seq<Event>)
    requires Trusted(t) && Feasible(t, es) && WellFormed(t, r) && After(t, es).pc == NoExport
    ensures es <= longer && Feasible(t, longer) && After(t, longer).pc == Published(r)
  {
    Extend(t, es, Stage(r));
    longer := es + [Stage(r)];
    InvAlways(t, longer);
    ExistingIsEqual(t, After(t, longer), r);
    Extend(t, longer, PublishGeneration);
    longer := longer + [PublishGeneration];
  }

  lemma Switch(t: Tools, es: seq<Event>, r: Report) returns (longer: seq<Event>)
    requires Feasible(t, es) && WellFormed(t, r) && After(t, es).pc == Published(r)
    ensures es <= longer && Feasible(t, longer) && After(t, longer).pc.Copying? && After(t, longer).pc.report == r
  {
    Extend(t, es, SwitchIndex);
    longer := es + [SwitchIndex];
  }

  lemma CanCopy(t: Tools, es: seq<Event>)
    requires IsOrder(t.order) && Feasible(t, es) && After(t, es).pc.Copying? && After(t, es).pc.left != []
    ensures Enabled(t, After(t, es), CopyFile)
  {
    assert Reachable(t, After(t, es));
    FinishedExportIsWhole(t, After(t, es));
  }

  lemma {:induction false} CopyAll(t: Tools, es: seq<Event>, r: Report, n: nat) returns (longer: seq<Event>)
    requires IsOrder(t.order) && Feasible(t, es) && After(t, es).pc.Copying? && After(t, es).pc.report == r && |After(t, es).pc.left| == n
    ensures es <= longer && Feasible(t, longer) && After(t, longer).pc == Copying(r, [])
    decreases n
  {
    longer := es;
    if n > 0 {
      CanCopy(t, es);
      Extend(t, es, CopyFile);
      longer := CopyAll(t, es + [CopyFile], r, n - 1);
    }
  }

  /** The root shows the report: its index page, its generation, and a copy of each of its files. */
  ghost predicate Shows(t: Tools, fs: Directory, r: Report) {
    && Complete(t, fs, r) && IndexRefersTo(t, fs, r) && IndexLeads(t, fs, r)
    && forall p :: p in Final(t, r) ==> p in fs && fs[p] == Final(t, r)[p]
  }

  /** From every reachable state, in the middle of another export or not, every report can be exported to the
      end. */
  lemma ExportCanFinish(t: Tools, es: seq<Event>, r: Report) returns (longer: seq<Event>)
    requires Trusted(t) && Feasible(t, es) && WellFormed(t, r)
    ensures es <= longer && Feasible(t, longer) && After(t, longer).pc.NoExport?
    ensures Shows(t, After(t, longer).fs, r)
  {
    longer := GiveUp(t, es);
    longer := Publish(t, longer, r);
    longer := Conclude(t, longer, r);
  }

  lemma Conclude(t: Tools, es: seq<Event>, r: Report) returns (longer: seq<Event>)
    requires IsOrder(t.order) && Feasible(t, es) && WellFormed(t, r) && After(t, es).pc == Published(r)
    ensures es <= longer && Feasible(t, longer) && After(t, longer).pc.NoExport?
    ensures Shows(t, After(t, longer).fs, r)
  {
    longer := Switch(t, es, r);
    longer := CopyAll(t, longer, r, |After(t, longer).pc.left|);
    longer := Close(t, longer, r);
  }

  lemma Close(t: Tools, es: seq<Event>, r: Report) returns (longer: seq<Event>)
    requires IsOrder(t.order) && Feasible(t, es) && After(t, es).pc == Copying(r, [])
    ensures es <= longer && Feasible(t, longer) && After(t, longer).pc.NoExport? && Shows(t, After(t, longer).fs, r)
  {
    CopiedShows(t, es, r);
    Extend(t, es, Finish);
    longer := es + [Finish];
  }

  lemma CopiedShows(t: Tools, es: seq<Event>, r: Report)
    requires IsOrder(t.order) && Feasible(t, es) && After(t, es).pc == Copying(r, [])
    ensures Shows(t, After(t, es).fs, r)
  {
    assert Reachable(t, After(t, es));
    FinishedExportIsWhole(t, After(t, es));
    EveryUrlLeads(t, After(t, es).fs, r);
  }
}
