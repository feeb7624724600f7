/** What holds in every run of the benchmark reporters. */
module ProgressRuns {
  import opened Wrappers
  import opened Arithmetic
  import opened Progress

  // ---- the logs and their ends ----

  lemma {:induction false} LastDeliveredIsIn(sends: seq<Send>, s: nat)
    ensures LastDelivered(sends, s).Some? ==> LastDelivered(sends, s).value in sends
  {
    if sends != [] {
      LastDeliveredIsIn(sends[..|sends| - 1], s);
    }
  }

  /** No delivered send of the session was recorded after the last one. */
  lemma {:induction false} DeliveredBefore(sends: seq<Send>, i: nat)
    requires SpacedSends(sends) && i < |sends| && sends[i].delivered
    requires forall k :: 0 <= k < |sends| ==> sends[k].start <= sends[k].done
    ensures
      var last := LastDelivered(sends, sends[i].session);
      last.Some? && sends[i].done <= last.value.done
  {
    var n := |sends| - 1;
    if !(sends[n].session == sends[i].session && sends[n].delivered) {
      DeliveredBefore(sends[..n], i);
    }
  }

  lemma {:induction false} SampledBefore(samples: seq<Sample>, i: nat)
    requires SpacedSamples(samples) && i < |samples|
    ensures
      var last := LastSample(samples, samples[i].session);
      last.Some? && samples[i].at <= last.value
  {
    var n := |samples| - 1;
    if samples[n].session != samples[i].session {
      SampledBefore(samples[..n], i);
    }
  }

  lemma LogEnds(sends: seq<Send>, more: seq<Send>, s: nat)
    requires |more| <= 1
    ensures LastDelivered(sends + more, s) ==
            if more != [] && more[0].session == s && more[0].delivered then Some(more[0]) else LastDelivered(sends, s)
  {
    if more == [] {
      assert sends + more == sends;
    } else {
      assert (sends + more)[..|sends|] == sends;
    }
  }

  lemma SampleEnds(samples: seq<Sample>, more: seq<Sample>, s: nat)
    requires |more| <= 1
    ensures LastSample(samples + more, s) ==
            if more != [] && more[0].session == s then Some(more[0].at) else LastSample(samples, s)
  {
    if more == [] {
      assert samples + more == samples;
    } else {
      assert (samples + more)[..|samples|] == samples;
    }
  }

  // ---- one step ----

  lemma PermitStep(y: System, e: Event)
    requires OnePermit(y) && Enabled(y, e)
    requires y.started !in y.sessions
    ensures OnePermit(Next(y, e))
  {
    match e
    case Start(_, _) =>
      assert y.permits > 0 ==> |y.sessions| == 0;
    case Act(s, call) =>
      assert Next(y, e).sessions.Keys == y.sessions.Keys;
    case End(s) =>
      assert (y.sessions - {s}).Keys == y.sessions.Keys - {s};
  }

  lemma TracksStep(y: System, s: nat, call: Call, t: nat)
    requires Enabled(y, Act(s, call)) && t in y.sessions && Tracks(y, t)
    ensures Tracks(Next(y, Act(s, call)), t)
  {
    var p := y.sessions[s].progress;
    LogEnds(y.sends, SendOf(s, y.sessions[s].chat, p, call), t);
    SampleEnds(y.samples, SampleOf(s, p, call), t);
  }

  lemma NothingLogged(y: System, s: nat)
    requires LogsPast(y) && y.started <= s
    ensures LastDelivered(y.sends, s).None? && LastSample(y.samples, s).None?
  {
    LastDeliveredSession(y.sends, s);
    LastSampleSession(y.samples, s);
  }

  lemma {:induction false} LastDeliveredSession(sends: seq<Send>, s: nat)
    requires forall i :: 0 <= i < |sends| ==> sends[i].session != s
    ensures LastDelivered(sends, s).None?
  {
    if sends != [] {
      LastDeliveredSession(sends[..|sends| - 1], s);
    }
  }

  lemma {:induction false} LastSampleSession(samples: seq<Sample>, s: nat)
    requires forall i :: 0 <= i < |samples| ==> samples[i].session != s
    ensures LastSample(samples, s).None?
  {
    if samples != [] {
      LastSampleSession(samples[..|samples| - 1], s);
    }
  }

  lemma TracksAllStep(y: System, e: Event)
    requires TracksAll(y) && LogsPast(y) && Enabled(y, e)
    ensures TracksAll(Next(y, e))
  {
    var z := Next(y, e);
    forall t: nat | t in z.sessions
      ensures t < z.started && Tracks(z, t)
    {
      match e
      case Start(_, _) => NothingLogged(y, y.started);
      case Act(s, call) => TracksStep(y, s, call, t);
      case End(s) =>
    }
  }

  lemma LogsPastStep(y: System, e: Event)
    requires LogsPast(y) && TracksAll(y) && Enabled(y, e)
    ensures LogsPast(Next(y, e))
  {
  }

  /** The delay makes up for what is missing of the six seconds. */
  lemma DelayIsEnough(last: Instant, asked: Instant, start: Instant, p: Progress)
    requires p.lastSentAt == Some(last) && last <= asked && asked + PairDelay(p, asked) <= start
    ensures last + PAIR_INTERVAL <= start
  {
  }

  lemma SpacedSendsStep(y: System, s: nat, call: Call)
    requires Enabled(y, Act(s, call)) && Tracks(y, s) && LogsPast(y) && SpacedSends(y.sends)
    ensures SpacedSends(Next(y, Act(s, call)).sends)
  {
    var p := y.sessions[s].progress;
    var n, sends := |y.sends|, y.sends + SendOf(s, y.sessions[s].chat, p, call);
    forall i, j | 0 <= i < j < |sends| && sends[i].session == sends[j].session && sends[i].delivered
      ensures sends[i].done + PAIR_INTERVAL <= sends[j].start
    {
      if j == n {
        DeliveredBefore(y.sends, i);
        LastDeliveredIsIn(y.sends, s);
        DelayIsEnough(LastDelivered(y.sends, s).value.done, call.attempt.asked, call.attempt.start, p);
      }
    }
  }

  lemma SpacedSamplesStep(y: System, s: nat, call: Call)
    requires Enabled(y, Act(s, call)) && Tracks(y, s) && SpacedSamples(y.samples)
    ensures SpacedSamples(Next(y, Act(s, call)).samples)
  {
    var p := y.sessions[s].progress;
    var n, samples := |y.samples|, y.samples + SampleOf(s, p, call);
    forall i, j | 0 <= i < j < |samples| && samples[i].session == samples[j].session
      ensures samples[i].at + SAMPLE_INTERVAL <= samples[j].at
    {
      if j == n {
        SampledBefore(y.samples, i);
      }
    }
  }

  lemma InvStep(y: System, e: Event)
    requires Inv(y) && Enabled(y, e)
    ensures Inv(Next(y, e))
  {
    PermitStep(y, e);
    TracksAllStep(y, e);
    LogsPastStep(y, e);
    if e.Act? {
      SpacedSendsStep(y, e.session, e.call);
      SpacedSamplesStep(y, e.session, e.call);
    }
  }

  lemma {:induction false} InvAlways(y: System, run: seq<Event>)
    requires Inv(y) && Feasible(y, run)
    ensures Inv(Reach(y, run))
    decreases |run|
  {
    if run != [] {
      InvStep(y, run[0]);
      InvAlways(Next(y, run[0]), run[1..]);
    }
  }

  lemma InvFromStart(run: seq<Event>)
    requires Feasible(INIT, run)
    ensures Inv(Reach(INIT, run))
  {
    assert INIT.sessions == map[];
    InvAlways(INIT, run);
  }

  // ---- the properties of runs ----

  /** Every send of a benchmark starts at least six seconds after each of its earlier sends that got
      through was complete. */
  lemma SendsAreSpaced(run: seq<Event>, i: nat, j: nat)
    requires Feasible(INIT, run)
    requires i < j < |Reach(INIT, run).sends|
    requires Reach(INIT, run).sends[i].session == Reach(INIT, run).sends[j].session && Reach(INIT, run).sends[i].delivered
    ensures Reach(INIT, run).sends[j].start >= Reach(INIT, run).sends[i].done + PAIR_INTERVAL
  {
    InvFromStart(run);
  }

  /** At most one benchmark runs, and a start is refused exactly when one is running. */
  lemma OneBenchmarkAtATime(run: seq<Event>, s: nat, t: nat, start: Event)
    requires Feasible(INIT, run) && start.Start? && Enabled(Reach(INIT, run), start)
    ensures
      var y := Reach(INIT, run);
      && (s in y.sessions && t in y.sessions ==> s == t)
      && (Next(y, start).refused == y.refused + 1 <==> y.sessions != map[])
  {
    InvFromStart(run);
    var y := Reach(INIT, run);
    if s in y.sessions && t in y.sessions {
      SingleKey(y.sessions.Keys, s, t);
    }
    assert y.sessions != map[] ==> |y.sessions| > 0;
  }

  lemma SingleKey(keys: set<nat>, s: nat, t: nat)
    requires |keys| <= 1 && s in keys && t in keys
    ensures s == t
  {
    var rest := keys - {s};
    assert |rest| == |keys| - 1;
  }

  /** The instants of a session's samples within a stretch of time. */
  function SamplesWithin(samples: seq<Sample>, s: nat, from: Instant, length: nat): seq<Instant> {
    if samples == [] then []
    else
      var before, last := SamplesWithin(samples[..|samples| - 1], s, from, length), samples[|samples| - 1];
      if last.session == s && from <= last.at <= from + length then before + [last.at] else before
  }

  /** The k-th sample of the stretch comes at least k intervals after the first. */
  lemma {:induction false} SamplesSpread(samples: seq<Sample>, s: nat, from: Instant, length: nat)
    requires SpacedSamples(samples)
    ensures
      var within := SamplesWithin(samples, s, from, length);
      within != [] ==> from + SAMPLE_INTERVAL * (|within| - 1) <= within[|within| - 1] <= from + length
    ensures forall k :: 0 <= k < |SamplesWithin(samples, s, from, length)| ==>
              Sample(s, SamplesWithin(samples, s, from, length)[k]) in samples
  {
    if samples != [] {
      var n := |samples| - 1;
      SamplesSpread(samples[..n], s, from, length);
      var before := SamplesWithin(samples[..n], s, from, length);
      if before != [] {
        assert Sample(s, before[|before| - 1]) in samples[..n];
      }
    }
  }

  /** Within any stretch of time a benchmark attempts one progress report per minute, plus one. */
  lemma ReportsAreFew(run: seq<Event>, s: nat, from: Instant, length: nat)
    requires Feasible(INIT, run)
    ensures |SamplesWithin(Reach(INIT, run).samples, s, from, length)| <= length / SAMPLE_INTERVAL + 1
  {
    InvFromStart(run);
    var samples := Reach(INIT, run).samples;
    SamplesSpread(samples, s, from, length);
  }

  /** The last message a session was given to report in a run, if any. */
  function LastReported(run: seq<Event>, s: nat): Option<string> {
    if run == [] then None
    else
      var last := run[|run| - 1];
      if last.Act? && last.session == s && !last.call.FinishSuccess? then Some(last.call.message)
      else LastReported(run[..|run| - 1], s)
  }

  lemma {:induction false} LastStep(y: System, run: seq<Event>)
    requires Feasible(y, run) && run != []
    ensures
      var before, last := run[..|run| - 1], run[|run| - 1];
      Feasible(y, before) && Enabled(Reach(y, before), last) && Reach(y, run) == Next(Reach(y, before), last)
    decreases |run|
  {
    var before := run[..|run| - 1];
    if |run| == 1 {
      assert run[1..] == [];
    } else {
      LastStep(Next(y, run[0]), run[1..]);
      assert run[1..][..|run| - 2] == before[1..];
    }
  }

  /** What a reporter holds as its latest message is the last one it was given, sampled or not. */
  lemma {:induction false} LatestIsLastReported(run: seq<Event>, s: nat)
    requires Feasible(INIT, run)
    ensures s in Reach(INIT, run).sessions ==> Reach(INIT, run).sessions[s].progress.latest == LastReported(run, s)
    ensures s >= Reach(INIT, run).started ==> LastReported(run, s).None?
    decreases |run|
  {
    if run != [] {
      LastStep(INIT, run);
      LatestIsLastReported(run[..|run| - 1], s);
      InvFromStart(run[..|run| - 1]);
    }
  }

  /** After a successful `finish_success` the last message that got through is the last one reported. */
  lemma FinishLeavesLatestSent(run: seq<Event>, s: nat, attempt: Attempt)
    requires Feasible(INIT, run) && Enabled(Reach(INIT, run), Act(s, FinishSuccess(attempt)))
    requires Message(Reach(INIT, run).sessions[s].progress, FinishSuccess(attempt)).Some? ==> attempt.delivered
    requires LastReported(run, s).Some?
    ensures
      var last := LastDelivered(Next(Reach(INIT, run), Act(s, FinishSuccess(attempt))).sends, s);
      last.Some? && last.value.message == LastReported(run, s).value
  {
    var y := Reach(INIT, run);
    InvFromStart(run);
    LatestIsLastReported(run, s);
    TracksStep(y, s, FinishSuccess(attempt), s);
  }
}
