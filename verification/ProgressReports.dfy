/** Which calls of the reporter send something, and when at the earliest: the other side of the limits. */
module ProgressReports {
  import opened Wrappers
  import opened Progress
  import opened ProgressRuns

  /** A minute has passed since every sample of the session so far. */
  predicate MinuteSinceSamples(samples: seq<Sample>, s: nat, seen: Instant) {
    forall i :: 0 <= i < |samples| && samples[i].session == s ==> samples[i].at + 60_000_000_000 <= seen
  }

  lemma {:induction false} LastSampleIsIn(samples: seq<Sample>, s: nat)
    ensures LastSample(samples, s).Some? ==> Sample(s, LastSample(samples, s).value) in samples
  {
    if samples != [] {
      LastSampleIsIn(samples[..|samples| - 1], s);
    }
  }

  lemma DueExactly(y: System, s: nat, seen: Instant)
    requires s in y.sessions && Tracks(y, s) && SpacedSamples(y.samples)
    ensures Due(y.sessions[s].progress, seen) <==> MinuteSinceSamples(y.samples, s, seen)
  {
    LastSampleIsIn(y.samples, s);
    forall i | 0 <= i < |y.samples| && y.samples[i].session == s
      ensures LastSample(y.samples, s).Some? && y.samples[i].at <= LastSample(y.samples, s).value
    {
      SampledBefore(y.samples, i);
    }
  }

  /** In every run a report is attempted, at once and with its own message, exactly when a minute has passed
      since all of the session's samples; otherwise nothing is sent, and the clock stays with the report. */
  lemma ReportIsAttemptedExactly(run: seq<Event>, s: nat, message: string, seen: Instant, sampled: Instant, attempt: Attempt)
    requires Feasible(INIT, run) && Enabled(Reach(INIT, run), Act(s, Report(message, seen, sampled, attempt)))
    ensures
      var y, z := Reach(INIT, run), Next(Reach(INIT, run), Act(s, Report(message, seen, sampled, attempt)));
      if MinuteSinceSamples(y.samples, s, seen) then
        && z.sends == y.sends + [Send(s, y.sessions[s].chat, message, attempt.start, attempt.done, attempt.delivered)]
        && z.samples == y.samples + [Sample(s, sampled)] && z.clock == attempt.done
      else
        z.sends == y.sends && z.samples == y.samples && z.clock == seen
  {
    var y := Reach(INIT, run);
    InvFromStart(run);
    assert Tracks(y, s);
    DueExactly(y, s, seen);
    assert y.sends + [] == y.sends && y.samples + [] == y.samples;
  }

  /** The message of a session's last send that got through. */
  function LastMessage(sends: seq<Send>, s: nat): Option<string> {
    var last := LastDelivered(sends, s);
    if last.Some? then Some(last.value.message) else None
  }

  /** A successful finish sends the last message reported, exactly when that is not the last one that got
      through. */
  lemma FinishIsAttemptedExactly(run: seq<Event>, s: nat, attempt: Attempt)
    requires Feasible(INIT, run) && Enabled(Reach(INIT, run), Act(s, FinishSuccess(attempt)))
    ensures
      var y, z := Reach(INIT, run), Next(Reach(INIT, run), Act(s, FinishSuccess(attempt)));
      var last := LastReported(run, s);
      if last.Some? && last != LastMessage(y.sends, s) then
        z.sends == y.sends + [Send(s, y.sessions[s].chat, last.value, attempt.start, attempt.done, attempt.delivered)]
      else
        z.sends == y.sends
  {
    var y := Reach(INIT, run);
    InvFromStart(run);
    assert Tracks(y, s);
    LatestIsLastReported(run, s);
    assert y.sends + [] == y.sends;
  }

  /** A failure is always attempted. */
  lemma FailureIsAttempted(y: System, s: nat, message: string, attempt: Attempt)
    requires Enabled(y, Act(s, FinishFailure(message, attempt)))
    ensures
      var z := Next(y, Act(s, FinishFailure(message, attempt)));
      z.sends == y.sends + [Send(s, y.sessions[s].chat, message, attempt.start, attempt.done, attempt.delivered)]
  {
  }

  /** The delay reaches exactly to six seconds after the session's last send that got through, and there is none
      when that is past already. */
  lemma DelayIsExact(run: seq<Event>, s: nat, asked: Instant)
    requires Feasible(INIT, run) && s in Reach(INIT, run).sessions && Reach(INIT, run).clock <= asked
    ensures
      var y := Reach(INIT, run);
      var last := LastDelivered(y.sends, s);
      var start := asked + PairDelay(y.sessions[s].progress, asked);
      if last.Some? && asked < last.value.done + 6_000_000_000 then start == last.value.done + 6_000_000_000 else start == asked
  {
    var y := Reach(INIT, run);
    InvFromStart(run);
    assert Tracks(y, s);
    LastDeliveredIsIn(y.sends, s);
  }

  // ---- the last call ----

  predicate Finished(y: System, s: nat) {
    s < y.started && (s in y.sessions ==> y.sessions[s].finished)
  }

  /** After a finishing call its session makes no further call, however the process goes on. */
  lemma {:induction false} FinishIsLast(y: System, more: seq<Event>, s: nat, i: nat)
    requires Finished(y, s) && Feasible(y, more) && i < |more|
    ensures !(more[i].Act? && more[i].session == s)
    decreases |more|
  {
    assert Finished(Next(y, more[0]), s);
    if i > 0 {
      FinishIsLast(Next(y, more[0]), more[1..], s, i - 1);
    }
  }

  lemma FinishFinishes(run: seq<Event>, s: nat, call: Call)
    requires Feasible(INIT, run) && Enabled(Reach(INIT, run), Act(s, call)) && !call.Report?
    ensures Finished(Next(Reach(INIT, run), Act(s, call)), s)
  {
    InvFromStart(run);
  }
}
