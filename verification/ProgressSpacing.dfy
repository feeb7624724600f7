/** The six seconds between sends, across benchmarks: the semaphore admits the next benchmark at once, and
    its reporter knows nothing of earlier sends. */
module ProgressSpacing {
  import opened Wrappers
  import opened Progress
  import opened ProgressRuns

  /** Every send to the chat that got through was recorded at least six seconds before `at`. A caller can
      check this before it starts a benchmark at that instant. */
  predicate Rested(y: System, chat: Chat, at: Instant) {
    forall i :: 0 <= i < |y.sends| && y.sends[i].chat == chat && y.sends[i].delivered ==> y.sends[i].done + PAIR_INTERVAL <= at
  }

  /** Sends to a chat start six seconds after every earlier one that got through, whatever benchmark it was of. */
  predicate AllSpaced(sends: seq<Send>) {
    forall i, j :: 0 <= i < j < |sends| && sends[i].chat == sends[j].chat && sends[i].delivered ==>
      sends[i].done + PAIR_INTERVAL <= sends[j].start
  }

  /** The chat's sends of a longer log keep their distance from those of a shorter one. */
  predicate SpacedFrom(before: seq<Send>, after: seq<Send>, chat: Chat) {
    forall i, j :: 0 <= i < |before| <= j < |after| && before[i].chat == chat == after[j].chat && before[i].delivered ==>
      before[i].done + PAIR_INTERVAL <= after[j].start
  }

  /** However the process goes on after a start for the chat at `at`. */
  ghost predicate LaterSendsAreSpaced(y: System, chat: Chat, at: Instant)
    requires Enabled(y, Start(at, chat))
  {
    forall more :: Feasible(Next(y, Start(at, chat)), more) ==> SpacedFrom(y.sends, Reach(Next(y, Start(at, chat)), more).sends, chat)
  }

  /** Every start that is granted finds the chat rested. */
  predicate Patient(y: System, run: seq<Event>)
    requires Feasible(y, run)
    decreases |run|
  {
    run == [] || ((run[0].Start? && y.permits > 0 ==> Rested(y, run[0].chat, run[0].at)) && Patient(Next(y, run[0]), run[1..]))
  }

  // ---- building runs ----

  lemma {:induction false} ReachMore(y: System, run: seq<Event>, e: Event)
    requires Feasible(y, run) && Enabled(Reach(y, run), e)
    ensures Feasible(y, run + [e]) && Reach(y, run + [e]) == Next(Reach(y, run), e)
    decreases |run|
  {
    if run == [] {
      assert run + [e] == [e] && [e][1..] == [];
    } else {
      ReachMore(Next(y, run[0]), run[1..], e);
      assert (run + [e])[1..] == run[1..] + [e];
    }
  }

  lemma {:induction false} PatientMore(y: System, run: seq<Event>, e: Event)
    requires Feasible(y, run) && Patient(y, run) && Enabled(Reach(y, run), e)
    requires e.Start? && Reach(y, run).permits > 0 ==> Rested(Reach(y, run), e.chat, e.at)
    ensures Feasible(y, run + [e]) && Patient(y, run + [e])
    decreases |run|
  {
    ReachMore(y, run, e);
    if run == [] {
      assert run + [e] == [e] && [e][1..] == [];
    } else {
      PatientMore(Next(y, run[0]), run[1..], e);
      assert (run + [e])[1..] == run[1..] + [e];
    }
  }

  /** A run of the process to `y`. */
  ghost predicate Leads(run: seq<Event>, y: System) {
    Feasible(INIT, run) && Reach(INIT, run) == y
  }

  ghost predicate LeadsPatiently(run: seq<Event>, y: System) {
    Leads(run, y) && Patient(INIT, run)
  }

  lemma Then(run: seq<Event>, y: System, e: Event, z: System) returns (longer: seq<Event>)
    requires Leads(run, y) && Enabled(y, e) && Next(y, e) == z
    ensures Leads(longer, z)
    ensures LeadsPatiently(run, y) && (e.Start? ==> Rested(y, e.chat, e.at)) ==> LeadsPatiently(longer, z)
  {
    ReachMore(INIT, run, e);
    longer := run + [e];
    if LeadsPatiently(run, y) && (e.Start? ==> Rested(y, e.chat, e.at)) {
      PatientMore(INIT, run, e);
    }
  }

  function At(t: Instant): Attempt {
    Attempt(t, t, t, true)
  }

  predicate Idle(y: System) {
    y.sessions == map[] && y.permits == 1
  }

  /** After a whole benchmark from `y`: its first report got through at `at`, the last one was not due, and
      the finish sent that six seconds later. */
  function Benchmarked(y: System, chat: Chat, at: Instant, first: string, last: string): System {
    y.(clock := at + PAIR_INTERVAL, started := y.started + 1, samples := y.samples + [Sample(y.started, at)],
       sends := y.sends + [Send(y.started, chat, first, at, at, true), Send(y.started, chat, last, at + PAIR_INTERVAL, at + PAIR_INTERVAL, true)])
  }

  /** While that benchmark runs. */
  function Running(y: System, chat: Chat, at: Instant, p: Progress, sends: seq<Send>, samples: seq<Sample>): System {
    y.(clock := at, permits := 0, started := y.started + 1, sessions := map[y.started := Session(chat, p, false)],
       sends := y.sends + sends, samples := y.samples + samples)
  }

  lemma StartAndReport(run: seq<Event>, y: System, chat: Chat, at: Instant, message: string) returns (longer: seq<Event>)
    requires Leads(run, y) && Idle(y) && y.clock <= at
    ensures
      var sent := Progress(Some(message), Some(message), Some(at), Some(at));
      var z := Running(y, chat, at, sent, [Send(y.started, chat, message, at, at, true)], [Sample(y.started, at)]);
      Leads(longer, z) && (LeadsPatiently(run, y) && Rested(y, chat, at) ==> LeadsPatiently(longer, z))
  {
    var sent := Progress(Some(message), Some(message), Some(at), Some(at));
    var y1 := Running(y, chat, at, NOTHING_YET, [], []);
    var y2 := Running(y, chat, at, sent, [Send(y.started, chat, message, at, at, true)], [Sample(y.started, at)]);
    assert y.sends + [] == y.sends && y.samples + [] == y.samples;
    longer := Then(run, y, Start(at, chat), y1);
    longer := Then(longer, y1, Act(y.started, Report(message, at, at, At(at))), y2);
  }

  lemma ReportAndFinish(run: seq<Event>, y: System, chat: Chat, at: Instant, first: string, last: string) returns (longer: seq<Event>)
    requires Idle(y) && first != last
    requires
      var sent := Progress(Some(first), Some(first), Some(at), Some(at));
      LeadsPatiently(run, Running(y, chat, at, sent, [Send(y.started, chat, first, at, at, true)], [Sample(y.started, at)]))
    ensures LeadsPatiently(longer, Benchmarked(y, chat, at, first, last))
  {
    var s, end := y.started, at + PAIR_INTERVAL;
    var one, samples := Send(s, chat, first, at, at, true), [Sample(s, at)];
    var y2 := Running(y, chat, at, Progress(Some(first), Some(first), Some(at), Some(at)), [one], samples);
    var y3 := Running(y, chat, at, Progress(Some(last), Some(first), Some(at), Some(at)), [one], samples);
    longer := Then(run, y2, Act(s, Report(last, at, at, At(at))), y3);
    var finish := Act(s, FinishSuccess(Attempt(at, end, end, true)));
    longer := Then(longer, y3, finish, Next(y3, finish));
    assert y.sends + [one] + [Send(s, chat, last, end, end, true)] == Benchmarked(y, chat, at, first, last).sends;
    assert Next(y3, finish).sessions - {s} == map[];
    longer := Then(longer, Next(y3, finish), End(s), Benchmarked(y, chat, at, first, last));
  }

  lemma RunBenchmark(run: seq<Event>, y: System, chat: Chat, at: Instant, first: string, last: string) returns (longer: seq<Event>)
    requires LeadsPatiently(run, y) && Idle(y) && y.clock <= at && Rested(y, chat, at) && first != last
    ensures LeadsPatiently(longer, Benchmarked(y, chat, at, first, last))
  {
    longer := StartAndReport(run, y, chat, at, first);
    longer := ReportAndFinish(longer, y, chat, at, first, last);
  }

  // ---- patient and impatient processes ----

  /** Spacing fails from one benchmark to the next: in the chat of a benchmark whose finish got through,
      the next one's first report may follow after any gap, however short. */
  lemma SecondBenchmarkIsTooQuick(chat: Chat, first: string, last: string, again: string, at: Instant, gap: nat) returns (run: seq<Event>)
    requires gap < PAIR_INTERVAL && first != last
    ensures Feasible(INIT, run)
    ensures
      var sends := Reach(INIT, run).sends;
      && |sends| == 3 && sends[1] == Send(0, chat, last, at + PAIR_INTERVAL, at + PAIR_INTERVAL, true)
      && sends[2] == Send(1, chat, again, at + PAIR_INTERVAL + gap, at + PAIR_INTERVAL + gap, true)
      && !AllSpaced(sends)
  {
    var y := Benchmarked(INIT, chat, at, first, last);
    run := RunBenchmark([], INIT, chat, at, first, last);
    run := StartAndReport(run, y, chat, at + PAIR_INTERVAL + gap, again);
    var sends := Reach(INIT, run).sends;
    assert sends[1].chat == sends[2].chat && sends[2].start < sends[1].done + PAIR_INTERVAL;
  }

  /** Two benchmarks of one chat whose finishes both got through, the second started six seconds after the
      first one's finish, make a patient run. */
  lemma TwoFinishesCanBePatient(chat: Chat, first: string, last: string, at: Instant) returns (run: seq<Event>)
    requires first != last
    ensures Feasible(INIT, run) && Patient(INIT, run)
    ensures
      var done := at + PAIR_INTERVAL;
      var later := done + PAIR_INTERVAL;
      Reach(INIT, run).sends == [
        Send(0, chat, first, at, at, true), Send(0, chat, last, done, done, true),
        Send(1, chat, first, later, later, true), Send(1, chat, last, later + PAIR_INTERVAL, later + PAIR_INTERVAL, true)]
  {
    var y := Benchmarked(INIT, chat, at, first, last);
    run := RunBenchmark([], INIT, chat, at, first, last);
    run := RunBenchmark(run, y, chat, at + PAIR_INTERVAL + PAIR_INTERVAL, first, last);
  }

  // ---- exactly when the next benchmark keeps the distance ----

  lemma {:induction false} LaterSendsStartLater(y: System, more: seq<Event>)
    requires Feasible(y, more)
    ensures y.clock <= Reach(y, more).clock && y.sends <= Reach(y, more).sends
    ensures forall j :: |y.sends| <= j < |Reach(y, more).sends| ==> y.clock <= Reach(y, more).sends[j].start
    decreases |more|
  {
    if more != [] {
      SendsStartNow(y, more[0]);
      LaterSendsStartLater(Next(y, more[0]), more[1..]);
    }
  }

  lemma SendsStartNow(y: System, e: Event)
    requires Enabled(y, e)
    ensures y.clock <= Next(y, e).clock && y.sends <= Next(y, e).sends
    ensures forall j :: |y.sends| <= j < |Next(y, e).sends| ==> y.clock <= Next(y, e).sends[j].start
  {
  }

  /** When no benchmark is running and one is started for a chat, all later sends to the chat, however the
      process goes on, keep their distance from the earlier ones exactly when those have rested by the
      instant of the start. */
  lemma NextBenchmarkIsSpacedExactly(run: seq<Event>, chat: Chat, at: Instant)
    requires Feasible(INIT, run) && Reach(INIT, run).sessions == map[] && Reach(INIT, run).clock <= at
    ensures LaterSendsAreSpaced(Reach(INIT, run), chat, at) <==> Rested(Reach(INIT, run), chat, at)
  {
    var y := Reach(INIT, run);
    InvFromStart(run);
    var z := Next(y, Start(at, chat));
    if Rested(y, chat, at) {
      forall more | Feasible(z, more)
        ensures SpacedFrom(y.sends, Reach(z, more).sends, chat)
      {
        LaterSendsStartLater(z, more);
      }
    } else {
      ReportAtOnce(y, chat, at);
    }
  }

  /** A benchmark that starts now may report now. */
  lemma ReportAtOnce(y: System, chat: Chat, at: Instant)
    requires y.permits > 0 && y.sessions == map[] && y.clock <= at && !Rested(y, chat, at)
    ensures !LaterSendsAreSpaced(y, chat, at)
  {
    var z, report := Next(y, Start(at, chat)), Act(y.started, Report("", at, at, At(at)));
    ReachMore(z, [], report);
    var sends := Reach(z, [] + [report]).sends;
    assert sends == y.sends + [Send(y.started, chat, "", at, at, true)];
    var i :| 0 <= i < |y.sends| && y.sends[i].chat == chat && y.sends[i].delivered && y.sends[i].done + PAIR_INTERVAL > at;
    assert sends[|y.sends|].start == at && sends[|y.sends|].chat == chat;
    assert !SpacedFrom(y.sends, sends, chat);
  }

  // ---- the whole process ----

  predicate FromOther(send: Send, s: nat, chat: Chat) {
    send.delivered && send.session != s && send.chat == chat
  }

  /** All sends are spaced so far, and what other benchmarks have sent to a running one's chat has rested. */
  ghost predicate Calm(y: System) {
    && AllSpaced(y.sends)
    && forall s: nat, i :: s in y.sessions && 0 <= i < |y.sends| && FromOther(y.sends[i], s, y.sessions[s].chat) ==>
         y.sends[i].done + PAIR_INTERVAL <= y.clock
  }

  lemma CalmAct(y: System, s: nat, call: Call)
    requires Calm(y) && OnePermit(y) && Enabled(y, Act(s, call)) && SpacedSends(Next(y, Act(s, call)).sends)
    ensures Calm(Next(y, Act(s, call)))
  {
    var z := Next(y, Act(s, call));
    SendsStartNow(y, Act(s, call));
    forall t: nat | t in z.sessions
      ensures t == s
    {
      SingleKey(y.sessions.Keys, s, t);
    }
    forall i, j | 0 <= i < j < |z.sends| && z.sends[i].chat == z.sends[j].chat && z.sends[i].delivered
      ensures z.sends[i].done + PAIR_INTERVAL <= z.sends[j].start
    {
      if j == |y.sends| && y.sends[i].session != s {
        assert FromOther(y.sends[i], s, y.sessions[s].chat);
      }
    }
  }

  lemma CalmStep(y: System, e: Event)
    requires Calm(y) && Inv(y) && Enabled(y, e) && (e.Start? && y.permits > 0 ==> Rested(y, e.chat, e.at))
    ensures Calm(Next(y, e)) && Inv(Next(y, e))
  {
    InvStep(y, e);
    if e.Act? {
      CalmAct(y, e.session, e.call);
    }
  }

  lemma {:induction false} CalmAlways(y: System, run: seq<Event>)
    requires Calm(y) && Inv(y) && Feasible(y, run) && Patient(y, run)
    ensures Calm(Reach(y, run))
    decreases |run|
  {
    if run != [] {
      CalmStep(y, run[0]);
      CalmAlways(Next(y, run[0]), run[1..]);
    }
  }

  /** Over the whole process every send is spaced from every earlier one to its chat that got through, if
      each benchmark starts only when those have rested. */
  lemma PatientRunsAreSpaced(run: seq<Event>)
    requires Feasible(INIT, run) && Patient(INIT, run)
    ensures AllSpaced(Reach(INIT, run).sends)
  {
    assert INIT.sessions == map[];
    CalmAlways(INIT, run);
  }
}
