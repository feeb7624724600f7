/** The progress reporter as the object the benchmarks hold, each of its methods one call of the machine
    in `Progress`. The lock around the state makes the calls atomic with respect to each other. */
module ProgressReporter {
  import opened Wrappers
  import opened Progress

  /** The clock and the chat. Time passes at will; a send may fail. */
  class World {
    var now: Instant
    ghost var sends: seq<Send>

    constructor ()
      ensures sends == []
    {
      now := 0;
      sends := [];
    }

    method Now() returns (t: Instant)
      modifies this`now
      ensures t == now >= old(now)
    {
      var passed: nat :| 0 <= passed;
      now := now + passed;
      t := now;
    }

    method Sleep(delay: nat)
      modifies this`now
      ensures now >= old(now) + delay
    {
      var passed: nat :| 0 <= passed;
      now := now + delay + passed;
    }

    /** The request starts at once; its log entry is complete when the outcome has been recorded. */
    method Request(message: string) returns (delivered: bool)
      modifies this`now
      ensures now >= old(now)
    {
      var passed: nat :| 0 <= passed;
      now := now + passed;
      delivered := *;
    }

    ghost method Log(send: Send)
      modifies this`sends
      ensures sends == old(sends) + [send]
    {
      sends := sends + [send];
    }
  }

  class Reporter {
    const session: nat
    const chat: Chat
    var latest: Option<string>
    var lastSent: Option<string>
    var lastSampledAt: Option<Instant>
    var lastSentAt: Option<Instant>

    function View(): Progress
      reads this
    {
      Progress(latest, lastSent, lastSampledAt, lastSentAt)
    }

    constructor (session: nat, chat: Chat)
      ensures View() == NOTHING_YET && this.session == session && this.chat == chat
    {
      this.session, this.chat := session, chat;
      latest, lastSent, lastSampledAt, lastSentAt := None, None, None, None;
    }

    /** Keep the message; is it time for a sample? */
    method Observe(now: Instant, message: string) returns (due: bool)
      modifies this
      ensures View() == old(View()).(latest := Some(message))
      ensures due == Due(old(View()), now)
    {
      latest := Some(message);
      due := lastSampledAt.None? || Since(now, lastSampledAt.value) >= SAMPLE_INTERVAL;
    }

    method RecordSampled(now: Instant)
      modifies this
      ensures View() == old(View()).(lastSampledAt := Some(now))
    {
      lastSampledAt := Some(now);
    }

    method RecordSent(now: Instant, message: string)
      modifies this
      ensures View() == old(View()).(lastSent := Some(message), lastSentAt := Some(now))
    {
      lastSent := Some(message);
      lastSentAt := Some(now);
    }

    /** Waits out the pair interval, sends, and records the send only if it got through. */
    method SendLocked(world: World, message: string) returns (ok: bool, ghost attempt: Attempt)
      modifies this, world
      ensures ok == attempt.delivered
      ensures old(world.now) <= attempt.asked && attempt.done == world.now
      ensures attempt.asked + PairDelay(old(View()), attempt.asked) <= attempt.start <= attempt.done
      ensures View() == if ok then old(View()).(lastSent := Some(message), lastSentAt := Some(attempt.done)) else old(View())
      ensures world.sends == old(world.sends) + [Send(session, chat, message, attempt.start, attempt.done, ok)]
    {
      var asked := world.Now();
      var delay := PairDelay(View(), asked);
      if delay != 0 {
        world.Sleep(delay);
      }
      ghost var start := world.now;
      ok := world.Request(message);
      if ok {
        var done := world.Now();
        RecordSent(done, message);
      }
      attempt := Attempt(asked, start, world.now, ok);
      world.Log(Send(session, chat, message, start, world.now, ok));
    }

    /** Every execution is a call of the machine: in time, to its next state, with its sends and clock. */
    ghost predicate IsCall(p: Progress, clock: Instant, sends: seq<Send>, world: World, call: Call)
      reads this, world
    {
      && Timely(p, clock, call)
      && View() == After(p, call)
      && world.sends == sends + SendOf(session, chat, p, call)
      && world.now == ClockAfter(p, clock, call)
    }

    /** A report that is not due is only remembered. */
    method Report(world: World, message: string) returns (ok: bool, ghost call: Call)
      modifies this, world
      ensures IsCall(old(View()), old(world.now), old(world.sends), world, call)
      ensures call.Report? && call.message == message
      ensures ok == (Due(old(View()), call.seen) ==> call.attempt.delivered)
    {
      var seen := world.Now();
      var due := Observe(seen, message);
      if !due {
        call := Call.Report(message, seen, seen, Attempt(seen, seen, seen, false));
        return true, call;
      }
      var sampled := world.Now();
      RecordSampled(sampled);
      ghost var attempt: Attempt;
      ok, attempt := SendLocked(world, message);
      call := Call.Report(message, seen, sampled, attempt);
    }

    method FinishSuccess(world: World) returns (ok: bool, ghost call: Call)
      modifies this, world
      ensures IsCall(old(View()), old(world.now), old(world.sends), world, call)
      ensures call.FinishSuccess?
      ensures ok && latest.Some? ==> latest == lastSent
    {
      var unsent := Unsent(View());
      if unsent.None? {
        call := Call.FinishSuccess(Attempt(0, 0, 0, false));
        return true, call;
      }
      ghost var attempt: Attempt;
      ok, attempt := SendLocked(world, unsent.value);
      call := Call.FinishSuccess(attempt);
    }

    method FinishFailure(world: World, message: string) returns (ok: bool, ghost call: Call)
      modifies this, world
      ensures IsCall(old(View()), old(world.now), old(world.sends), world, call)
      ensures call.FinishFailure? && call.message == message
      ensures ok == call.attempt.delivered && latest == Some(message)
    {
      latest := Some(message);
      ghost var attempt: Attempt;
      ok, attempt := SendLocked(world, message);
      call := Call.FinishFailure(message, attempt);
    }
  }
}
