/** Progress reports of the database benchmarks: sampled once a minute, sends to the same chat at least
    six seconds apart, one benchmark at a time. Instants are nanoseconds of a monotone clock. */
module Progress {
  import opened Wrappers

  type Instant = nat

  /** A pair of the business number and a user: the sends of one chat are rate-limited. */
  type Chat = nat

  const SAMPLE_INTERVAL := 60_000_000_000
  const PAIR_INTERVAL := 6_000_000_000

  /** `saturating_duration_since`. */
  function Since(now: Instant, earlier: Instant): nat {
    if now >= earlier then now - earlier else 0
  }

  // ---- one reporter ----

  datatype Progress = Progress(latest: Option<string>, lastSent: Option<string>,
                               lastSampledAt: Option<Instant>, lastSentAt: Option<Instant>)

  const NOTHING_YET := Progress(None, None, None, None)

  /** A minute has passed since the last sample, or there is none. */
  predicate Due(p: Progress, now: Instant) {
    p.lastSampledAt.None? || Since(now, p.lastSampledAt.value) >= SAMPLE_INTERVAL
  }

  function Unsent(p: Progress): Option<string> {
    if p.latest.Some? && p.latest != p.lastSent then p.latest else None
  }

  function PairDelay(p: Progress, now: Instant): nat {
    if p.lastSentAt.None? then 0 else Since(PAIR_INTERVAL, Since(now, p.lastSentAt.value))
  }

  /** A send with its clock readings: when the delay was computed, when the request started, and when its
      outcome was known. */
  datatype Attempt = Attempt(asked: Instant, start: Instant, done: Instant, delivered: bool)

  /** A call to the reporter with everything the outside world decides about it. The attempt is unused
      when the call sends nothing. */
  datatype Call =
    | Report(message: string, seen: Instant, sampled: Instant, attempt: Attempt)
    | FinishSuccess(attempt: Attempt)
    | FinishFailure(message: string, attempt: Attempt)

  /** What the call tries to send. */
  function Message(p: Progress, call: Call): Option<string> {
    match call
    case Report(message, seen, _, _) => if Due(p, seen) then Some(message) else None
    case FinishSuccess(_) => Unsent(p)
    case FinishFailure(message, _) => Some(message)
  }

  /** The state when the send begins. */
  function Noted(p: Progress, call: Call): Progress {
    match call
    case Report(message, seen, sampled, _) =>
      p.(latest := Some(message), lastSampledAt := if Due(p, seen) then Some(sampled) else p.lastSampledAt)
    case FinishSuccess(_) => p
    case FinishFailure(message, _) => p.(latest := Some(message))
  }

  function After(p: Progress, call: Call): Progress {
    if Message(p, call).Some? && call.attempt.delivered
    then Noted(p, call).(lastSent := Message(p, call), lastSentAt := Some(call.attempt.done))
    else Noted(p, call)
  }

  /** The clock is monotone and a sleep takes at least as long as it was told. */
  predicate Timely(p: Progress, clock: Instant, call: Call) {
    var from := if call.Report? then call.sampled else clock;
    && (call.Report? ==> clock <= call.seen && (Due(p, call.seen) ==> call.seen <= call.sampled))
    && (Message(p, call).Some? ==>
          && from <= call.attempt.asked
          && call.attempt.asked + PairDelay(p, call.attempt.asked) <= call.attempt.start <= call.attempt.done)
  }

  function ClockAfter(p: Progress, clock: Instant, call: Call): Instant {
    if Message(p, call).Some? then call.attempt.done else if call.Report? then call.seen else clock
  }

  // ---- all benchmarks of the process ----

  datatype Send = Send(session: nat, chat: Chat, message: string, start: Instant, done: Instant, delivered: bool)

  datatype Sample = Sample(session: nat, at: Instant)

  datatype Session = Session(chat: Chat, progress: Progress, finished: bool)

  /** The semaphore, the running benchmarks and, for reference, what was sent and sampled so far. */
  datatype System = System(clock: Instant, permits: nat, sessions: map<nat, Session>, started: nat, refused: nat,
                           sends: seq<Send>, samples: seq<Sample>)

  const INIT := System(0, 1, map[], 0, 0, [], [])

  /** A start is a request for a benchmark, for a chat and at an instant of the caller's. It may come while
      another benchmark is in the middle of a call, and is then refused. */
  datatype Event = Start(at: Instant, chat: Chat) | Act(session: nat, call: Call) | End(session: nat)

  predicate Enabled(y: System, e: Event) {
    match e
    case Start(at, _) => y.permits > 0 ==> y.clock <= at
    case Act(s, call) => s in y.sessions && !y.sessions[s].finished && Timely(y.sessions[s].progress, y.clock, call)
    case End(s) => s in y.sessions
  }

  function Next(y: System, e: Event): System
    requires Enabled(y, e)
  {
    match e
    case Start(at, chat) =>
      if y.permits == 0 then y.(refused := y.refused + 1)
      else
        y.(clock := at, permits := y.permits - 1, started := y.started + 1,
           sessions := y.sessions[y.started := Session(chat, NOTHING_YET, false)])
    case Act(s, call) =>
      var p := y.sessions[s].progress;
      y.(clock := ClockAfter(p, y.clock, call),
         sessions := y.sessions[s := Session(y.sessions[s].chat, After(p, call), !call.Report?)],
         sends := y.sends + SendOf(s, y.sessions[s].chat, p, call),
         samples := y.samples + SampleOf(s, p, call))
    case End(s) => y.(permits := y.permits + 1, sessions := y.sessions - {s})
  }

  function SendOf(s: nat, chat: Chat, p: Progress, call: Call): seq<Send> {
    if Message(p, call).None? then []
    else [Send(s, chat, Message(p, call).value, call.attempt.start, call.attempt.done, call.attempt.delivered)]
  }

  function SampleOf(s: nat, p: Progress, call: Call): seq<Sample> {
    if call.Report? && Due(p, call.seen) then [Sample(s, call.sampled)] else []
  }

  predicate Feasible(y: System, run: seq<Event>)
    decreases |run|
  {
    run == [] || (Enabled(y, run[0]) && Feasible(Next(y, run[0]), run[1..]))
  }

  function Reach(y: System, run: seq<Event>): System
    requires Feasible(y, run)
    decreases |run|
  {
    if run == [] then y else Reach(Next(y, run[0]), run[1..])
  }

  // ---- invariants ----

  /** The last message of a session that got through, with the instant it was recorded. */
  function LastDelivered(sends: seq<Send>, s: nat): Option<Send> {
    if sends == [] then None
    else
      var last := sends[|sends| - 1];
      if last.session == s && last.delivered then Some(last) else LastDelivered(sends[..|sends| - 1], s)
  }

  function LastSample(samples: seq<Sample>, s: nat): Option<Instant> {
    if samples == [] then None
    else
      var last := samples[|samples| - 1];
      if last.session == s then Some(last.at) else LastSample(samples[..|samples| - 1], s)
  }

  /** The reporter's fields are the end of the logs. */
  predicate Tracks(y: System, s: nat)
    requires s in y.sessions
  {
    var p, last := y.sessions[s].progress, LastDelivered(y.sends, s);
    && p.lastSampledAt == LastSample(y.samples, s)
    && (if last.Some? then p.lastSent == Some(last.value.message) && p.lastSentAt == Some(last.value.done)
        else p.lastSent.None? && p.lastSentAt.None?)
  }

  ghost predicate TracksAll(y: System) {
    forall s: nat :: s in y.sessions ==> s < y.started && Tracks(y, s)
  }

  predicate OnePermit(y: System) {
    y.permits + |y.sessions| == 1
  }

  /** Sends of one session start six seconds after each earlier one that got through. */
  predicate SpacedSends(sends: seq<Send>) {
    forall i, j :: 0 <= i < j < |sends| && sends[i].session == sends[j].session && sends[i].delivered ==>
      sends[i].done + PAIR_INTERVAL <= sends[j].start
  }

  predicate SpacedSamples(samples: seq<Sample>) {
    forall i, j :: 0 <= i < j < |samples| && samples[i].session == samples[j].session ==>
      samples[i].at + SAMPLE_INTERVAL <= samples[j].at
  }

  predicate LogsPast(y: System) {
    && (forall i :: 0 <= i < |y.sends| ==> y.sends[i].session < y.started && y.sends[i].start <= y.sends[i].done <= y.clock)
    && (forall i :: 0 <= i < |y.samples| ==> y.samples[i].session < y.started && y.samples[i].at <= y.clock)
  }

  ghost predicate Inv(y: System) {
    OnePermit(y) && TracksAll(y) && LogsPast(y) && SpacedSends(y.sends) && SpacedSamples(y.samples)
  }
}
