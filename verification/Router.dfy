/** The per-user message router as a step machine.

    One router loop takes mobile-originated messages (MOs) one at a time, finds or creates the
    sender's channel in a locked map, sends, and spawns one dialog task per fresh channel.  The
    dialog tasks, the shutdown loop and the consumer of the merged mobile-terminated messages (MTs)
    run concurrently with it, so every atomic section between two awaits is one event below and a
    run is any enabled sequence of events. */
module Router {
  import opened Wrappers

  type UserId = nat
  type DialogId = nat
  type Mt = string

  datatype Mo = Mo(sender: UserId, id: nat)

  /** An unbounded channel: FIFO, and a closed one refuses sends but keeps what it holds. */
  datatype Channel = Channel(queue: seq<Mo>, closed: bool)

  /** Life of a dialog task.  `close_dialog` is two atomic sections, the removal under the lock and
      the close that follows it, so each of its two call sites has an intermediate phase that
      remembers whether a route was found. */
  datatype Phase =
    | Created
    | Serving
    | IdleUnlinked(had: bool)
    | Draining
    | Ended
    | FinalUnlinked(had: bool)
    | Done

  /** A dialog: its channel, its task, and logs of what went through it. `idled` says that the idle
      call of `close_dialog` has begun, whether or not it found a route; `lost` are the replies refused by a
      closed MT channel. */
  datatype Dialog = Dialog(
    user: UserId, creator: Mo,
    channel: Channel, rxOpen: bool,
    sent: seq<Mo>, consumed: seq<Mo>,
    phase: Phase, idled: bool, spawns: nat,
    produced: seq<Mt>, pending: Option<Mt>, accepted: seq<Mt>, lost: seq<Mt>)
  {
    /** The task has not yet given up its user's route for good. */
    predicate Live() { !phase.FinalUnlinked? && !phase.Done? }

    /** Between the idle call of `close_dialog` and the final one. */
    predicate InWindow() { idled && Live() }
  }

  function NewDialog(mo: Mo): Dialog {
    Dialog(mo.sender, mo, Channel([], false), true, [], [], Created, false, 0, [], None, [], [])
  }

  /** Where the router loop stands. */
  datatype RouterPc =
    | Idle
    | Routing(mo: Mo)
    | Sending(mo: Mo, dialog: DialogId, isNew: bool)
    | Spawning(dialog: DialogId)
    | Stopped
    | RoutesClosed
    | Finished

  /** What became of one arrived MO. */
  datatype Outcome = Outcome(mo: Mo, dialog: DialogId, accepted: bool)

  datatype Tagged = Tagged(dialog: DialogId, mt: Mt)

  datatype State = State(
    routes: map<UserId, DialogId>,
    dialogs: seq<Dialog>,
    pc: RouterPc,
    arrived: seq<Mo>,
    outcomes: seq<Outcome>,
    mtQueue: seq<Tagged>,
    mtClosed: bool,
    delivered: seq<Tagged>)

  const INIT := State(map[], [], Idle, [], [], [], false, [])

  /** Capacity of the merged MT channel. */
  const MT_CAPACITY := 64

  /** Atomic sections of a dialog task. */
  datatype Action =
    | Consume
    | DropReceiver
    | IdleUnlink
    | IdleClose
    | Produce(mt: Mt)
    | SendMt
    | EndProcessor
    | FinalUnlink
    | FinalClose
  {
    /** The half of `close_dialog` that runs under the map's lock. */
    predicate Unlinks() { IdleUnlink? || FinalUnlink? }
  }

  datatype Event =
    | Arrive(mo: Mo)
    | Lookup
    | Send
    | Spawn
    | EndOfMos
    | CloseRoutes
    | CloseMts
    | ReceiveMt
    | Task(d: DialogId, act: Action)

  predicate Enabled(s: State, e: Event) {
    match e
    case Arrive(_) => s.pc.Idle?
    case Lookup => s.pc.Routing?
    case Send => s.pc.Sending? && s.pc.dialog < |s.dialogs|
    case Spawn => s.pc.Spawning? && s.pc.dialog < |s.dialogs|
    case EndOfMos => s.pc.Idle?
    case CloseRoutes => s.pc.Stopped?
    case CloseMts => s.pc.RoutesClosed?
    case ReceiveMt => s.mtQueue != []
    case Task(d, act) =>
      d < |s.dialogs| && CanAct(s.dialogs[d], act) && (act.SendMt? ==> s.mtClosed || |s.mtQueue| < MT_CAPACITY)
  }

  /** Only a serving task whose receiver is alive reads its channel or times out; an ended processor
      has pushed its last reply. */
  predicate CanAct(dialog: Dialog, act: Action) {
    var working := dialog.phase.Serving? || dialog.phase.Draining?;
    match act
    case Consume => dialog.phase.Serving? && dialog.rxOpen && dialog.channel.queue != []
    case IdleUnlink => dialog.phase.Serving? && dialog.rxOpen
    case IdleClose => dialog.phase.IdleUnlinked?
    case DropReceiver => working
    case Produce(_) => (working || dialog.phase.IdleUnlinked?) && dialog.pending.None?
    case EndProcessor => working && dialog.pending.None?
    case SendMt => dialog.pending.Some?
    case FinalUnlink => dialog.phase.Ended?
    case FinalClose => dialog.phase.FinalUnlinked?
  }

  function Next(s: State, e: Event): State
    requires Enabled(s, e)
  {
    match e
    case Arrive(mo) => s.(pc := Routing(mo), arrived := s.arrived + [mo])
    case Lookup => LookupStep(s)
    case Send => SendStep(s)
    case Spawn => s.(pc := Idle, dialogs := s.dialogs[s.pc.dialog := SpawnDialog(s.dialogs[s.pc.dialog])])
    case EndOfMos => s.(pc := Stopped)
    case CloseRoutes => s.(pc := RoutesClosed, dialogs := CloseRegistered(s.routes, s.dialogs))
    case CloseMts => s.(pc := Finished, mtClosed := true)
    case ReceiveMt => s.(delivered := s.delivered + [s.mtQueue[0]], mtQueue := s.mtQueue[1..])
    case Task(d, act) => TaskStep(s, d, act)
  }

  /** `close_dialog` removes whatever route its user has: it does not compare channels. */
  function TaskStep(s: State, d: DialogId, act: Action): State
    requires d < |s.dialogs| && CanAct(s.dialogs[d], act)
  {
    var dialog := s.dialogs[d];
    s.(routes := if act.Unlinks() then s.routes - {dialog.user} else s.routes,
       dialogs := s.dialogs[d := Act(dialog, act, dialog.user in s.routes, s.mtClosed)],
       mtQueue := if act.SendMt? && !s.mtClosed then s.mtQueue + [Tagged(d, dialog.pending.value)] else s.mtQueue)
  }

  /** What an action does to its own dialog. A reply refused by the closed MT channel is lost and the
      task goes on with the next one. */
  function Act(dialog: Dialog, act: Action, hasRoute: bool, mtClosed: bool): Dialog
    requires CanAct(dialog, act)
  {
    match act
    case Consume =>
      dialog.(consumed := dialog.consumed + [dialog.channel.queue[0]],
              channel := dialog.channel.(queue := dialog.channel.queue[1..]))
    case DropReceiver => CloseChannel(dialog).(rxOpen := false)
    case IdleUnlink => dialog.(phase := IdleUnlinked(hasRoute), idled := true)
    case IdleClose => AfterClose(dialog, dialog.phase.had).(phase := Draining)
    case Produce(mt) => dialog.(produced := dialog.produced + [mt], pending := Some(mt))
    case SendMt =>
      if mtClosed then dialog.(pending := None, lost := dialog.lost + [dialog.pending.value])
      else dialog.(pending := None, accepted := dialog.accepted + [dialog.pending.value])
    case EndProcessor => CloseChannel(dialog).(rxOpen := false, phase := Ended)
    case FinalUnlink => dialog.(phase := FinalUnlinked(hasRoute))
    case FinalClose => AfterClose(dialog, dialog.phase.had).(phase := Done)
  }

  /** The critical section of `route_mo`. */
  function LookupStep(s: State): State
    requires s.pc.Routing?
  {
    var mo := s.pc.mo;
    if mo.sender in s.routes then
      s.(pc := Sending(mo, s.routes[mo.sender], false))
    else
      s.(routes := s.routes[mo.sender := |s.dialogs|],
         dialogs := s.dialogs + [NewDialog(mo)],
         pc := Sending(mo, |s.dialogs|, true))
  }

  /** The send that follows it; a refused send closes the channel again and drops the MO. */
  function SendStep(s: State): State
    requires s.pc.Sending? && s.pc.dialog < |s.dialogs|
  {
    var Sending(mo, d, isNew) := s.pc;
    var dialog := s.dialogs[d];
    var ok := !dialog.channel.closed;
    s.(dialogs := s.dialogs[d := if ok then Accept(dialog, mo) else CloseChannel(dialog)],
       outcomes := s.outcomes + [Outcome(mo, d, ok)],
       pc := if isNew then Spawning(d) else Idle)
  }

  function Accept(dialog: Dialog, mo: Mo): Dialog {
    dialog.(channel := dialog.channel.(queue := dialog.channel.queue + [mo]), sent := dialog.sent + [mo])
  }

  function CloseChannel(dialog: Dialog): Dialog {
    dialog.(channel := dialog.channel.(closed := true))
  }

  /** Second half of `close_dialog`: the channel is closed only when a route was found. */
  function AfterClose(dialog: Dialog, had: bool): Dialog {
    if had then CloseChannel(dialog) else dialog
  }

  function SpawnDialog(dialog: Dialog): Dialog {
    dialog.(phase := Serving, spawns := dialog.spawns + 1)
  }

  predicate Registered(routes: map<UserId, DialogId>, dialogs: seq<Dialog>, d: DialogId)
    requires d < |dialogs|
  {
    dialogs[d].user in routes && routes[dialogs[d].user] == d
  }

  /** The shutdown loop closes every channel the map still holds. */
  function CloseRegistered(routes: map<UserId, DialogId>, dialogs: seq<Dialog>): (r: seq<Dialog>)
    ensures |r| == |dialogs|
  {
    seq(|dialogs|, d requires 0 <= d < |dialogs| =>
      if Registered(routes, dialogs, d) then CloseChannel(dialogs[d]) else dialogs[d])
  }

  /** State after a sequence of events; `Feasible` says that each of them was enabled. */
  predicate Feasible(es: seq<Event>)
    decreases es, 0
  {
    es == [] || (Feasible(es[..|es| - 1]) && Enabled(After(es[..|es| - 1]), es[|es| - 1]))
  }

  function After(es: seq<Event>): State
    requires Feasible(es)
    decreases es, 1
  {
    if es == [] then INIT else Next(After(es[..|es| - 1]), es[|es| - 1])
  }
}
